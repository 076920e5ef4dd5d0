/** Bounds on attempts and retry delays, and when a condition may be given up. */
module AlertingBounds {
  import opened Base
  import opened Alerting
  import opened AlertingReconcile
  import opened AlertingWorld
  import opened AlertingSafety

  // ----- Attempts -----------------------------------------------------------

  /** The settings in force, whoever sets them, always allow R attempts. */
  predicate AllowsAttempts(a: Action, R: nat) {
    (a.Update? ==> a.settings.retryMax == R) && (a.Crash? ==> a.settings.retryMax == R)
  }

  predicate Within(s: State, limit: nat) {
    forall id :: id in s.deliveries ==> s.deliveries[id].attempts <= limit
  }

  /** Every record neither delivered, given up nor under way has an attempt left. */
  predicate Spared(s: State, inFlight: set<DeliveryId>, limit: nat) {
    forall id :: id in s.deliveries && id !in inFlight ==> !Pending(s.deliveries[id]) || s.deliveries[id].attempts < limit
  }

  /** With c crashes so far no counter exceeds R + c. */
  ghost predicate Bounded(w: World, R: nat) {
    var limit := R + Crashes(w.log);
    && w.settings.retryMax == R
    && Within(w.mem, limit) && Within(w.disk, limit)
    && Spared(w.mem, w.inFlight, limit)
  }

  lemma ReconcileKeepsBounds(s: State, p: Policy, now: Time, cfg: Settings, limit: nat)
    requires Within(s, limit) && Spared(s, {}, limit) && limit > 0
    ensures var t := Reconcile(s, p, now, cfg); Within(t, limit) && Spared(t, {}, limit)
  {
    var t := Reconcile(s, p, now, cfg);
    forall id | id in t.deliveries
      ensures t.deliveries[id].attempts <= limit
      ensures !Pending(t.deliveries[id]) || t.deliveries[id].attempts < limit
    {
      DeliveriesAfter(s, p, now, cfg, id);
    }
  }

  lemma ScanKeepsBounded(w: World, a: Action, R: nat)
    requires Bounded(w, R) && Scheduled(w) && Enabled(w, a) && R > 0 && a.Scan?
    ensures Bounded(Apply(w, a), R)
  {
    if w.settings.enabled && a.policy.Some? {
      ReconcileKeepsBounds(w.mem, a.policy.value, a.now, w.settings, R + Crashes(w.log));
      assert Crashes(Apply(w, a).log) == Crashes(w.log);
    }
  }

  lemma ClaimKeepsBounded(w: World, a: Action, R: nat)
    requires Bounded(w, R) && Scheduled(w) && Enabled(w, a) && a.Claim?
    ensures Bounded(Apply(w, a), R)
  {
    var id := w.batch[0];
    assert id in w.batch;
    if id in w.mem.deliveries && Allowed(w.mem, id, a.latest) {
      var s := Claimed(w.mem, id);
      assert Within(s, R + Crashes(w.log));
      assert Crashes(Noted(w.log, s, a.write)) == Crashes(w.log);
    }
  }

  lemma FinishKeepsBounded(w: World, a: Action, R: nat)
    requires Bounded(w, R) && Scheduled(w) && Enabled(w, a) && a.Finish?
    ensures Bounded(Apply(w, a), R)
  {
    var h := if a.result.Accepted? then Then(w.log, Succeeded(a.id)) else w.log;
    var s := Closed(w.mem, a.id, a.result, a.finished, w.settings);
    assert Crashes(h) == Crashes(w.log) == Crashes(Noted(h, s, a.write));
    assert Within(s, R + Crashes(w.log));
  }

  lemma UpdateKeepsBounded(w: World, a: Action, R: nat)
    requires Bounded(w, R) && Scheduled(w) && Enabled(w, a) && AllowsAttempts(a, R) && R > 0 && a.Update?
    ensures Bounded(Apply(w, a), R)
  {
    var ids := Revivable(w.mem, w.settings, a.settings);
    var s := Revive(w.mem, ids, a.now);
    assert Within(s, R + Crashes(w.log));
    assert Crashes(Noted(Then(w.log, Reset(ids)), s, a.write)) == Crashes(w.log);
  }

  lemma CrashKeepsBounded(w: World, a: Action, R: nat)
    requires Bounded(w, R) && AllowsAttempts(a, R) && a.Crash?
    ensures Bounded(Apply(w, a), R)
  {
  }

  lemma StepKeepsBounded(w: World, a: Action, R: nat)
    requires Bounded(w, R) && Inv(w) && Enabled(w, a) && AllowsAttempts(a, R) && R > 0
    ensures Bounded(Apply(w, a), R)
  {
    hide Sound, Lawful, Unanswered, Scheduled;
    match a
    case Scan(_, _, _, _) => ScanKeepsBounded(w, a, R);
    case Claim(_, _) => ClaimKeepsBounded(w, a, R);
    case Finish(_, _, _, _) => FinishKeepsBounded(w, a, R);
    case Update(_, _, _, _) => UpdateKeepsBounded(w, a, R);
    case Crash(_) => CrashKeepsBounded(w, a, R);
    case _ =>
  }

  lemma {:induction false} RunsStayBounded(ws: seq<World>, acts: seq<Action>, n: nat, R: nat)
    requires IsRun(ws, acts) && n <= |acts| && R > 0
    requires ws[0].settings.retryMax == R && forall a :: a in acts ==> AllowsAttempts(a, R)
    ensures Bounded(ws[n], R)
  {
    if n > 0 {
      RunsStayBounded(ws, acts, n - 1, R);
      RunsKeepInv(ws, acts, n - 1);
      StepKeepsBounded(ws[n - 1], acts[n - 1], R);
    }
  }

  /** Attempts exceed RetryMax by at most the number of crashes; without one, never. */
  lemma AttemptsAreBounded(ws: seq<World>, acts: seq<Action>, n: nat, R: nat, id: DeliveryId)
    requires IsRun(ws, acts) && n <= |acts| && R > 0 && id in ws[n].mem.deliveries
    requires ws[0].settings.retryMax == R && forall a :: a in acts ==> AllowsAttempts(a, R)
    ensures ws[n].mem.deliveries[id].attempts <= R + Crashes(ws[n].log)
  {
    RunsStayBounded(ws, acts, n, R);
  }

  /** Without crashes, a record that used up its attempts unsuccessfully is a dead letter. */
  lemma ExhaustedIsDead(ws: seq<World>, acts: seq<Action>, n: nat, R: nat, id: DeliveryId)
    requires IsRun(ws, acts) && n <= |acts| && R > 0 && id in ws[n].mem.deliveries
    requires ws[0].settings.retryMax == R && forall a :: a in acts ==> AllowsAttempts(a, R)
    requires Crashes(ws[n].log) == 0 && id !in ws[n].inFlight
    requires ws[n].mem.deliveries[id].deliveredAt.None? && ws[n].mem.deliveries[id].attempts >= R
    ensures ws[n].mem.deliveries[id].deadLetter
  {
    RunsStayBounded(ws, acts, n, R);
  }

  // ----- Retry delay --------------------------------------------------------

  lemma {:induction false} DoubledGrows(base: nat, m: nat, n: nat)
    requires m <= n
    ensures base <= Doubled(base, m) <= Doubled(base, n)
  {
    if m < n {
      DoubledGrows(base, m, n - 1);
    } else if m > 0 {
      DoubledGrows(base, m - 1, m - 1);
    }
  }

  /**
    Doubling stops at the first value of an hour or more: every value reached, after at least one doubling,
    is below two hours, and below two to the 63 nanoseconds by far.
   */
  lemma DoublingStaysLow(base: nat, times: nat)
    requires times > 0 && forall t: nat :: t < times ==> Doubled(base, t) < HOUR
    ensures base <= Doubled(base, times) < 2 * HOUR < 0x8000_0000_0000_0000
  {
    DoubledGrows(base, 0, times);
    assert Doubled(base, times - 1) < HOUR;
  }

  /** Each retry waits twice as long as the one before, up to an hour and never past it. */
  lemma DelayDoubles(cfg: Settings, attempts: nat)
    requires attempts > 0
    ensures RetryDelay(cfg, attempts + 1) == Min(2 * RetryDelay(cfg, attempts), HOUR)
    ensures RetryDelay(cfg, attempts) <= RetryDelay(cfg, attempts + 1) <= HOUR
  {
    DoubledGrows(cfg.retryBaseSeconds * SECOND, attempts - 1, attempts);
  }

  // ----- Giving a condition up ----------------------------------------------

  /**
    In any step an active condition stops being active only in a scan in which its key is
    absent with authority, or in a crash that falls back to a file which never had it active.
   */
  lemma ConditionsEndWithAuthority(w: World, a: Action, k: Key)
    requires Enabled(w, a) && ActiveIn(w.mem, k) && !ActiveIn(Apply(w, a).mem, k)
    ensures a.Scan? || (a.Crash? && !ActiveIn(w.disk, k))
    ensures a.Scan? ==> a.policy.Some? && var p := a.policy.value;
              k !in p.signals && (p.sourceReady || w.mem.conditions[k].host in p.recoveryReady)
  {
    if a.Scan? && w.settings.enabled && a.policy.Some? {
      OnlyAuthoritativeAbsenceRecovers(w.mem, a.policy.value, a.now, w.settings, k);
    }
  }

  /** Every scan still sees the key. */
  ghost predicate Watched(acts: seq<Action>, k: Key) {
    forall a :: a in acts && a.Scan? && a.policy.Some? ==> k in a.policy.value.signals
  }

  lemma ScanKeepsWatched(s: State, p: Policy, now: Time, cfg: Settings, k: Key)
    requires ActiveIn(s, k) && k in p.signals
    ensures ActiveIn(Reconcile(s, p, now, cfg), k)
    ensures Reconcile(s, p, now, cfg).conditions[k].firstSeen == s.conditions[k].firstSeen
  {
    ConditionAfter(s, p, now, cfg, k);
  }

  /** k is active under this activation. */
  predicate ActiveSince(s: State, k: Key, start: Time) {
    ActiveIn(s, k) && s.conditions[k].firstSeen == start
  }

  lemma SameConditions(s: State, t: State, k: Key, start: Time)
    requires ActiveSince(s, k, start) && t.conditions == s.conditions
    ensures ActiveSince(t, k, start)
  {
  }

  /** One step that sees the key. Without a crash only memory matters. */
  lemma StepKeepsActive(w: World, a: Action, k: Key, start: Time)
    requires Enabled(w, a) && Watched([a], k) && ActiveSince(w.mem, k, start)
    ensures !a.Crash? ==> ActiveSince(Apply(w, a).mem, k, start)
    ensures ActiveIn(w.disk, k) ==> ActiveIn(Apply(w, a).mem, k) && ActiveIn(Apply(w, a).disk, k)
  {
    hide Reconcile, QueuedBy, Allowed, Closed, Claimed, Revive, Revivable;
    match a
    case Scan(policy, now, _, _) =>
      if w.settings.enabled && policy.Some? {
        assert a in [a];
        ScanKeepsWatched(w.mem, policy.value, now, w.settings, k);
      }
    case Claim(_, _) =>
      if w.batch[0] in w.mem.deliveries {
        ClaimedKeepsConditions(w.mem, w.batch[0]);
        SameConditions(w.mem, Claimed(w.mem, w.batch[0]), k, start);
      }
    case Finish(id, result, finished, _) =>
      if id in w.mem.deliveries {
        ClosedKeepsConditions(w.mem, id, result, finished, w.settings);
        SameConditions(w.mem, Closed(w.mem, id, result, finished, w.settings), k, start);
      }
    case Update(cfg, _, now, _) =>
      RevivedKeepsConditions(w.mem, Revivable(w.mem, w.settings, cfg), now);
    case _ =>
  }

  lemma ClaimedKeepsConditions(s: State, id: DeliveryId)
    requires id in s.deliveries
    ensures Claimed(s, id).conditions == s.conditions
  {
  }

  lemma ClosedKeepsConditions(s: State, id: DeliveryId, result: SendResult, t: Time, cfg: Settings)
    requires id in s.deliveries
    ensures Closed(s, id, result, t, cfg).conditions == s.conditions
  {
  }

  lemma RevivedKeepsConditions(s: State, ids: set<DeliveryId>, now: Time)
    ensures Revive(s, ids, now).conditions == s.conditions
  {
  }

  /** Within one life of the process nothing needs to be on disk: the same activation stays active. */
  lemma {:induction false} LifeKeepsActive(ws: seq<World>, acts: seq<Action>, m: nat, n: nat, k: Key)
    requires IsRun(ws, acts) && m <= n <= |acts| && Watched(acts[m..n], k) && OneLife(acts[m..n])
    requires ActiveIn(ws[m].mem, k)
    ensures ActiveIn(ws[n].mem, k) && ws[n].mem.conditions[k].firstSeen == ws[m].mem.conditions[k].firstSeen
    decreases n - m
  {
    hide Apply, Enabled;
    if m < n {
      assert acts[m..n] == acts[m..n - 1] + [acts[n - 1]];
      LifeKeepsActive(ws, acts, m, n - 1, k);
      StepKeepsActive(ws[n - 1], acts[n - 1], k, ws[m].mem.conditions[k].firstSeen);
    }
  }

  /** Across crashes, what was active in memory and on disk stays so. */
  lemma {:induction false} WatchedStaysActive(ws: seq<World>, acts: seq<Action>, m: nat, n: nat, k: Key)
    requires IsRun(ws, acts) && m <= n <= |acts| && Watched(acts[m..n], k)
    requires ActiveIn(ws[m].mem, k) && ActiveIn(ws[m].disk, k)
    ensures ActiveIn(ws[n].mem, k) && ActiveIn(ws[n].disk, k)
    decreases n - m
  {
    hide Apply, Enabled;
    if m < n {
      assert acts[m..n] == acts[m..n - 1] + [acts[n - 1]];
      WatchedStaysActive(ws, acts, m, n - 1, k);
      StepKeepsActive(ws[n - 1], acts[n - 1], k, ws[n - 1].mem.conditions[k].firstSeen);
    }
  }
}
