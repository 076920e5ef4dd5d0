/** What holds in every reachable world, crashes and failed writes included. */
module AlertingSafety {
  import opened Base
  import opened Alerting
  import opened AlertingReconcile
  import opened AlertingWorld

  // ----- The invariant ------------------------------------------------------

  /** Every record in s has counted at least the requests sent for it. */
  ghost predicate Counted(s: State, h: History) {
    forall id :: id in s.deliveries ==> s.deliveries[id].attempts >= SentSince(h, id)
  }

  /** Settled deliveries are delivered wherever they are still recorded. */
  ghost predicate Honoured(s: State, h: History) {
    forall id :: id in s.deliveries && Settled(h, id) ==> Delivered(s, id)
  }

  /** Recorded successes did happen. */
  ghost predicate Truthful(s: State, h: History) {
    forall id :: Delivered(s, id) ==> SucceededIn(h, id)
  }

  /** Requests under way and records still to be sent: distinct, held in memory, undelivered. */
  ghost predicate Scheduled(w: World) {
    && Distinct(w.batch)
    && (forall id :: id in w.batch ==> id in w.mem.deliveries && Pending(w.mem.deliveries[id]) && id !in w.inFlight)
    && (forall id :: id in w.inFlight ==>
          id in w.mem.deliveries && Pending(w.mem.deliveries[id]) && w.mem.deliveries[id].attempts > 0)
    && (forall id :: id in w.inFlight ==> id in w.disk.deliveries && w.disk.deliveries[id].attempts > 0)
    && |w.inFlight| <= MAX_IN_FLIGHT
    && (!w.scanning ==> w.batch == [] && w.inFlight == {})
  }

  ghost predicate Sound(s: State, h: History) {
    Counted(s, h) && Honoured(s, h) && Truthful(s, h)
  }

  ghost predicate Accounted(w: World) {
    Sound(w.mem, w.log) && Sound(w.disk, w.log) && Scheduled(w) && Lawful(w.log)
  }

  ghost predicate Inv(w: World) {
    Accounted(w) && Unanswered(w.mem) && Unanswered(w.disk)
  }

  // ----- Preservation -------------------------------------------------------

  /** Writing s to disk keeps s sound, and the old file too if it was. */
  lemma NotingKeepsSound(s: State, other: State, h: History, write: Write)
    requires Sound(s, h) && Sound(other, h)
    requires forall id :: id in other.deliveries && Delivered(s, id) ==> Delivered(other, id)
    ensures Sound(s, Noted(h, s, write)) && Sound(other, Noted(h, s, write))
  {
  }

  lemma QueueingKeepsDisk(s: State, h: History, ids: set<DeliveryId>)
    requires Sound(s, h)
    ensures Sound(s, Then(h, Queued(ids)))
  {
  }

  lemma ReconcileKeepsSound(s: State, h: History, p: Policy, now: Time, cfg: Settings)
    requires Sound(s, h)
    ensures Sound(Reconcile(s, p, now, cfg), Then(h, Queued(QueuedBy(s, p, now, cfg))))
  {
    hide Reconcile, QueuedBy;
    var t := Reconcile(s, p, now, cfg);
    var g := Then(h, Queued(QueuedBy(s, p, now, cfg)));
    forall id | id in t.deliveries
      ensures t.deliveries[id].attempts >= SentSince(g, id)
      ensures Settled(g, id) ==> Delivered(t, id)
      ensures Delivered(t, id) ==> SucceededIn(g, id)
    {
      DeliveriesAfter(s, p, now, cfg, id);
      if id in s.deliveries && id in QueuedBy(s, p, now, cfg) {
        QueuedAreNew(s, p, now, cfg, id);
      }
    }
  }

  lemma QueueingIsLawful(s: State, h: History, p: Policy, now: Time, cfg: Settings)
    requires Lawful(h) && Truthful(s, h)
    ensures Lawful(Then(h, Queued(QueuedBy(s, p, now, cfg))))
  {
    forall id | id in QueuedBy(s, p, now, cfg) && id.kind != Critical
      ensures SucceededIn(h, id.(kind := Critical))
    {
      QueuedBehindDelivered(s, p, now, cfg, id);
    }
  }

  lemma ScanKeepsAccounts(w: World, a: Action)
    requires Accounted(w) && a.Scan? && Enabled(w, a)
    ensures Accounted(Apply(w, a))
  {
    if w.settings.enabled && a.policy.Some? {
      var p, now := a.policy.value, a.now;
      var s := Reconcile(w.mem, p, now, w.settings);
      var h := Then(w.log, Queued(QueuedBy(w.mem, p, now, w.settings)));
      ReconcileKeepsSound(w.mem, w.log, p, now, w.settings);
      QueueingKeepsDisk(w.disk, w.log, h.entry.ids);
      QueueingIsLawful(w.mem, w.log, p, now, w.settings);
      if !a.write.Lost? {
        NotingKeepsSound(s, s, h, a.write);
      }
    }
  }

  lemma ClaimKeepsAccounts(w: World, a: Action)
    requires Accounted(w) && a.Claim? && Enabled(w, a)
    ensures Accounted(Apply(w, a))
  {
    var id := w.batch[0];
    if id in w.mem.deliveries && Allowed(w.mem, id, a.latest) {
      var s := Claimed(w.mem, id);
      assert Sound(s, w.log);
      if !a.write.Lost? {
        NotingKeepsSound(s, w.mem, w.log, a.write);
      }
      if a.write.Saved? {
        assert !Settled(w.log, id) && !Delivered(s, id);
        var h := Noted(w.log, s, a.write);
        assert SentSince(h, id) == SentSince(w.log, id);
        assert w.mem.deliveries[id].attempts >= SentSince(w.log, id);
        assert Lawful(Then(h, Sent(id, s.deliveries[id].attempts)));
        SendingKeepsSound(s, h, id);
        ClaimKeepsScheduled(w, a);
      }
    }
  }

  lemma SendingKeepsSound(s: State, h: History, id: DeliveryId)
    requires Sound(s, h) && id in s.deliveries && s.deliveries[id].attempts > SentSince(h, id)
    ensures Sound(s, Then(h, Sent(id, s.deliveries[id].attempts)))
  {
  }

  lemma ClaimKeepsScheduled(w: World, a: Action)
    requires Scheduled(w) && a.Claim? && Enabled(w, a) && a.write.Saved?
    requires w.batch[0] in w.mem.deliveries && Allowed(w.mem, w.batch[0], a.latest)
    ensures Scheduled(Apply(w, a))
  {
    var v := Apply(w, a);
    forall id | id in v.batch
      ensures id in v.mem.deliveries && Pending(v.mem.deliveries[id]) && id !in v.inFlight
    {
      var i :| 0 <= i < |v.batch| && v.batch[i] == id;
      assert id == w.batch[i + 1] && id != w.batch[0];
    }
  }

  lemma SucceedingKeepsSound(s: State, h: History, id: DeliveryId)
    requires Sound(s, h)
    ensures Sound(s, Then(h, Succeeded(id)))
  {
  }

  lemma ClosingKeepsSound(s: State, h: History, id: DeliveryId, result: SendResult, t: Time, cfg: Settings)
    requires Sound(s, h) && id in s.deliveries && (result.Accepted? ==> SucceededIn(h, id))
    ensures Sound(Closed(s, id, result, t, cfg), h)
  {
  }

  lemma FinishKeepsAccounts(w: World, a: Action)
    requires Accounted(w) && a.Finish? && Enabled(w, a)
    ensures Accounted(Apply(w, a))
  {
    var id := a.id;
    var s := Closed(w.mem, id, a.result, a.finished, w.settings);
    var h := if a.result.Accepted? then Then(w.log, Succeeded(id)) else w.log;
    SucceedingKeepsSound(w.mem, w.log, id);
    SucceedingKeepsSound(w.disk, w.log, id);
    ClosingKeepsSound(w.mem, h, id, a.result, a.finished, w.settings);
    if !a.write.Lost? {
      NotingKeepsSound(s, s, h, a.write);
    }
    FinishKeepsScheduled(w, a);
  }

  lemma FinishKeepsScheduled(w: World, a: Action)
    requires Scheduled(w) && a.Finish? && Enabled(w, a)
    ensures Scheduled(Apply(w, a))
  {
    var v := Apply(w, a);
    assert w.inFlight == v.inFlight + {a.id};
    assert forall i :: i in w.mem.deliveries && i != a.id ==> v.mem.deliveries[i] == w.mem.deliveries[i];
  }

  lemma UpdateKeepsAccounts(w: World, a: Action)
    requires Accounted(w) && a.Update? && Enabled(w, a)
    ensures Accounted(Apply(w, a))
  {
    if a.valid && !a.write.Lost? {
      var ids := Revivable(w.mem, w.settings, a.settings);
      var s := Revive(w.mem, ids, a.now);
      var h := Then(w.log, Reset(ids));
      assert Sound(w.mem, h) && Sound(w.disk, h) && Lawful(h);
      assert Sound(s, h);
      NotingKeepsSound(s, w.mem, h, a.write);
    }
  }

  lemma StepKeepsInv(w: World, a: Action)
    requires Inv(w) && Enabled(w, a)
    ensures Inv(Apply(w, a))
  {
    StepKeepsAccounts(w, a);
    StepKeepsUnanswered(w, a);
  }

  lemma NoNewRecords(s: State, t: State)
    requires Unanswered(s) && t.conditions == s.conditions && t.deliveries.Keys == s.deliveries.Keys
    ensures Unanswered(t)
  {
  }

  lemma StepKeepsUnanswered(w: World, a: Action)
    requires Inv(w) && Enabled(w, a)
    ensures Unanswered(Apply(w, a).mem) && Unanswered(Apply(w, a).disk)
  {
    hide Reconcile, QueuedBy, Allowed, Unanswered, Accounted;
    match a
    case Scan(_, _, _, _) =>
      if w.settings.enabled && a.policy.Some? {
        ReconcileKeepsUnanswered(w.mem, a.policy.value, a.now, w.settings);
      }
    case Claim(_, _) =>
      if w.batch[0] in w.mem.deliveries { NoNewRecords(w.mem, Claimed(w.mem, w.batch[0])); }
    case Finish(id, result, finished, _) =>
      if id in w.mem.deliveries { NoNewRecords(w.mem, Closed(w.mem, id, result, finished, w.settings)); }
    case Update(cfg, _, now, _) =>
      NoNewRecords(w.mem, Revive(w.mem, Revivable(w.mem, w.settings, cfg), now));
    case _ =>
  }

  lemma StepKeepsAccounts(w: World, a: Action)
    requires Accounted(w) && Enabled(w, a)
    ensures Accounted(Apply(w, a))
  {
    match a
    case Scan(_, _, _, _) => ScanKeepsAccounts(w, a);
    case Claim(_, _) => ClaimKeepsAccounts(w, a);
    case Finish(_, _, _, _) => FinishKeepsAccounts(w, a);
    case Update(_, _, _, _) => UpdateKeepsAccounts(w, a);
    case Skip =>
      forall id | id in w.batch[1..] ensures id in w.batch {}
    case _ =>
  }

  // ----- Whole runs ---------------------------------------------------------

  /** Every world of every run satisfies the invariant. */
  lemma {:induction false} RunsKeepInv(ws: seq<World>, acts: seq<Action>, n: nat)
    requires IsRun(ws, acts) && n <= |acts|
    ensures Inv(ws[n])
  {
    if n > 0 {
      RunsKeepInv(ws, acts, n - 1);
      StepKeepsInv(ws[n - 1], acts[n - 1]);
    }
  }

  /** At most eight requests are under way, never two for one delivery, and each is claimed on disk. */
  lemma ClaimsAreDurable(ws: seq<World>, acts: seq<Action>, n: nat, id: DeliveryId)
    requires IsRun(ws, acts) && n <= |acts| && id in ws[n].inFlight
    ensures |ws[n].inFlight| <= MAX_IN_FLIGHT && id !in ws[n].batch
    ensures id in ws[n].disk.deliveries && ws[n].disk.deliveries[id].attempts > 0
    ensures id in ws[n].mem.deliveries && Pending(ws[n].mem.deliveries[id])
  {
    RunsKeepInv(ws, acts, n);
  }

  /** At every moment the counter on disk covers the requests sent since the delivery was queued or reset. */
  lemma AttemptsCoverRequests(ws: seq<World>, acts: seq<Action>, n: nat, id: DeliveryId)
    requires IsRun(ws, acts) && n <= |acts| && id in ws[n].disk.deliveries
    ensures ws[n].disk.deliveries[id].attempts >= SentSince(ws[n].log, id)
  {
    RunsKeepInv(ws, acts, n);
  }

  /**
    In any run, a scan that ends a condition whose alarm went out queues its recovery, which is
    still pending afterwards.
   */
  lemma EveryAlarmIsAnswered(ws: seq<World>, acts: seq<Action>, n: nat, p: Policy, now: Time, k: Key)
    requires IsRun(ws, acts) && n <= |acts|
    requires Absent(ws[n].mem, p, k) && Delivered(ws[n].mem, CriticalOf(ws[n].mem, k))
    ensures var s := ws[n].mem; var id := IdOf(k, Recovery, s.conditions[k]); var t := Reconcile(s, p, now, ws[n].settings);
      && !ActiveIn(t, k)
      && id in QueuedBy(s, p, now, ws[n].settings)
      && id in t.deliveries && Pending(t.deliveries[id])
  {
    RunsKeepInv(ws, acts, n);
    RecoveryFollows(ws[n].mem, p, now, ws[n].settings, k);
    OnlyAuthoritativeAbsenceRecovers(ws[n].mem, p, now, ws[n].settings, k);
  }

  /** `h` is an earlier state of the history `g`. */
  predicate Earlier(h: History, g: History) {
    h == g || (g.Then? && Earlier(h, g.past))
  }

  lemma {:induction false} LawfulPast(h: History, g: History)
    requires Lawful(g) && Earlier(h, g)
    ensures Lawful(h)
  {
    if h != g {
      LawfulPast(h, g.past);
    }
  }

  /**
    The law at any moment of any run: a request is sent only while its success is not on disk,
    it was counted on disk first, and a recovery or escalation is queued only after the critical
    message of the same activation had succeeded.
   */
  lemma HistoryIsLawful(ws: seq<World>, acts: seq<Action>, n: nat, h: History)
    requires IsRun(ws, acts) && n <= |acts| && Earlier(h, ws[n].log) && h.Then?
    ensures h.entry.Sent? ==> !Settled(h.past, h.entry.id) && h.entry.counter > SentSince(h.past, h.entry.id)
    ensures h.entry.Queued? ==>
              forall id :: id in h.entry.ids && id.kind != Critical ==> SucceededIn(h.past, id.(kind := Critical))
  {
    RunsKeepInv(ws, acts, n);
    LawfulPast(h, ws[n].log);
  }

  /** id is queued by some entry of g newer than h. */
  predicate QueuedBetween(h: History, g: History, id: DeliveryId) {
    h != g && g.Then? && ((g.entry.Queued? && id in g.entry.ids) || QueuedBetween(h, g.past, id))
  }

  lemma {:induction false} SettledStays(h: History, g: History, id: DeliveryId)
    requires Earlier(h, g) && Settled(h, id) && !QueuedBetween(h, g, id)
    ensures Settled(g, id)
  {
    if h != g {
      SettledStays(h, g.past, id);
    }
  }

  /** Once a success is on disk, no request goes out for that id until it is queued anew. */
  lemma SuccessIsFinal(ws: seq<World>, acts: seq<Action>, n: nat, h: History, g: History, id: DeliveryId)
    requires IsRun(ws, acts) && n <= |acts| && Earlier(g, ws[n].log) && g.Then? && Earlier(h, g.past)
    requires h.Then? && h.entry.Recorded? && id in h.entry.ids
    requires g.entry.Sent? && g.entry.id == id
    ensures QueuedBetween(h, g.past, id)
  {
    HistoryIsLawful(ws, acts, n, g);
    if !QueuedBetween(h, g.past, id) {
      SettledStays(h, g.past, id);
    }
  }

  /** An id is queued anew only when memory no longer holds a record of it. */
  lemma RetainedIsNotRequeued(w: World, a: Action, id: DeliveryId)
    requires Enabled(w, a) && id in w.mem.deliveries
    ensures !QueuedBetween(w.log, Apply(w, a).log, id)
  {
    if a.Scan? && w.settings.enabled && a.policy.Some? {
      var q := QueuedBy(w.mem, a.policy.value, a.now, w.settings);
      if id in q {
        QueuedAreNew(w.mem, a.policy.value, a.now, w.settings, id);
      }
      assert !QueuedBetween(w.log, Then(w.log, Queued(q)), id);
    } else if a.Claim? || a.Finish? || a.Update? {
      assert forall e: Entry :: !e.Queued? ==> !QueuedBetween(w.log, Then(w.log, e), id);
    }
  }

  // ----- Successes nobody has written down yet -------------------------------------

  lemma {:induction false} EarlierIsOther(h: History, g: History)
    requires g.Then? && Earlier(h, g.past)
    ensures h != g && Earlier(h, g)
  {
    if h == g {
      EarlierIsShorter(h, g.past);
    }
  }

  function Length(h: History): nat {
    if h.Start? then 0 else 1 + Length(h.past)
  }

  lemma {:induction false} EarlierIsShorter(h: History, g: History)
    requires Earlier(h, g)
    ensures Length(h) <= Length(g)
  {
    if h != g { EarlierIsShorter(h, g.past); }
  }

  /** id has been queued since h, or memory knows that it went out, or has forgotten it. */
  ghost predicate Remembered(h: History, w: World, id: DeliveryId) {
    && Earlier(h, w.log)
    && (QueuedBetween(h, w.log, id) || id !in w.mem.deliveries || Delivered(w.mem, id))
  }

  lemma MoreHistory(h: History, g: History, e: Entry, id: DeliveryId)
    requires Earlier(h, g)
    ensures Earlier(h, Then(g, e))
    ensures QueuedBetween(h, g, id) ==> QueuedBetween(h, Then(g, e), id)
    ensures e.Queued? && id in e.ids ==> QueuedBetween(h, Then(g, e), id)
  {
    EarlierIsOther(h, Then(g, e));
  }

  lemma NotedHistory(h: History, g: History, s: State, write: Write, id: DeliveryId)
    requires Earlier(h, g)
    ensures Earlier(h, Noted(g, s, write)) && (QueuedBetween(h, g, id) ==> QueuedBetween(h, Noted(g, s, write), id))
  {
    MoreHistory(h, g, Recorded(Successes(s)), id);
  }

  lemma ScanRemembers(h: History, w: World, a: Action, id: DeliveryId)
    requires Remembered(h, w, id) && Enabled(w, a) && a.Scan?
    ensures Remembered(h, Apply(w, a), id)
  {
    hide Reconcile, QueuedBy;
    if w.settings.enabled && a.policy.Some? {
      var p := a.policy.value;
      var s, q := Reconcile(w.mem, p, a.now, w.settings), QueuedBy(w.mem, p, a.now, w.settings);
      MoreHistory(h, w.log, Queued(q), id);
      NotedHistory(h, Then(w.log, Queued(q)), s, a.write, id);
      if id in s.deliveries { DeliveriesAfter(w.mem, p, a.now, w.settings, id); }
    }
  }

  lemma ClaimRemembers(h: History, w: World, a: Action, id: DeliveryId)
    requires Remembered(h, w, id) && Enabled(w, a) && a.Claim?
    ensures Remembered(h, Apply(w, a), id)
  {
    var next := w.batch[0];
    if next in w.mem.deliveries {
      var s := Claimed(w.mem, next);
      NotedHistory(h, w.log, s, a.write, id);
      MoreHistory(h, Noted(w.log, s, a.write), Sent(next, s.deliveries[next].attempts), id);
    }
  }

  lemma FinishRemembers(h: History, w: World, a: Action, id: DeliveryId)
    requires Remembered(h, w, id) && Enabled(w, a) && a.Finish?
    ensures Remembered(h, Apply(w, a), id)
  {
    MoreHistory(h, w.log, Succeeded(a.id), id);
    if a.id in w.mem.deliveries {
      var s := Closed(w.mem, a.id, a.result, a.finished, w.settings);
      NotedHistory(h, if a.result.Accepted? then Then(w.log, Succeeded(a.id)) else w.log, s, a.write, id);
    }
  }

  lemma UpdateRemembers(h: History, w: World, a: Action, id: DeliveryId)
    requires Remembered(h, w, id) && Enabled(w, a) && a.Update?
    ensures Remembered(h, Apply(w, a), id)
  {
    var ids := Revivable(w.mem, w.settings, a.settings);
    MoreHistory(h, w.log, Reset(ids), id);
    NotedHistory(h, Then(w.log, Reset(ids)), Revive(w.mem, ids, a.now), a.write, id);
  }

  lemma StepRemembers(h: History, w: World, a: Action, id: DeliveryId)
    requires Remembered(h, w, id) && Enabled(w, a) && !a.Crash?
    ensures Remembered(h, Apply(w, a), id)
  {
    match a
    case Scan(_, _, _, _) => ScanRemembers(h, w, a, id);
    case Claim(_, _) => ClaimRemembers(h, w, a, id);
    case Finish(_, _, _, _) => FinishRemembers(h, w, a, id);
    case Update(_, _, _, _) => UpdateRemembers(h, w, a, id);
    case _ =>
  }

  /** An accepted request is remembered at once, whatever becomes of the write. */
  lemma AcceptedIsRemembered(w: World, a: Action)
    requires Scheduled(w) && Enabled(w, a) && a.Finish? && a.result.Accepted?
    ensures Remembered(Apply(w, a).log, Apply(w, a), a.id)
  {
  }

  lemma {:induction false} LifeRemembers(ws: seq<World>, acts: seq<Action>, m: nat, n: nat, h: History, id: DeliveryId)
    requires IsRun(ws, acts) && m <= n <= |acts| && OneLife(acts[m..n]) && Remembered(h, ws[m], id)
    ensures Remembered(h, ws[n], id)
    decreases n - m
  {
    hide Apply, Enabled, Remembered;
    if m < n {
      assert acts[m..n] == acts[m..n - 1] + [acts[n - 1]];
      LifeRemembers(ws, acts, m, n - 1, h, id);
      StepRemembers(h, ws[n - 1], acts[n - 1], id);
    }
  }

  /** The action starts a request for id. */
  predicate Sends(w: World, a: Action, id: DeliveryId) {
    a.Claim? && w.batch != [] && w.batch[0] == id && id in w.mem.deliveries && Allowed(w.mem, id, a.latest) && a.write.Saved?
  }

  /**
    Within one life of the process, once a request for id was accepted, saved or not, no other one is
    started until id has been queued anew.
   */
  lemma SuccessIsFinalInLife(ws: seq<World>, acts: seq<Action>, m: nat, n: nat, id: DeliveryId)
    requires IsRun(ws, acts) && m < n < |acts| && OneLife(acts[m + 1..n])
    requires acts[m].Finish? && acts[m].id == id && acts[m].result.Accepted?
    requires Sends(ws[n], acts[n], id)
    ensures QueuedBetween(ws[m + 1].log, ws[n].log, id)
  {
    hide Apply, Enabled;
    RunsKeepInv(ws, acts, m);
    RunsKeepInv(ws, acts, n);
    AcceptedIsRemembered(ws[m], acts[m]);
    LifeRemembers(ws, acts, m + 1, n, ws[m + 1].log, id);
    assert id in ws[n].batch;
  }
}
