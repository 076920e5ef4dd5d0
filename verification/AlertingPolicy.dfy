/**
  What the engine does with a delivery, over runs and in plain terms: when a refused one is tried again, what
  is always tried, what is never sent, and what a change of settings brings back.
 */
module AlertingPolicy {
  import opened Base
  import opened Alerting
  import opened AlertingReconcile
  import opened AlertingWorld
  import opened AlertingSafety

  // ----- After a refusal ---------------------------------------------------------

  function Pow2(n: nat): nat {
    if n == 0 then 1 else 2 * Pow2(n - 1)
  }

  /** The configured base, doubled once for each attempt but the first, and an hour at most. */
  function Wait(cfg: Settings, attempts: nat): int {
    var seconds := cfg.retryBaseSeconds * Pow2(if attempts == 0 then 0 else attempts - 1);
    if seconds >= 3600 then 3600 * 1_000_000_000 else seconds * 1_000_000_000
  }

  lemma {:induction false} DoubledIs(base: nat, n: nat)
    ensures Doubled(base * SECOND, n) == base * Pow2(n) * SECOND
  {
    if n > 0 { DoubledIs(base, n - 1); }
  }

  lemma WaitIs(cfg: Settings, attempts: nat)
    ensures RetryDelay(cfg, attempts) == Wait(cfg, attempts)
  {
    DoubledIs(cfg.retryBaseSeconds, if attempts == 0 then 0 else attempts - 1);
  }

  /** id is put back at zero attempts by some entry of g newer than h. */
  predicate ResetBetween(h: History, g: History, id: DeliveryId) {
    h != g && g.Then? && ((g.entry.Reset? && id in g.entry.ids) || ResetBetween(h, g.past, id))
  }

  lemma MoreEntries(h: History, g: History, e: Entry, id: DeliveryId)
    requires Earlier(h, g)
    ensures Earlier(h, Then(g, e))
    ensures QueuedBetween(h, g, id) || (e.Queued? && id in e.ids) ==> QueuedBetween(h, Then(g, e), id)
    ensures ResetBetween(h, g, id) || (e.Reset? && id in e.ids) ==> ResetBetween(h, Then(g, e), id)
  {
    EarlierIsOther(h, Then(g, e));
  }

  lemma MoreNoted(h: History, g: History, s: State, write: Write, id: DeliveryId)
    requires Earlier(h, g)
    ensures Earlier(h, Noted(g, s, write))
    ensures QueuedBetween(h, g, id) ==> QueuedBetween(h, Noted(g, s, write), id)
    ensures ResetBetween(h, g, id) ==> ResetBetween(h, Noted(g, s, write), id)
  {
    MoreEntries(h, g, Recorded(Successes(s)), id);
  }

  /** Unless id was queued or reset since h, its record, if any, has this verdict and this next time. */
  ghost predicate Marked(h: History, w: World, id: DeliveryId, dead: bool, next: Time) {
    && Earlier(h, w.log)
    && (QueuedBetween(h, w.log, id) || ResetBetween(h, w.log, id) || id !in w.mem.deliveries
        || (w.mem.deliveries[id].deadLetter == dead && (dead || w.mem.deliveries[id].nextAttempt == next)))
  }

  /** Another result for id. */
  predicate Concludes(a: Action, id: DeliveryId) {
    a.Finish? && a.id == id
  }

  lemma ScanKeepsMark(h: History, w: World, a: Action, id: DeliveryId, dead: bool, next: Time)
    requires Marked(h, w, id, dead, next) && Enabled(w, a) && a.Scan?
    ensures Marked(h, Apply(w, a), id, dead, next)
  {
    hide QueuedBetween, ResetBetween, Earlier, Allowed;
    hide Reconcile, QueuedBy;
    if w.settings.enabled && a.policy.Some? {
      var p := a.policy.value;
      var s, q := Reconcile(w.mem, p, a.now, w.settings), QueuedBy(w.mem, p, a.now, w.settings);
      MoreEntries(h, w.log, Queued(q), id);
      MoreNoted(h, Then(w.log, Queued(q)), s, a.write, id);
      if id in s.deliveries { DeliveriesAfter(w.mem, p, a.now, w.settings, id); }
    }
  }

  lemma ClaimedIsAlike(s: State, first: DeliveryId, id: DeliveryId)
    requires first in s.deliveries && id in s.deliveries
    ensures var t := Claimed(s, first);
      id in t.deliveries && t.deliveries[id].deadLetter == s.deliveries[id].deadLetter
      && t.deliveries[id].nextAttempt == s.deliveries[id].nextAttempt
    ensures Claimed(s, first).deliveries.Keys == s.deliveries.Keys
  {
  }

  lemma ClaimKeepsMark(h: History, w: World, a: Action, id: DeliveryId, dead: bool, next: Time)
    requires Marked(h, w, id, dead, next) && Enabled(w, a) && a.Claim?
    ensures Marked(h, Apply(w, a), id, dead, next)
  {
    hide QueuedBetween, ResetBetween, Earlier, Allowed, Claimed, Noted;
    var first := w.batch[0];
    if first in w.mem.deliveries {
      var s := Claimed(w.mem, first);
      MoreNoted(h, w.log, s, a.write, id);
      if first in s.deliveries {
        MoreEntries(h, Noted(w.log, s, a.write), Sent(first, s.deliveries[first].attempts), id);
      }
      ClaimedIsAlike(w.mem, first, first);
      if id in w.mem.deliveries { ClaimedIsAlike(w.mem, first, id); }
    }
  }

  lemma FinishKeepsMark(h: History, w: World, a: Action, id: DeliveryId, dead: bool, next: Time)
    requires Marked(h, w, id, dead, next) && Enabled(w, a) && a.Finish? && a.id != id
    ensures Marked(h, Apply(w, a), id, dead, next)
  {
    hide QueuedBetween, ResetBetween, Earlier, Allowed;
    MoreEntries(h, w.log, Succeeded(a.id), id);
    if a.id in w.mem.deliveries {
      var s := Closed(w.mem, a.id, a.result, a.finished, w.settings);
      MoreNoted(h, if a.result.Accepted? then Then(w.log, Succeeded(a.id)) else w.log, s, a.write, id);
    }
  }

  lemma UpdateKeepsMark(h: History, w: World, a: Action, id: DeliveryId, dead: bool, next: Time)
    requires Marked(h, w, id, dead, next) && Enabled(w, a) && a.Update?
    ensures Marked(h, Apply(w, a), id, dead, next)
  {
    hide QueuedBetween, ResetBetween, Earlier, Allowed;
    var ids := Revivable(w.mem, w.settings, a.settings);
    MoreEntries(h, w.log, Reset(ids), id);
    MoreNoted(h, Then(w.log, Reset(ids)), Revive(w.mem, ids, a.now), a.write, id);
  }

  lemma StepKeepsMark(h: History, w: World, a: Action, id: DeliveryId, dead: bool, next: Time)
    requires Marked(h, w, id, dead, next) && Enabled(w, a) && !a.Crash? && !Concludes(a, id)
    ensures Marked(h, Apply(w, a), id, dead, next)
  {
    match a
    case Scan(_, _, _, _) => ScanKeepsMark(h, w, a, id, dead, next);
    case Claim(_, _) => ClaimKeepsMark(h, w, a, id, dead, next);
    case Finish(_, _, _, _) => FinishKeepsMark(h, w, a, id, dead, next);
    case Update(_, _, _, _) => UpdateKeepsMark(h, w, a, id, dead, next);
    case _ =>
  }

  lemma {:induction false} LifeKeepsMark(ws: seq<World>, acts: seq<Action>, m: nat, n: nat, h: History, id: DeliveryId,
                                         dead: bool, next: Time)
    requires IsRun(ws, acts) && m <= n <= |acts| && OneLife(acts[m..n]) && Marked(h, ws[m], id, dead, next)
    requires forall i :: m <= i < n ==> !Concludes(acts[i], id)
    ensures Marked(h, ws[n], id, dead, next)
    decreases n - m
  {
    hide Apply, Enabled, Marked;
    if m < n {
      assert acts[m..n] == acts[m..n - 1] + [acts[n - 1]];
      LifeKeepsMark(ws, acts, m, n - 1, h, id, dead, next);
      StepKeepsMark(h, ws[n - 1], acts[n - 1], id, dead, next);
    }
  }

  /** What one refusal leaves in memory, saved or not. */
  lemma RefusalMarks(w: World, id: DeliveryId, permanent: bool, finished: Time, write: Write)
    requires Scheduled(w) && id in w.inFlight
    ensures var n := w.mem.deliveries[id].attempts; var v := Apply(w, Action.Finish(id, Refused(permanent), finished, write));
      && id in v.mem.deliveries && v.mem.deliveries[id].attempts == n && v.mem.deliveries[id].deliveredAt.None?
      && v.mem.deliveries[id].deadLetter == (permanent || n >= w.settings.retryMax)
      && (v.mem.deliveries[id].deadLetter || v.mem.deliveries[id].nextAttempt == finished + Wait(w.settings, n))
  {
    WaitIs(w.settings, w.mem.deliveries[id].attempts);
  }

  /** A scan that saves its state and starts sending. */
  predicate Starts(w: World, a: Action) {
    a.Scan? && w.settings.enabled && a.policy.Some? && a.write.Saved?
  }

  /**
    After a refusal, unless the record is reset or queued anew, no later scan of the same life sends it again
    but for a passing refusal, with attempts left, and once the full delay has gone by.
   */
  lemma RetriesWait(ws: seq<World>, acts: seq<Action>, m: nat, n: nat, id: DeliveryId)
    requires IsRun(ws, acts) && m < n < |acts| && OneLife(acts[m..n])
    requires acts[m].Finish? && acts[m].id == id && acts[m].result.Refused?
    requires forall i :: m < i < n ==> !Concludes(acts[i], id)
    requires Starts(ws[n], acts[n]) && id in acts[n].due
    requires !QueuedBetween(ws[m + 1].log, ws[n + 1].log, id) && !ResetBetween(ws[m + 1].log, ws[n + 1].log, id)
    ensures id in ws[m].mem.deliveries
    ensures var attempts := ws[m].mem.deliveries[id].attempts;
      && !acts[m].result.permanent && attempts < ws[m].settings.retryMax
      && acts[n].now >= acts[m].finished + Wait(ws[m].settings, attempts)
  {
    hide Apply, Enabled, Marked, Inv, Scheduled, Wait, QueuedBetween, ResetBetween, IsRun, Starts;
    RunStep(ws, acts, m);
    RunStep(ws, acts, n);
    RunsKeepInv(ws, acts, m);
    var w, a := ws[m], acts[m];
    InFlightIsHeld(w, a, id);
    RefusalIsMarked(w, a, id);
    var attempts := w.mem.deliveries[id].attempts;
    var dead, next := a.result.permanent || attempts >= w.settings.retryMax, a.finished + Wait(w.settings, attempts);
    assert acts[m..n] == [a] + acts[m + 1..n];
    LifeKeepsMark(ws, acts, m + 1, n, ws[m + 1].log, id, dead, next);
    MarkedIsDue(ws[m + 1].log, ws[n], acts[n], id, dead, next);
  }

  lemma RefusalIsMarked(w: World, a: Action, id: DeliveryId)
    requires Scheduled(w) && id in w.inFlight && id in w.mem.deliveries && a.Finish? && a.id == id && a.result.Refused?
    ensures var attempts := w.mem.deliveries[id].attempts;
      Marked(Apply(w, a).log, Apply(w, a), id, a.result.permanent || attempts >= w.settings.retryMax,
             a.finished + Wait(w.settings, attempts))
  {
    RefusalMarks(w, id, a.result.permanent, a.finished, a.write);
  }

  lemma MarkedIsDue(h: History, w: World, a: Action, id: DeliveryId, dead: bool, next: Time)
    requires Marked(h, w, id, dead, next) && Enabled(w, a) && Starts(w, a) && id in a.due
    requires !QueuedBetween(h, Apply(w, a).log, id) && !ResetBetween(h, Apply(w, a).log, id)
    ensures !dead && next <= a.now
  {
    hide Apply, Enabled;
    ScanKeepsMark(h, w, a, id, dead, next);
    DueIsReady(w, a, id);
  }

  lemma EarlierIsReflexive(h: History)
    ensures Earlier(h, h)
  {
  }

  lemma RunStep(ws: seq<World>, acts: seq<Action>, n: nat)
    requires IsRun(ws, acts) && n < |acts|
    ensures |ws| == |acts| + 1 && Enabled(ws[n], acts[n]) && ws[n + 1] == Apply(ws[n], acts[n])
  {
  }

  lemma InFlightIsHeld(w: World, a: Action, id: DeliveryId)
    requires Inv(w) && Enabled(w, a) && a.Finish? && a.id == id
    ensures Scheduled(w) && id in w.inFlight && id in w.mem.deliveries
  {
  }

  /** What a scan sends is open, and its time has come. */
  lemma DueIsReady(w: World, a: Action, id: DeliveryId)
    requires Enabled(w, a) && Starts(w, a) && id in a.due
    ensures var s := Apply(w, a).mem;
      && id in s.deliveries && s.deliveries[id].deliveredAt.None? && !s.deliveries[id].deadLetter
      && s.deliveries[id].nextAttempt <= a.now
  {
    hide Reconcile, QueuedBy;
  }

  // ----- What is always tried, and what never is -------------------------------------

  /** The policy in plain terms: what may go out now. */
  predicate MayGo(s: State, id: DeliveryId, p: Policy) {
    match id.kind
    case Recovery => true
    case _ =>
      && id.key in s.conditions && s.conditions[id.key].active && s.conditions[id.key].firstSeen == id.activation
      && !Withheld(p, id.key, s.conditions[id.key])
      && HostOf(p, id.key, s.conditions[id.key]) !in p.maintenance
      && (id.kind == Escalation ==> !Silenced(p, id.key, s.conditions[id.key]))
  }

  function HostOf(p: Policy, k: Key, c: Condition): string {
    if k in p.signals then p.signals[k].host else c.host
  }

  /** The signal is uncertain, or its absence is certain. */
  predicate Withheld(p: Policy, k: Key, c: Condition) {
    if k in p.signals then p.signals[k].sourceUnready else p.sourceReady || c.host in p.recoveryReady
  }

  predicate Silenced(p: Policy, k: Key, c: Condition) {
    if k in p.signals then p.signals[k].suppressEscalation || p.signals[k].ackKey in p.acked
    else c.suppressEscalation || c.ackKey in p.acked
  }

  lemma AllowedMeans(s: State, id: DeliveryId, p: Policy)
    ensures Allowed(s, id, p) <==> MayGo(s, id, p)
  {
  }

  /** Every open record whose time has come and that may go out is sent by a scan that starts, unless the batch is full. */
  lemma ReadyIsDue(w: World, a: Action, id: DeliveryId)
    requires Enabled(w, a) && Starts(w, a)
    requires var s := Apply(w, a).mem;
      && id in s.deliveries && s.deliveries[id].deliveredAt.None? && !s.deliveries[id].deadLetter
      && s.deliveries[id].nextAttempt <= a.now && MayGo(s, id, a.policy.value)
    ensures id in a.due || |a.due| == 32
    ensures id !in a.due ==> forall other :: other in a.due ==>
              other in Apply(w, a).mem.deliveries
              && Apply(w, a).mem.deliveries[other].createdAt <= Apply(w, a).mem.deliveries[id].createdAt
  {
    hide Reconcile, QueuedBy, Allowed;
    var s := Apply(w, a).mem;
    AllowedMeans(s, id, a.policy.value);
    assert Eligible(s, id, a.policy.value, a.now);
    assert forall other :: other in a.due ==> Eligible(s, other, a.policy.value, a.now);
  }

  /** And nothing else: a scan sends only what may go out. */
  lemma DueMayGo(w: World, a: Action, id: DeliveryId)
    requires Enabled(w, a) && Starts(w, a) && id in a.due
    ensures MayGo(Apply(w, a).mem, id, a.policy.value)
  {
    hide Reconcile, QueuedBy, Allowed;
    AllowedMeans(Apply(w, a).mem, id, a.policy.value);
    assert Eligible(Apply(w, a).mem, id, a.policy.value, a.now);
  }

  /** A claim starts a request if and only if the policy read at that moment lets it, and the counter is saved. */
  lemma ClaimsFollowPolicy(w: World, a: Action)
    requires Scheduled(w) && Enabled(w, a) && a.Claim?
    ensures var id := w.batch[0];
      id in Apply(w, a).inFlight <==> MayGo(w.mem, id, a.latest) && a.write.Saved?
  {
    AllowedMeans(w.mem, w.batch[0], a.latest);
    assert w.batch[0] in w.batch;
  }

  // ----- Escalations and settings -------------------------------------------------------

  /**
    An escalation is queued if and only if it is not recorded yet and everything holds: a trusted signal
    outside maintenance that may escalate and is not acknowledged, 4 or 24 hours configured and gone by
    since the start, and the activation's critical message delivered.
   */
  lemma EscalationsAreDue(s: State, p: Policy, now: Time, cfg: Settings, id: DeliveryId)
    requires id.kind == Escalation
    ensures id in QueuedBy(s, p, now, cfg) <==>
      && id !in s.deliveries
      && id.key in p.signals && !p.signals[id.key].sourceUnready && p.signals[id.key].host !in p.maintenance
      && !p.signals[id.key].suppressEscalation && (p.signals[id.key].ackKey == "" || p.signals[id.key].ackKey !in p.acked)
      && id.activation == ActivationStart(s, p, id.key, now)
      && cfg.escalationHours in {4, 24} && now - id.activation >= cfg.escalationHours * 3_600_000_000_000
      && id.(kind := Critical) in s.deliveries && s.deliveries[id.(kind := Critical)].deliveredAt.Some?
  {
    var s1 := Ingested(s, p, now, cfg);
    IngestedIdsAre(s, p, now, cfg, Ready(p), id);
    RecoveryIdsAre(s1, p, s1.conditions.Keys, id);
  }

  /** A saved change of settings: exactly when it brings a dead letter back, and that it touches nothing else. */
  lemma UpdatesRevive(w: World, cfg: Settings, now: Time, id: DeliveryId)
    requires !w.scanning && id in w.mem.deliveries
    ensures var d := w.mem.deliveries[id]; var v := Apply(w, Action.Update(cfg, true, now, Saved));
      && v.settings == cfg && id in v.mem.deliveries
      && v.mem.deliveries[id] ==
           if d.deadLetter && d.deliveredAt.None? && (cfg.url != w.settings.url || (!w.settings.enabled && cfg.enabled))
           then d.(deadLetter := false, attempts := 0, failedAt := None, nextAttempt := now) else d
  {
  }

  // ----- A new condition --------------------------------------------------------------------

  /** A signal nothing is recorded of starts when it says it started, but not in the future. */
  lemma FirstActivation(s: State, p: Policy, now: Time, cfg: Settings, k: Key)
    requires k in p.signals && !p.signals[k].sourceUnready && k !in s.conditions && forall id :: id in s.deliveries ==> id.key != k
    ensures var t, sig := Reconcile(s, p, now, cfg), p.signals[k];
      var start := match sig.startedAt case Some(x) => Min(x, now) case None => now;
      k in t.conditions && t.conditions[k] == Condition(sig.host, sig.ackKey, start, now, true, sig.suppressEscalation)
  {
    hide Reconcile;
    ConditionAfter(s, p, now, cfg, k);
    assert Taken(s, k) == {};
  }

  // ----- Retention ------------------------------------------------------------------------

  /** An inactive condition that no trusted signal brings back is kept for 30 days and then dropped. */
  lemma ConditionsAreRetained(s: State, p: Policy, now: Time, cfg: Settings, k: Key)
    requires k in s.conditions && !s.conditions[k].active && !(k in p.signals && !p.signals[k].sourceUnready)
    ensures var t := Reconcile(s, p, now, cfg);
      && (k in t.conditions <==> now - s.conditions[k].lastSeen <= 2_592_000_000_000_000)
      && (k in t.conditions ==> t.conditions[k] == s.conditions[k])
  {
    hide Reconcile;
    ConditionAfter(s, p, now, cfg, k);
  }

  /** When a record of an ended activation began to age. */
  function AgesFrom(s: State, id: DeliveryId, now: Time): Time
    requires id in s.deliveries
  {
    var d := s.deliveries[id];
    if d.inactiveAt.Some? then d.inactiveAt.value
    else if id.key in s.conditions && s.conditions[id.key].firstSeen == id.activation
            && now - s.conditions[id.key].lastSeen <= 2_592_000_000_000_000 then s.conditions[id.key].lastSeen
    else now
  }

  /**
    A record whose condition is not active, and not brought back, is kept if and only if it may still matter,
    as a recovery or because it was delivered, and neither the end of its activation nor its delivery
    is more than 30 days ago. An undelivered alarm goes at once. What is kept remembers when it began to age.
   */
  lemma RecordsAreRetained(s: State, p: Policy, now: Time, cfg: Settings, id: DeliveryId)
    requires id in s.deliveries && !ActiveIn(s, id.key) && !(id.key in p.signals && !p.signals[id.key].sourceUnready)
    ensures var t, d, since := Reconcile(s, p, now, cfg), s.deliveries[id], AgesFrom(s, id, now);
      && (id in t.deliveries <==>
            (id.kind == Recovery || d.deliveredAt.Some?)
            && (now - since <= 2_592_000_000_000_000
                || (d.deliveredAt.Some? && now - d.deliveredAt.value <= 2_592_000_000_000_000)))
      && (id in t.deliveries ==> t.deliveries[id] == d.(inactiveAt := Some(since)))
  {
    hide Ingested, Recover, QueuedBy;
    var s1, s2 := Ingested(s, p, now, cfg), Recovered(s, p, now, cfg);
    IngestedCondition(s, p, now, cfg, id.key);
    RecoveredCondition(s1, p, now, id.key);
    HeldBeforePruning(s, p, now, cfg, id);
    assert Existing(s2, id.key) == Existing(s, id.key);
    var s3 := PruneConditions(s2, now, s2.conditions.Keys);
    assert Existing(s3, id.key) == if id.key in s.conditions && Expired(s.conditions[id.key], now) then None else Existing(s, id.key);
  }

  /** Up to pruning no record goes but an unsent alarm whose condition ends. */
  lemma HeldBeforePruning(s: State, p: Policy, now: Time, cfg: Settings, id: DeliveryId)
    requires id in s.deliveries && !ActiveIn(s, id.key) && id.key !in Ready(p)
    ensures id in Recovered(s, p, now, cfg).deliveries && Recovered(s, p, now, cfg).deliveries[id] == s.deliveries[id]
  {
    var s1 := Ingested(s, p, now, cfg);
    UnsentAre(s1, p, s1.conditions.Keys, id);
  }
}
