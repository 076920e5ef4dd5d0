/** The bound on attempts is tight: for any settings and any number of crashes there is a run that reaches it. */
module AlertingTight {
  import opened Base
  import opened Alerting
  import opened AlertingReconcile
  import opened AlertingWorld
  import opened AlertingSafety
  import opened AlertingBounds

  // ----- One alarm that is never accepted --------------------------------------

  /** Settings the program accepts, with notifications on. */
  predicate Usable(cfg: Settings) {
    && cfg.enabled && cfg.url != "" && cfg.escalationHours in {0, 4, 24}
    && 1 <= cfg.retryMax <= 20 && 1 <= cfg.retryBaseSeconds <= 300
  }

  function Seen(k: Key): Policy {
    Policy(map[k := Signal("nas", "", None, false, false)], {}, true, {}, {})
  }

  function AlarmOf(k: Key): DeliveryId {
    DeliveryId(k, Critical, 0)
  }

  /** The alarm of a condition that started at 0 and was last seen at t. */
  function Only(k: Key, d: Delivery, t: Time): State {
    State(map[k := Condition("nas", "", 0, t, true, false)], map[AlarmOf(k) := d])
  }

  /** Still to be sent, and due by t. */
  predicate Due(d: Delivery, attempts: nat, t: Time) {
    Pending(d) && d.nextAttempt <= t && d.attempts == attempts
  }

  ghost predicate Holds(s: State, k: Key, d: Delivery) {
    exists t :: s == Only(k, d, t)
  }

  /** A scan at time 0 starts the alarm, and later scans leave it as it is. */
  lemma ScanIs(s: State, k: Key, cfg: Settings, d: Delivery, now: Time)
    requires Pending(d) && ((s == EMPTY && d == Fresh(0) && now == 0) || Holds(s, k, d))
    ensures Reconcile(s, Seen(k), now, cfg) == Only(k, d, now)
  {
    var p := Seen(k);
    var t := Reconcile(s, p, now, cfg);
    var id := AlarmOf(k);
    hide Reconcile, QueuedBy, FirstFree;
    StartIs(s, k, now);
    forall key ensures key in t.conditions <==> key == k {
      ConditionAfter(s, p, now, cfg, key);
    }
    ConditionAfter(s, p, now, cfg, k);
    assert t.conditions == Only(k, d, now).conditions;
    SignalsAreQueued(s, p, now, cfg, k);
    assert CriticalOf(t, k) == id;
    if s != EMPTY { ActiveRecordsArePinned(s, p, now, cfg, id); }
    forall other | other in t.deliveries ensures other == id {
      DeliveriesAfter(s, p, now, cfg, other);
      if other !in s.deliveries { NothingElseIsQueued(s, k, cfg, now, other); }
    }
  }

  lemma StartIs(s: State, k: Key, now: Time)
    requires (s == EMPTY && now == 0) || exists d :: Holds(s, k, d)
    ensures ActivationStart(s, Seen(k), k, now) == 0
  {
    FirstFreeIsFirst(Taken(s, k), now, now);
    assert Taken(EMPTY, k) == {};
  }

  lemma NothingElseIsQueued(s: State, k: Key, cfg: Settings, now: Time, id: DeliveryId)
    requires (s == EMPTY && now == 0) || exists d :: Holds(s, k, d) && Pending(d)
    requires id in QueuedBy(s, Seen(k), now, cfg)
    ensures id == AlarmOf(k)
  {
    var p := Seen(k);
    StartIs(s, k, now);
    if id.kind == Recovery {
      RecoveriesEndConditions(s, p, now, cfg, id);
    } else {
      RecoveryIdsAre(Ingested(s, p, now, cfg), p, Ingested(s, p, now, cfg).conditions.Keys, id);
      IngestedIdsAre(s, p, now, cfg, Ready(p), id);
    }
  }

  lemma BatchIs(k: Key, d: Delivery, now: Time)
    requires Due(d, d.attempts, now)
    ensures IsBatch(Only(k, d, now), Seen(k), now, [AlarmOf(k)])
  {
  }

  // ----- Runs ---------------------------------------------------------------------

  /** A run whose settings never change. */
  ghost predicate Runs(ws: seq<World>, acts: seq<Action>, cfg: Settings) {
    IsRun(ws, acts) && ws[0].settings == cfg && forall a :: a in acts ==> KeepsSettings(a, cfg)
  }

  predicate KeepsSettings(a: Action, cfg: Settings) {
    !a.Update? && (a.Crash? ==> a.settings == cfg)
  }

  /** Everything is saved, nothing is left of the batch, and there were c crashes. */
  predicate Rests(w: World, cfg: Settings, c: nat) {
    w.settings == cfg && w.mem == w.disk && w.batch == [] && Crashes(w.log) == c
  }

  ghost predicate RunTo(ws: seq<World>, acts: seq<Action>, cfg: Settings, c: nat) {
    |ws| == |acts| + 1 && Runs(ws, acts, cfg) && Rests(ws[|acts|], cfg, c)
  }

  /** The alarm is not under way, n attempts have been counted, and the next is due at t. */
  ghost predicate Waiting(w: World, k: Key, n: nat, t: Time) {
    && !w.scanning && w.inFlight == {}
    && ((n == 0 && t == 0 && w.mem == EMPTY) || exists d :: Holds(w.mem, k, d) && Due(d, n, t))
  }

  /** The n-th attempt is under way since t. */
  ghost predicate Flying(w: World, k: Key, n: nat, t: Time) {
    w.scanning && w.inFlight == {AlarmOf(k)} && exists d :: w.mem == Only(k, d, t) && Due(d, n, t)
  }

  lemma OneMore(ws: seq<World>, acts: seq<Action>, cfg: Settings, a: Action) returns (us: seq<World>, bs: seq<Action>)
    requires |ws| == |acts| + 1 && Runs(ws, acts, cfg) && Enabled(ws[|acts|], a) && KeepsSettings(a, cfg)
    ensures us == ws + [Apply(ws[|acts|], a)] && bs == acts + [a]
    ensures |us| == |bs| + 1 && Runs(us, bs, cfg) && us[|bs|] == Apply(ws[|acts|], a)
  {
    us, bs := ws + [Apply(ws[|acts|], a)], acts + [a];
  }

  lemma ScanWorld(w: World, cfg: Settings, k: Key, n: nat, d: Delivery, t: Time)
    requires !w.scanning && w.inFlight == {} && w.batch == [] && w.settings == cfg && cfg.enabled && Due(d, n, t)
    requires (w.mem == EMPTY && d == Fresh(0) && t == 0) || Holds(w.mem, k, d)
    ensures var a := Action.Scan(Some(Seen(k)), t, [AlarmOf(k)], Saved); var v := Apply(w, a);
      && Enabled(w, a) && v.mem == v.disk == Only(k, d, t) && v.settings == cfg
      && v.scanning && v.batch == [AlarmOf(k)] && v.inFlight == {} && Crashes(v.log) == Crashes(w.log)
  {
    hide Reconcile, QueuedBy, IsBatch;
    ScanIs(w.mem, k, cfg, d, t);
    BatchIs(k, d, t);
  }

  lemma ClaimWorld(v: World, k: Key, n: nat, d: Delivery, t: Time)
    requires v.mem == v.disk == Only(k, d, t) && Due(d, n, t) && v.scanning && v.batch == [AlarmOf(k)] && v.inFlight == {}
    ensures var a := Action.Claim(Seen(k), Saved); var u := Apply(v, a);
      && Enabled(v, a) && u.mem == u.disk && u.settings == v.settings && u.batch == []
      && Flying(u, k, n + 1, t) && Crashes(u.log) == Crashes(v.log)
  {
    var u := Apply(v, Action.Claim(Seen(k), Saved));
    assert Allowed(v.mem, AlarmOf(k), Seen(k));
    assert u.mem == Only(k, d.(attempts := n + 1), t);
  }

  /** A scan at the time the attempt is due, and a claim, both saved. */
  lemma Launch(ws: seq<World>, acts: seq<Action>, cfg: Settings, c: nat, k: Key, n: nat, t: Time)
    returns (us: seq<World>, bs: seq<Action>)
    requires RunTo(ws, acts, cfg, c) && cfg.enabled && Waiting(ws[|acts|], k, n, t)
    ensures RunTo(us, bs, cfg, c) && Flying(us[|bs|], k, n + 1, t)
  {
    var w := ws[|acts|];
    var d := Fresh(0);
    EmptyHoldsNothing(k);
    if w.mem != EMPTY {
      d :| Holds(w.mem, k, d) && Due(d, n, t);
    }
    hide Apply, Enabled, IsRun, Runs, Flying, Holds, Due;
    var scan, claim := Action.Scan(Some(Seen(k)), t, [AlarmOf(k)], Saved), Action.Claim(Seen(k), Saved);
    FreshIsDue();
    ScanWorld(w, cfg, k, n, d, t);
    us, bs := OneMore(ws, acts, cfg, scan);
    ClaimWorld(us[|bs|], k, n, d, t);
    us, bs := OneMore(us, bs, cfg, claim);
  }

  lemma EmptyHoldsNothing(k: Key)
    ensures forall d :: !Holds(EMPTY, k, d)
  {
    forall d, t ensures EMPTY != Only(k, d, t) {
      assert k in Only(k, d, t).conditions;
    }
  }

  lemma FreshIsDue()
    ensures Due(Fresh(0), 0, 0)
  {
  }

  /** The request is refused at once, and the next attempt is due after the retry delay. */
  lemma Land(ws: seq<World>, acts: seq<Action>, cfg: Settings, c: nat, k: Key, n: nat, t: Time)
    returns (us: seq<World>, bs: seq<Action>)
    requires RunTo(ws, acts, cfg, c) && Flying(ws[|acts|], k, n, t) && 0 < n < cfg.retryMax
    ensures RunTo(us, bs, cfg, c) && Waiting(us[|bs|], k, n, t + RetryDelay(cfg, n))
  {
    var w, id := ws[|acts|], AlarmOf(k);
    var d :| w.mem == Only(k, d, t) && Due(d, n, t);
    RefusedWorld(w, cfg, k, n, d, t);
    hide Apply, Enabled, IsRun, Runs, Waiting, Flying;
    us, bs := OneMore(ws, acts, cfg, Action.Finish(id, Refused(false), t, Saved));
    us, bs := OneMore(us, bs, cfg, Action.EndScan);
  }

  lemma RefusedWorld(w: World, cfg: Settings, k: Key, n: nat, d: Delivery, t: Time)
    requires w.scanning && w.inFlight == {AlarmOf(k)} && w.batch == [] && w.settings == cfg
    requires w.mem == w.disk == Only(k, d, t) && Due(d, n, t) && 0 < n < cfg.retryMax
    ensures var a := Action.Finish(AlarmOf(k), Refused(false), t, Saved); var v := Apply(w, a); var u := Apply(v, Action.EndScan);
      && Enabled(w, a) && Enabled(v, Action.EndScan) && Rests(u, cfg, Crashes(w.log))
      && Waiting(u, k, n, t + RetryDelay(cfg, n))
  {
    var next := Finished(d, Refused(false), t, cfg);
    var v := Apply(w, Action.Finish(AlarmOf(k), Refused(false), t, Saved));
    assert v.mem == v.disk == Only(k, next, t);
    assert Due(next, n, t + RetryDelay(cfg, n));
  }

  /** The process dies before the result is known. */
  lemma Fall(ws: seq<World>, acts: seq<Action>, cfg: Settings, c: nat, k: Key, n: nat, t: Time)
    returns (us: seq<World>, bs: seq<Action>)
    requires RunTo(ws, acts, cfg, c) && Flying(ws[|acts|], k, n, t)
    ensures RunTo(us, bs, cfg, c + 1) && Waiting(us[|bs|], k, n, t)
  {
    var w := ws[|acts|];
    var d :| w.mem == Only(k, d, t) && Due(d, n, t);
    assert Holds(w.mem, k, d);
    assert Enabled(w, Action.Crash(cfg));
    us, bs := OneMore(ws, acts, cfg, Action.Crash(cfg));
  }

  /** One attempt more: after a refusal or, while there are crashes left to use, after a crash. */
  lemma {:induction false} Reaching(cfg: Settings, n: nat, c: nat, k: Key)
    returns (ws: seq<World>, acts: seq<Action>, t: Time)
    requires cfg.enabled && c < n <= cfg.retryMax + c
    ensures RunTo(ws, acts, cfg, c) && Flying(ws[|acts|], k, n, t)
    decreases n
  {
    if c > 0 {
      ws, acts, t := Reaching(cfg, n - 1, c - 1, k);
      ws, acts := Fall(ws, acts, cfg, c - 1, k, n - 1, t);
    } else if n > 1 {
      ws, acts, t := Reaching(cfg, n - 1, 0, k);
      ws, acts := Land(ws, acts, cfg, 0, k, n - 1, t);
      t := t + RetryDelay(cfg, n - 1);
    } else {
      ws, acts, t := [Boot(EMPTY, cfg)], [], 0;
    }
    ws, acts := Launch(ws, acts, cfg, c, k, n - 1, t);
  }

  // ----- The bound ---------------------------------------------------------------------

  ghost predicate Tried(ws: seq<World>, acts: seq<Action>, cfg: Settings, c: nat, id: DeliveryId, attempts: nat) {
    && IsRun(ws, acts) && Runs(ws, acts, cfg)
    && Crashes(ws[|acts|].log) == c
    && id in ws[|acts|].mem.deliveries && ws[|acts|].mem.deliveries[id].attempts == attempts
  }

  /**
    For any settings that are on and allow an attempt, and every c, there is a run with c crashes in which an
    alarm has been tried as often as configured and c times more, every retry after its full delay.
   */
  lemma BoundIsReached(cfg: Settings, c: nat, k: Key) returns (ws: seq<World>, acts: seq<Action>)
    requires cfg.enabled && cfg.retryMax > 0
    ensures Tried(ws, acts, cfg, c, AlarmOf(k), cfg.retryMax + c)
  {
    var t: Time;
    ws, acts, t := Reaching(cfg, cfg.retryMax + c, c, k);
  }

  /** Under any settings the program accepts, the configured maximum holds in all runs with c crashes exactly if c is none. */
  lemma MaximumNeedsNoCrash(cfg: Settings, c: nat)
    requires Usable(cfg)
    ensures (forall ws, acts, id, attempts: nat :: Tried(ws, acts, cfg, c, id, attempts) ==> attempts <= cfg.retryMax) <==> c == 0
  {
    forall ws, acts, id, attempts: nat | Tried(ws, acts, cfg, c, id, attempts) ensures attempts <= cfg.retryMax + c {
      AttemptsAreBounded(ws, acts, |acts|, cfg.retryMax, id);
    }
    var k := Collector("any");
    var ws, acts := BoundIsReached(cfg, c, k);
  }
}
