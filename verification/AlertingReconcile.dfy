/** What one reconciliation does to conditions and deliveries, for every state and policy. */
module AlertingReconcile {
  import opened Base
  import opened Alerting

  // ----- Activation identity ------------------------------------------------

  /**
    The collision search ends on the first free start time: everything it passed over is
    taken, it never moves backwards, and once it moves it is at `now` or later.
   */
  lemma {:induction false} FirstFreeIsFirst(taken: set<Time>, t: Time, now: Time)
    ensures FirstFree(taken, t, now) !in taken
    ensures t !in taken ==> FirstFree(taken, t, now) == t
    ensures t in taken ==> FirstFree(taken, t, now) >= Bump(t, now) && FirstFree(taken, t, now) >= now
    ensures t in taken ==> forall x :: Bump(t, now) <= x < FirstFree(taken, t, now) ==> x in taken
    decreases Ahead(taken, t)
  {
    if t in taken {
      assert t in Ahead(taken, t) && Ahead(taken, Bump(t, now)) <= Ahead(taken, t);
      FirstFreeIsFirst(taken, Bump(t, now), now);
    }
  }

  /** A new activation is identified unlike any retained delivery of its key, of whatever kind. */
  lemma NewActivationIsNew(s: State, p: Policy, k: Key, now: Time, id: DeliveryId)
    requires k in p.signals && !ActiveIn(s, k)
    requires id in s.deliveries && id.key == k
    ensures ActivationStart(s, p, k, now) != id.activation
  {
    FirstFreeIsFirst(Taken(s, k), Candidate(Existing(s, k), p.signals[k].startedAt, now), now);
    assert id.activation in Taken(s, k);
  }

  /**
    When a reactivation starts strictly later than the activation it follows. Without a collision:
    exactly if the start asked for was before the end of that activation, or is after its start.
    With one: exactly if no free start time is left up to there.
   */
  lemma ReactivationMovesOn(s: State, p: Policy, k: Key, now: Time)
    requires k in p.signals && k in s.conditions && !s.conditions[k].active
    ensures var c, startedAt := s.conditions[k], p.signals[k].startedAt;
      var t := Candidate(Some(c), startedAt, now);
      ActivationStart(s, p, k, now) > c.firstSeen <==>
        if t !in Taken(s, k) then Asked(startedAt, now) <= c.lastSeen || Asked(startedAt, now) > c.firstSeen
        else forall x :: Bump(t, now) <= x <= c.firstSeen ==> x in Taken(s, k)
  {
    FirstFreeIsFirst(Taken(s, k), Candidate(Existing(s, k), p.signals[k].startedAt, now), now);
  }

  /** A silent scan: with everything in maintenance and nothing recorded, nothing is recorded. */
  lemma NothingIsRecorded(s: State, p: Policy, now: Time, cfg: Settings)
    requires s.deliveries == map[] && forall k :: k in p.signals ==> p.signals[k].host in p.maintenance
    ensures Reconcile(s, p, now, cfg).deliveries == map[]
  {
    forall id | id in Reconcile(s, p, now, cfg).deliveries ensures false {
      DeliveriesAfter(s, p, now, cfg, id);
      if id.kind == Recovery {
        QueuedBehindDelivered(s, p, now, cfg, id);
      } else {
        MaintenanceQueuesNothing(s, p, now, cfg, id);
      }
    }
  }

  /**
    It does not always: on a host in maintenance a condition comes and goes twice while the clock
    stands at 100, and comes back a nanosecond later with the start time it had before.
   */
  lemma StandingClockRepeats(k: Key, cfg: Settings)
    ensures var on := Policy(map[k := Signal("nas", "", None, false, false)], {}, true, {}, {"nas"});
      var off := Policy(map[], {}, true, {}, {});
      var twice := Reconcile(Reconcile(Reconcile(Reconcile(EMPTY, on, 100, cfg), off, 100, cfg), on, 100, cfg), off, 100, cfg);
      && k in twice.conditions && !twice.conditions[k].active
      && twice.conditions[k].firstSeen == 101 == ActivationStart(twice, on, k, 101)
  {
    var on := Policy(map[k := Signal("nas", "", None, false, false)], {}, true, {}, {"nas"});
    var off := Policy(map[], {}, true, {}, {});
    var a := Reconcile(EMPTY, on, 100, cfg);
    var b := Reconcile(a, off, 100, cfg);
    var c := Reconcile(b, on, 100, cfg);
    var d := Reconcile(c, off, 100, cfg);
    hide Reconcile, FirstFree;
    NothingIsRecorded(EMPTY, on, 100, cfg);
    NothingIsRecorded(a, off, 100, cfg);
    NothingIsRecorded(b, on, 100, cfg);
    NothingIsRecorded(c, off, 100, cfg);
    FirstFreeIsFirst({}, 100, 100);
    FirstFreeIsFirst({}, 101, 100);
    FirstFreeIsFirst({}, 101, 101);
    assert Taken(EMPTY, k) == Taken(b, k) == Taken(d, k) == {};
    ConditionAfter(EMPTY, on, 100, cfg, k);
    assert a.conditions[k].firstSeen == 100 == a.conditions[k].lastSeen;
    ConditionAfter(a, off, 100, cfg, k);
    ConditionAfter(b, on, 100, cfg, k);
    assert c.conditions[k].firstSeen == 101;
    ConditionAfter(c, off, 100, cfg, k);
  }

  // ----- Ingesting ----------------------------------------------------------

  lemma IngestedIdsAre(s: State, p: Policy, now: Time, cfg: Settings, keys: set<Key>, id: DeliveryId)
    ensures id in IngestedIds(s, p, now, cfg, keys) <==>
            && id.key in keys && id.key in p.signals && id.kind != Recovery
            && Wants(s, p, id.key, id.kind, now, cfg)
            && id.activation == ActivationStart(s, p, id.key, now)
  {
  }

  lemma RecoveryIdsAre(s: State, p: Policy, keys: set<Key>, id: DeliveryId)
    ensures id in RecoveryIds(s, p, keys) <==>
            && id.key in keys && Absent(s, p, id.key) && Delivered(s, CriticalOf(s, id.key))
            && id == IdOf(id.key, Recovery, s.conditions[id.key])
  {
  }

  lemma UnsentAre(s: State, p: Policy, keys: set<Key>, id: DeliveryId)
    ensures id in Unsent(s, p, keys) <==>
            && id.key in keys && Absent(s, p, id.key) && !Delivered(s, CriticalOf(s, id.key))
            && id == CriticalOf(s, id.key)
  {
  }

  // ----- The whole pass -----------------------------------------------------

  /** A record's history is untouched; only its retention stamp may be set. */
  predicate SameHistory(d: Delivery, e: Delivery) {
    e == d.(inactiveAt := e.inactiveAt)
  }

  lemma DeliveriesBeforePruning(s: State, p: Policy, now: Time, cfg: Settings, id: DeliveryId)
    ensures var t := Recovered(s, p, now, cfg);
      id in t.deliveries ==>
        if id in s.deliveries then t.deliveries[id] == s.deliveries[id]
        else id in QueuedBy(s, p, now, cfg) && t.deliveries[id] == Fresh(now)
  {
  }

  lemma PruningKeepsHistory(s: State, now: Time, ids: set<DeliveryId>, id: DeliveryId)
    ensures var t := PruneDeliveries(s, now, ids);
      id in t.deliveries ==> id in s.deliveries && SameHistory(s.deliveries[id], t.deliveries[id])
  {
  }

  /** Every record after a scan was there before, or is one of those just queued and is fresh. */
  lemma DeliveriesAfter(s: State, p: Policy, now: Time, cfg: Settings, id: DeliveryId)
    requires id in Reconcile(s, p, now, cfg).deliveries
    ensures id in s.deliveries ==> SameHistory(s.deliveries[id], Reconcile(s, p, now, cfg).deliveries[id])
    ensures id !in s.deliveries ==>
              id in QueuedBy(s, p, now, cfg) && SameHistory(Fresh(now), Reconcile(s, p, now, cfg).deliveries[id])
  {
    var s2 := Recovered(s, p, now, cfg);
    var s3 := PruneConditions(s2, now, s2.conditions.Keys);
    DeliveriesBeforePruning(s, p, now, cfg, id);
    PruningKeepsHistory(s3, now, s3.deliveries.Keys, id);
  }

  /** Only ids without a record are queued. */
  lemma QueuedAreNew(s: State, p: Policy, now: Time, cfg: Settings, id: DeliveryId)
    requires id in QueuedBy(s, p, now, cfg)
    ensures id !in s.deliveries
  {
  }

  /** Recoveries and escalations are queued only behind a delivered critical message. */
  lemma QueuedBehindDelivered(s: State, p: Policy, now: Time, cfg: Settings, id: DeliveryId)
    requires id in QueuedBy(s, p, now, cfg) && id.kind != Critical
    ensures Delivered(s, id.(kind := Critical))
  {
    var s1 := Ingested(s, p, now, cfg);
    if id in IngestedIds(s, p, now, cfg, Ready(p)) {
      IngestedIdsAre(s, p, now, cfg, Ready(p), id);
    } else {
      RecoveryIdsAre(s1, p, s1.conditions.Keys, id);
      assert Delivered(s1, id.(kind := Critical));
    }
  }

  lemma IngestedCondition(s: State, p: Policy, now: Time, cfg: Settings, k: Key)
    ensures Existing(Ingested(s, p, now, cfg), k) == if k in Ready(p) then Some(Activated(s, p, k, now)) else Existing(s, k)
  {
    hide Activated, IngestedIds, Enqueue;
  }

  lemma RecoveredCondition(s: State, p: Policy, now: Time, k: Key)
    ensures Existing(Recover(s, p, now, s.conditions.Keys), k) ==
            if Absent(s, p, k) then Some(s.conditions[k].(active := false, lastSeen := now)) else Existing(s, k)
  {
    hide RecoveryIds, Unsent, Enqueue;
  }

  lemma PrunedCondition(s: State, now: Time, k: Key)
    ensures var t := PruneConditions(s, now, s.conditions.Keys);
      Existing(PruneDeliveries(t, now, t.deliveries.Keys), k) ==
        if k in s.conditions && Expired(s.conditions[k], now) then None else Existing(s, k)
  {
    hide PruneOne;
  }

  /** What a scan makes of the condition of k. */
  lemma ConditionAfter(s: State, p: Policy, now: Time, cfg: Settings, k: Key)
    ensures var t := Reconcile(s, p, now, cfg);
      if k in Ready(p) then k in t.conditions && t.conditions[k] == Activated(s, p, k, now)
      else if Absent(s, p, k) then
        k in t.conditions && t.conditions[k] == s.conditions[k].(active := false, lastSeen := now)
      else if k in s.conditions && !Expired(s.conditions[k], now) then
        k in t.conditions && t.conditions[k] == s.conditions[k]
      else k !in t.conditions
  {
    hide Ingested, Recover, PruneConditions, PruneDeliveries, ActivationStart;
    IngestedCondition(s, p, now, cfg, k);
    var s1 := Ingested(s, p, now, cfg);
    RecoveredCondition(s1, p, now, k);
    PrunedCondition(Recovered(s, p, now, cfg), now, k);
  }

  /** A condition is switched off by a scan exactly when its absence is authoritative. */
  lemma OnlyAuthoritativeAbsenceRecovers(s: State, p: Policy, now: Time, cfg: Settings, k: Key)
    requires ActiveIn(s, k)
    ensures !ActiveIn(Reconcile(s, p, now, cfg), k) <==>
            k !in p.signals && (p.sourceReady || s.conditions[k].host in p.recoveryReady)
  {
    ConditionAfter(s, p, now, cfg, k);
  }

  /** Every authoritative signal outside maintenance ends the scan with its critical record. */
  lemma SignalsAreQueued(s: State, p: Policy, now: Time, cfg: Settings, k: Key)
    requires k in Ready(p) && p.signals[k].host !in p.maintenance
    ensures var t := Reconcile(s, p, now, cfg);
      && ActiveIn(t, k)
      && CriticalOf(t, k) in t.deliveries
      && (!ActiveIn(s, k) ==> CriticalOf(t, k) in QueuedBy(s, p, now, cfg) && t.deliveries[CriticalOf(t, k)] == Fresh(now))
  {
    ConditionAfter(s, p, now, cfg, k);
    var s1 := Ingested(s, p, now, cfg);
    var s2 := Recovered(s, p, now, cfg);
    var s3 := PruneConditions(s2, now, s2.conditions.Keys);
    var id := DeliveryId(k, Critical, ActivationStart(s, p, k, now));
    IngestedIdsAre(s, p, now, cfg, Ready(p), id);
    UnsentAre(s1, p, s1.conditions.Keys, id);
    assert id in s2.deliveries;
    assert s3.conditions[k] == Activated(s, p, k, now);
    if !ActiveIn(s, k) && id in s.deliveries {
      NewActivationIsNew(s, p, k, now, id);
    }
  }

  /** Maintenance opens no alarm: nothing is queued for a host under maintenance but recoveries. */
  lemma MaintenanceQueuesNothing(s: State, p: Policy, now: Time, cfg: Settings, id: DeliveryId)
    requires id in QueuedBy(s, p, now, cfg) && id.kind != Recovery
    ensures id.key in Ready(p) && p.signals[id.key].host !in p.maintenance
    ensures id.kind == Escalation ==> p.signals[id.key].ackKey == "" || p.signals[id.key].ackKey !in p.acked
  {
    var s1 := Ingested(s, p, now, cfg);
    IngestedIdsAre(s, p, now, cfg, Ready(p), id);
    RecoveryIdsAre(s1, p, s1.conditions.Keys, id);
  }

  /** An unsent critical or escalation belongs to the current activation of an active condition. */
  lemma PendingAlarmsAreLive(s: State, p: Policy, now: Time, cfg: Settings, id: DeliveryId)
    requires var t := Reconcile(s, p, now, cfg);
      id in t.deliveries && id.kind != Recovery && t.deliveries[id].deliveredAt.None?
    ensures var t := Reconcile(s, p, now, cfg);
      ActiveIn(t, id.key) && Current(t.conditions, id)
  {
  }

  /** All records of an activation that stays active are pinned, however old they are. */
  lemma ActiveRecordsArePinned(s: State, p: Policy, now: Time, cfg: Settings, id: DeliveryId)
    requires id in s.deliveries && ActiveIn(s, id.key) && Current(s.conditions, id)
    requires ActiveIn(Reconcile(s, p, now, cfg), id.key)
    ensures var t := Reconcile(s, p, now, cfg);
      && Current(t.conditions, id)
      && id in t.deliveries && t.deliveries[id] == s.deliveries[id]
  {
    ConditionAfter(s, p, now, cfg, id.key);
    var s1 := Ingested(s, p, now, cfg);
    var s2 := Recovered(s, p, now, cfg);
    UnsentAre(s1, p, s1.conditions.Keys, id);
    assert s2.deliveries[id] == s.deliveries[id];
  }

  /** No condition that is still active has been answered by the recovery of its own activation. */
  ghost predicate Unanswered(s: State) {
    forall k :: ActiveIn(s, k) ==> IdOf(k, Recovery, s.conditions[k]) !in s.deliveries
  }

  lemma ReconcileKeepsUnanswered(s: State, p: Policy, now: Time, cfg: Settings)
    requires Unanswered(s)
    ensures Unanswered(Reconcile(s, p, now, cfg))
  {
    hide Reconcile, QueuedBy, FirstFree;
    var t := Reconcile(s, p, now, cfg);
    forall k | ActiveIn(t, k) ensures IdOf(k, Recovery, t.conditions[k]) !in t.deliveries {
      var id := IdOf(k, Recovery, t.conditions[k]);
      ConditionAfter(s, p, now, cfg, k);
      if id in t.deliveries {
        DeliveriesAfter(s, p, now, cfg, id);
        if id in s.deliveries {
          if !ActiveIn(s, k) { NewActivationIsNew(s, p, k, now, id); }
        } else {
          RecoveriesEndConditions(s, p, now, cfg, id);
        }
      }
    }
  }

  /** A recovery is queued only by the scan that ends the condition. */
  lemma RecoveriesEndConditions(s: State, p: Policy, now: Time, cfg: Settings, id: DeliveryId)
    requires id in QueuedBy(s, p, now, cfg) && id.kind == Recovery
    ensures Absent(s, p, id.key)
  {
    var s1 := Ingested(s, p, now, cfg);
    IngestedIdsAre(s, p, now, cfg, Ready(p), id);
    RecoveryIdsAre(s1, p, s1.conditions.Keys, id);
  }

  /** A recovered condition whose alarm went out has its recovery queued in the same scan. */
  lemma RecoveryFollows(s: State, p: Policy, now: Time, cfg: Settings, k: Key)
    requires Unanswered(s) && Absent(s, p, k) && Delivered(s, CriticalOf(s, k))
    ensures IdOf(k, Recovery, s.conditions[k]) in QueuedBy(s, p, now, cfg)
    ensures var t := Reconcile(s, p, now, cfg);
      IdOf(k, Recovery, s.conditions[k]) in t.deliveries && Pending(t.deliveries[IdOf(k, Recovery, s.conditions[k])])
  {
    ConditionAfter(s, p, now, cfg, k);
    var s1 := Ingested(s, p, now, cfg);
    var id := IdOf(k, Recovery, s.conditions[k]);
    assert s1.conditions[k] == s.conditions[k];
    assert s1.deliveries[CriticalOf(s, k)] == s.deliveries[CriticalOf(s, k)];
    IngestedIdsAre(s, p, now, cfg, Ready(p), id);
    RecoveryIdsAre(s1, p, s1.conditions.Keys, id);
    UnsentAre(s1, p, s1.conditions.Keys, id);
  }

  /** A recovered condition whose alarm never went out leaves nothing to send. */
  lemma SilentRecovery(s: State, p: Policy, now: Time, cfg: Settings, k: Key)
    requires Absent(s, p, k) && !Delivered(s, CriticalOf(s, k))
    ensures CriticalOf(s, k) !in Reconcile(s, p, now, cfg).deliveries
    ensures IdOf(k, Recovery, s.conditions[k]) !in QueuedBy(s, p, now, cfg)
  {
    var s1 := Ingested(s, p, now, cfg);
    assert s1.conditions[k] == s.conditions[k] && Absent(s1, p, k);
    IngestedIdsAre(s, p, now, cfg, Ready(p), CriticalOf(s, k));
    IngestedIdsAre(s, p, now, cfg, Ready(p), IdOf(k, Recovery, s.conditions[k]));
    assert !Delivered(s1, CriticalOf(s1, k));
    RecoveryIdsAre(s1, p, s1.conditions.Keys, IdOf(k, Recovery, s.conditions[k]));
    UnsentAre(s1, p, s1.conditions.Keys, CriticalOf(s, k));
  }
}
