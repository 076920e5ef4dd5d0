/**
  The engine itself: fields updated in place by the loops of a scan and by the steps of the
  delivery workers. Every method is shown to take exactly the step of `AlertingWorld` it names.
 */
module AlertingEngine {
  import opened Base
  import opened Alerting
  import opened AlertingReconcile
  import opened AlertingWorld

  /** Insertion into a queue kept oldest first. */
  function Insert(d: map<DeliveryId, Delivery>, queue: seq<DeliveryId>, id: DeliveryId): seq<DeliveryId>
    requires id in d && forall q :: q in queue ==> q in d
  {
    if queue == [] || d[id].createdAt < d[queue[0]].createdAt then [id] + queue
    else [queue[0]] + Insert(d, queue[1..], id)
  }

  lemma FrontKeepsOrder(s: State, first: DeliveryId, rest: seq<DeliveryId>)
    requires first in s.deliveries && first !in rest && forall q :: q in rest ==> q in s.deliveries && CreatedAt(s, first) <= CreatedAt(s, q)
    requires Distinct(rest) && OldestFirst(s, rest)
    ensures Distinct([first] + rest) && OldestFirst(s, [first] + rest)
  {
    var all := [first] + rest;
    assert forall j :: 1 <= j < |all| ==> all[j] == rest[j - 1] && all[j] in rest;
  }

  lemma {:induction false} InsertKeepsOrder(s: State, queue: seq<DeliveryId>, id: DeliveryId)
    requires id in s.deliveries && id !in queue && forall q :: q in queue ==> q in s.deliveries
    requires Distinct(queue) && OldestFirst(s, queue)
    ensures forall q :: q in Insert(s.deliveries, queue, id) <==> q in queue || q == id
    ensures Distinct(Insert(s.deliveries, queue, id)) && OldestFirst(s, Insert(s.deliveries, queue, id))
    ensures |Insert(s.deliveries, queue, id)| == |queue| + 1
  {
    if queue != [] && CreatedAt(s, id) >= CreatedAt(s, queue[0]) {
      var tail := queue[1..];
      TailKeepsOrder(s, queue);
      hide Distinct, OldestFirst;
      InsertKeepsOrder(s, tail, id);
      FrontKeepsOrder(s, queue[0], Insert(s.deliveries, tail, id));
    } else {
      assert forall q :: q in queue ==> CreatedAt(s, id) <= CreatedAt(s, q);
      FrontKeepsOrder(s, id, queue);
    }
  }

  lemma TailKeepsOrder(s: State, queue: seq<DeliveryId>)
    requires queue != [] && (forall q :: q in queue ==> q in s.deliveries) && Distinct(queue) && OldestFirst(s, queue)
    ensures var tail := queue[1..];
      && Distinct(tail) && OldestFirst(s, tail) && queue[0] !in tail
      && (forall q :: q in queue <==> q == queue[0] || q in tail)
      && (forall q :: q in tail ==> CreatedAt(s, queue[0]) <= CreatedAt(s, q))
  {
    var tail := queue[1..];
    assert queue == [queue[0]] + tail;
    assert forall j :: 0 <= j < |tail| ==> tail[j] == queue[j + 1];
  }

  function CreatedAt(s: State, id: DeliveryId): Time
    requires id in s.deliveries
  {
    s.deliveries[id].createdAt
  }

  class Engine {
    var settings: Settings
    var conditions: map<Key, Condition>
    var deliveries: map<DeliveryId, Delivery>
    var disk: State // the state file
    var scanning: bool
    var batch: seq<DeliveryId>
    var inFlight: set<DeliveryId>
    ghost var log: History

    function Memory(): State
      reads this
    {
      State(conditions, deliveries)
    }

    ghost function View(): World
      reads this
    {
      World(Memory(), disk, settings, scanning, batch, inFlight, log)
    }

    constructor (file: State, cfg: Settings)
      ensures View() == Boot(file, cfg)
    {
      settings, disk, scanning, batch, inFlight, log := cfg, file, false, [], {}, Start;
      conditions, deliveries := file.conditions, file.deliveries;
    }

    /** Writes the state file; a write may also reach the disk and be reported as failed. */
    method Persist(write: Write) returns (ok: bool)
      modifies `disk, `log
      ensures ok == write.Saved?
      ensures disk == OnDisk(old(disk), Memory(), write)
      ensures log == Noted(old(log), Memory(), write)
    {
      if !write.Lost? {
        disk := Memory();
      }
      log := Noted(log, Memory(), write);
      ok := write.Saved?;
    }

    /** Looks for a start time that no retained delivery of k uses. */
    method FreshActivation(k: Key, start: Time, now: Time) returns (t: Time)
      ensures t == FirstFree(Taken(Memory(), k), start, now)
    {
      ghost var taken := Taken(Memory(), k);
      t := start;
      while true
        invariant FirstFree(taken, t, now) == FirstFree(taken, start, now)
        decreases Ahead(taken, t)
      {
        var collision := false;
        var rest := deliveries.Keys;
        while rest != {} && !collision
          invariant rest <= deliveries.Keys
          invariant collision ==> t in taken
          invariant !collision ==> forall id :: id in deliveries && id.key == k && id.activation == t ==> id in rest
          decreases rest
        {
          var id :| id in rest;
          rest := rest - {id};
          collision := id.key == k && id.activation == t;
        }
        if !collision {
          assert t !in taken;
          return;
        }
        assert t in Ahead(taken, t) && Ahead(taken, Bump(t, now)) <= Ahead(taken, t);
        if t < now {
          t := now;
        } else {
          t := t + 1;
        }
      }
    }

    /** Queues a delivery for condition k unless it has a record already. */
    method Enqueue(k: Key, kind: Kind, now: Time)
      requires k in conditions
      modifies `deliveries
      ensures deliveries == Alerting.Enqueue(old(deliveries), {IdOf(k, kind, conditions[k])}, now)
    {
      var id := IdOf(k, kind, conditions[k]);
      if id in deliveries {
        assert deliveries == Alerting.Enqueue(deliveries, {id}, now);
        return;
      }
      deliveries := deliveries[id := Fresh(now)];
    }

    /** The condition a signal leads to: refreshed, or newly active under an identity not used before. */
    method Activate(p: Policy, k: Key, now: Time) returns (c: Condition)
      requires k in p.signals
      ensures c == Activated(Memory(), p, k, now)
    {
      var signal := p.signals[k];
      var firstSeen;
      if k in conditions && conditions[k].active {
        firstSeen := conditions[k].firstSeen;
      } else {
        firstSeen := if signal.startedAt.None? || signal.startedAt.value > now then now else signal.startedAt.value;
        if k in conditions && firstSeen <= conditions[k].lastSeen {
          firstSeen := now;
          if firstSeen <= conditions[k].firstSeen {
            firstSeen := conditions[k].firstSeen + 1;
          }
        }
        firstSeen := FreshActivation(k, firstSeen, now);
      }
      c := Condition(signal.host, signal.ackKey, firstSeen, now, true, signal.suppressEscalation);
    }

    /** One signal: activate or refresh its condition, then queue what it calls for. */
    method IngestOne(p: Policy, k: Key, now: Time)
      requires k in Ready(p)
      modifies `conditions, `deliveries
      ensures Memory() == Ingest(old(Memory()), p, now, settings, {k})
    {
      hide Activated, Ingest;
      ghost var before := Memory();
      var c := Activate(p, k, now);
      IngestOneIs(before, p, k, now, settings);
      conditions := conditions[k := c];
      if c.host !in p.maintenance {
        Enqueue(k, Critical, now);
        var initial := deliveries[IdOf(k, Critical, c)];
        if && !c.suppressEscalation
           && (settings.escalationHours == 4 || settings.escalationHours == 24)
           && initial.deliveredAt.Some?
           && (c.ackKey == "" || c.ackKey !in p.acked)
           && now - c.firstSeen >= settings.escalationHours * HOUR {
          Enqueue(k, Escalation, now);
        }
      }
    }

    /** Visits the trusted signals in any order. */
    method IngestSignals(p: Policy, now: Time)
      modifies `conditions, `deliveries
      ensures Memory() == Ingested(old(Memory()), p, now, settings)
    {
      ghost var before := Memory();
      var rest := p.signals.Keys;
      ghost var done: set<Key> := {};
      assert Memory() == Ingest(before, p, now, settings, done);
      while rest != {}
        invariant rest <= p.signals.Keys
        invariant done == Ready(p) - rest
        invariant Memory() == Ingest(before, p, now, settings, done)
        decreases rest
      {
        var k :| k in rest;
        rest := rest - {k};
        if !p.signals[k].sourceUnready {
          IngestOne(p, k, now);
          IngestStep(before, p, now, settings, done, k);
          done := done + {k};
        }
      }
      assert done == Ready(p);
    }

    /** Visits the active conditions in any order and closes those that are gone for certain. */
    method RecoverAbsent(p: Policy, now: Time)
      modifies `conditions, `deliveries
      ensures Memory() == Recover(old(Memory()), p, now, old(conditions).Keys)
    {
      ghost var before := Memory();
      var rest := conditions.Keys;
      ghost var done: set<Key> := {};
      NothingRecovered(before, p, now);
      hide Recover, RecoveryIds, Unsent;
      while rest != {}
        invariant rest <= before.conditions.Keys
        invariant done == before.conditions.Keys - rest
        invariant Memory() == Recover(before, p, now, done)
        decreases rest
      {
        var k :| k in rest;
        rest := rest - {k};
        RecoverStep(before, p, now, done, k);
        var c := conditions[k];
        if c.active && k !in p.signals && (p.sourceReady || c.host in p.recoveryReady) {
          conditions := conditions[k := c.(active := false, lastSeen := now)];
          var initial := IdOf(k, Critical, c);
          if initial in deliveries {
            if deliveries[initial].deliveredAt.Some? {
              Enqueue(k, Recovery, now);
            } else {
              deliveries := deliveries - {initial};
            }
          }
        }
        done := done + {k};
      }
      assert done == before.conditions.Keys;
    }

    method DropExpiredConditions(now: Time)
      modifies `conditions
      ensures Memory() == PruneConditions(old(Memory()), now, old(conditions).Keys)
    {
      ghost var before := Memory();
      var rest := conditions.Keys;
      assert Memory() == PruneConditions(before, now, {});
      while rest != {}
        invariant rest <= conditions.Keys
        invariant deliveries == before.deliveries
        invariant Memory() == PruneConditions(before, now, before.conditions.Keys - rest)
        decreases rest
      {
        var k :| k in rest;
        rest := rest - {k};
        if !conditions[k].active && now - conditions[k].lastSeen > RETENTION {
          conditions := conditions - {k};
        }
      }
      assert before.conditions.Keys - rest == before.conditions.Keys;
    }

    method DropExpiredDeliveries(now: Time)
      modifies `deliveries
      ensures Memory() == PruneDeliveries(old(Memory()), now, old(deliveries).Keys)
    {
      ghost var before := Memory();
      var rest := deliveries.Keys;
      assert Memory() == PruneDeliveries(before, now, {});
      while rest != {}
        invariant rest <= deliveries.Keys && rest <= before.deliveries.Keys
        invariant Memory() == PruneDeliveries(before, now, before.deliveries.Keys - rest)
        decreases rest
      {
        var id :| id in rest;
        assert before.deliveries.Keys - rest == before.deliveries.Keys - (rest - {id}) - {id};
        rest := rest - {id};
        var item := deliveries[id];
        PruneStep(before, now, before.deliveries.Keys - rest - {id}, id);
        assert before.deliveries.Keys - rest - {id} + {id} == before.deliveries.Keys - rest;
        var current := id.key in conditions && id.activation == conditions[id.key].firstSeen;
        if id.kind != Recovery && item.deliveredAt.None? && (!current || !conditions[id.key].active) {
          deliveries := deliveries - {id};
        } else if !(current && conditions[id.key].active) {
          if item.inactiveAt.None? {
            item := item.(inactiveAt := Some(if current then conditions[id.key].lastSeen else now));
            deliveries := deliveries[id := item];
          }
          var stamp := item.inactiveAt.value;
          if item.deliveredAt.Some? && item.deliveredAt.value > stamp {
            stamp := item.deliveredAt.value;
          }
          if now - stamp > RETENTION {
            deliveries := deliveries - {id};
          }
        }
      }
      assert before.deliveries.Keys - rest == before.deliveries.Keys;
    }

    /** The batch of a scan: eligible records, oldest first, cut to size. */
    method CollectDue(p: Policy, now: Time) returns (due: seq<DeliveryId>)
      ensures IsBatch(Memory(), p, now, due)
    {
      due := [];
      var rest := deliveries.Keys;
      while rest != {}
        invariant rest <= deliveries.Keys
        invariant forall id :: id in due ==> id in deliveries
        invariant forall id :: id in due <==> id !in rest && Eligible(Memory(), id, p, now)
        invariant Distinct(due) && OldestFirst(Memory(), due)
        decreases rest
      {
        var id :| id in rest;
        rest := rest - {id};
        if Eligible(Memory(), id, p, now) {
          InsertKeepsOrder(Memory(), due, id);
          due := Insert(deliveries, due, id);
        }
      }
      if |due| > MAX_BATCH {
        ghost var all := due;
        due := due[..MAX_BATCH];
        assert forall id :: id in due ==> id in all;
        assert forall m :: 0 <= m < |due| ==> due[m] == all[m] && all[m] in due;
        forall id, other | Eligible(Memory(), id, p, now) && id !in due && other in due
          ensures deliveries[other].createdAt <= deliveries[id].createdAt
        {
          var i :| 0 <= i < |all| && all[i] == id;
          var j :| 0 <= j < |due| && due[j] == other;
          assert all[j] == other;
        }
      }
    }

    /** The locked part of a scan. */
    method ReconcileState(p: Policy, now: Time)
      modifies `conditions, `deliveries
      ensures Memory() == Reconcile(old(Memory()), p, now, settings)
    {
      IngestSignals(p, now);
      RecoverAbsent(p, now);
      DropExpiredConditions(now);
      DropExpiredDeliveries(now);
    }

    /** A scan up to its first send. `None` stands for an unreadable acknowledgement store. */
    method Scan(policy: Option<Policy>, now: Time, write: Write) returns (due: seq<DeliveryId>)
      requires !scanning
      modifies this
      ensures Enabled(old(View()), Action.Scan(policy, now, due, write))
      ensures View() == Apply(old(View()), Action.Scan(policy, now, due, write))
    {
      hide Reconcile, QueuedBy, IsBatch;
      due := [];
      if !settings.enabled || policy.None? {
        return;
      }
      ghost var before := Memory();
      ReconcileState(policy.value, now);
      log := Then(log, Queued(QueuedBy(before, policy.value, now, settings)));
      var ok := Persist(write);
      if !ok {
        return;
      }
      due := CollectDue(policy.value, now);
      batch, scanning := due, due != [];
    }

    /** Work skipped because the scan was cancelled. */
    method Skip()
      requires batch != []
      modifies `batch
      ensures View() == Apply(old(View()), Action.Skip)
    {
      batch := batch[1..];
    }

    /** Claims the next record under the latest policy and lets its request go out. */
    method Claim(latest: Policy, write: Write)
      requires batch != [] && |inFlight| < MAX_IN_FLIGHT
      modifies this
      ensures View() == Apply(old(View()), Action.Claim(latest, write))
    {
      var id := batch[0];
      if id !in deliveries || !Allowed(Memory(), id, latest) {
        batch := batch[1..];
        return;
      }
      var item := deliveries[id];
      ghost var before := deliveries;
      deliveries := deliveries[id := item.(attempts := item.attempts + 1)];
      var ok := Persist(write); // durable before the request
      if !ok {
        deliveries := deliveries[id := item];
        assert deliveries == before;
        batch := [];
        return;
      }
      batch, inFlight := batch[1..], inFlight + {id};
      log := Then(log, Sent(id, item.attempts + 1));
    }

    /** The policy could not be read, or the scan was cancelled while waiting for a slot. */
    method Stop()
      requires scanning
      modifies `batch
      ensures View() == Apply(old(View()), Action.Stop)
    {
      batch := [];
    }

    /** Base delay doubled per attempt, up to an hour; no doubled value reaches two hours. */
    method BackOff(attempts: nat) returns (delay: int)
      ensures delay == RetryDelay(settings, attempts)
    {
      delay := settings.retryBaseSeconds * SECOND;
      ghost var base := delay;
      var n := 1;
      while n < attempts && delay < HOUR
        invariant 1 <= n && (n == 1 || n <= attempts)
        invariant delay == Doubled(base, n - 1)
        invariant n > 1 ==> delay < 2 * HOUR
        decreases attempts - n
      {
        delay := delay * 2;
        n := n + 1;
      }
      if n < attempts {
        DoublingStaysPast(base, n - 1, attempts - 1);
      }
      if delay > HOUR {
        delay := HOUR;
      }
    }

    /** A request came back. */
    method Finish(id: DeliveryId, result: SendResult, finished: Time, write: Write)
      requires id in inFlight
      modifies this
      ensures View() == Apply(old(View()), Action.Finish(id, result, finished, write))
    {
      inFlight := inFlight - {id};
      if result.Accepted? {
        log := Then(log, Succeeded(id));
      }
      if id !in deliveries || deliveries[id].deliveredAt.Some? {
        return;
      }
      var item := deliveries[id];
      match result {
        case Accepted =>
          item := item.(deliveredAt := Some(finished), failedAt := None);
        case Refused(permanent) =>
          item := item.(failedAt := Some(finished));
          if permanent || item.attempts >= settings.retryMax {
            item := item.(deadLetter := true);
          } else {
            var delay := BackOff(item.attempts);
            item := item.(nextAttempt := finished + delay);
          }
      }
      deliveries := deliveries[id := item];
      var _ := Persist(write);
    }

    method EndScan()
      requires scanning && batch == [] && inFlight == {}
      modifies `scanning
      ensures View() == Apply(old(View()), Action.EndScan)
    {
      scanning := false;
    }

    /** New settings; a changed target or a re-enabled engine revives the dead letters. */
    method UpdateConfig(cfg: Settings, valid: bool, now: Time, write: Write) returns (ok: bool)
      requires !scanning
      modifies this
      ensures View() == Apply(old(View()), Action.Update(cfg, valid, now, write))
      ensures ok == (valid && write.Saved?)
    {
      if !valid {
        return false;
      }
      var oldCfg, oldDeliveries := settings, deliveries;
      ghost var before := Memory();
      ghost var ids := Revivable(before, settings, cfg);
      var urlChanged := cfg.url != settings.url;
      var reactivated := !settings.enabled && cfg.enabled;
      settings := cfg;
      if urlChanged || reactivated {
        var rest := deliveries.Keys;
        assert Memory() == Revive(before, ids - rest, now);
        while rest != {}
          invariant rest <= deliveries.Keys
          invariant conditions == before.conditions
          invariant Memory() == Revive(before, ids - rest, now)
          modifies `deliveries
          decreases rest
        {
          var id :| id in rest;
          rest := rest - {id};
          if deliveries[id].deadLetter && deliveries[id].deliveredAt.None? {
            deliveries := deliveries[id := deliveries[id].(deadLetter := false, attempts := 0,
                                                           failedAt := None, nextAttempt := now)];
          }
        }
        assert ids - rest == ids;
      } else {
        assert Memory() == Revive(before, ids, now);
      }
      assert Memory() == Revive(before, ids, now);
      if !write.Lost? {
        log := Then(log, Reset(ids));
      }
      ok := Persist(write);
      if !ok {
        settings, deliveries := oldCfg, oldDeliveries;
      }
    }

    /** The process died and starts again from the state file. */
    method Restart(cfg: Settings)
      modifies this
      ensures View() == Apply(old(View()), Action.Crash(cfg))
    {
      settings, scanning, batch, inFlight := cfg, false, [], {};
      conditions, deliveries := disk.conditions, disk.deliveries;
      log := Then(log, Crashed);
    }
  }

  // ----- Steps of the loops -------------------------------------------------

  /** What ingesting a single signal amounts to. */
  lemma IngestOneIs(s: State, p: Policy, k: Key, now: Time, cfg: Settings)
    requires k in Ready(p)
    ensures var c := Activated(s, p, k, now);
      var queued := Alerting.Enqueue(s.deliveries, {IdOf(k, Critical, c)}, now);
      Ingest(s, p, now, cfg, {k}) ==
        State(s.conditions[k := c],
              if c.host in p.maintenance then s.deliveries
              else if EscalationDue(s, p, k, c, now, cfg) then Alerting.Enqueue(queued, {IdOf(k, Escalation, c)}, now)
              else queued)
  {
    var c := Activated(s, p, k, now);
    var critical, escalation := IdOf(k, Critical, c), IdOf(k, Escalation, c);
    var wanted := IngestedIds(s, p, now, cfg, {k});
    assert wanted == if c.host in p.maintenance then {}
                     else if EscalationDue(s, p, k, c, now, cfg) then {critical, escalation}
                     else {critical} by {
      forall id ensures id in wanted <==> && id.key == k && id.kind != Recovery && Wants(s, p, k, id.kind, now, cfg)
                                          && id.activation == c.firstSeen {
        IngestedIdsAre(s, p, now, cfg, {k}, id);
      }
    }
    assert Ingest(s, p, now, cfg, {k}).conditions == s.conditions[k := c];
    var queued := Alerting.Enqueue(s.deliveries, {critical}, now);
    if c.host in p.maintenance {
      assert Alerting.Enqueue(s.deliveries, {}, now) == s.deliveries;
    } else if EscalationDue(s, p, k, c, now, cfg) {
      assert Alerting.Enqueue(s.deliveries, {critical, escalation}, now) == Alerting.Enqueue(queued, {escalation}, now);
    }
  }

  /** Ingesting other keys leaves everything ingesting k looks at as it was. */
  lemma IngestIsLocal(s: State, p: Policy, now: Time, cfg: Settings, done: set<Key>, k: Key)
    requires k !in done && k in Ready(p)
    ensures var t := Ingest(s, p, now, cfg, done);
      Existing(t, k) == Existing(s, k) && Activated(t, p, k, now) == Activated(s, p, k, now)
    ensures forall kind :: Wants(Ingest(s, p, now, cfg, done), p, k, kind, now, cfg) == Wants(s, p, k, kind, now, cfg)
  {
    var t := Ingest(s, p, now, cfg, done);
    forall id: DeliveryId | id.key == k
      ensures id in t.deliveries <==> id in s.deliveries
      ensures id in s.deliveries ==> t.deliveries[id] == s.deliveries[id]
    {
      IngestedIdsAre(s, p, now, cfg, done, id);
    }
    assert Taken(t, k) == Taken(s, k);
  }

  lemma IngestedAddUp(s: State, p: Policy, now: Time, cfg: Settings, done: set<Key>, k: Key)
    requires k !in done && k in Ready(p)
    ensures IngestedIds(s, p, now, cfg, done + {k}) ==
              IngestedIds(s, p, now, cfg, done) + IngestedIds(Ingest(s, p, now, cfg, done), p, now, cfg, {k})
  {
    hide IngestedIds;
    var t := Ingest(s, p, now, cfg, done);
    IngestIsLocal(s, p, now, cfg, done, k);
    forall id
      ensures id in IngestedIds(s, p, now, cfg, done + {k}) <==>
                id in IngestedIds(s, p, now, cfg, done) || id in IngestedIds(t, p, now, cfg, {k})
    {
      IngestedIdsAre(s, p, now, cfg, done, id);
      IngestedIdsAre(s, p, now, cfg, done + {k}, id);
      IngestedIdsAre(t, p, now, cfg, {k}, id);
    }
  }

  /** Ingesting k after the keys of `done` is ingesting them together: the order does not matter. */
  lemma IngestStep(s: State, p: Policy, now: Time, cfg: Settings, done: set<Key>, k: Key)
    requires k !in done && k in Ready(p)
    ensures Ingest(Ingest(s, p, now, cfg, done), p, now, cfg, {k}) == Ingest(s, p, now, cfg, done + {k})
  {
    hide IngestedIds, Activated;
    var t := Ingest(s, p, now, cfg, done);
    IngestIsLocal(s, p, now, cfg, done, k);
    IngestedAddUp(s, p, now, cfg, done, k);
    var first, last := IngestedIds(s, p, now, cfg, done), IngestedIds(t, p, now, cfg, {k});
    EnqueueTwice(s.deliveries, first, last, now);
    assert Ingest(t, p, now, cfg, {k}).conditions == Ingest(s, p, now, cfg, done + {k}).conditions;
  }

  lemma EnqueueTwice(m: map<DeliveryId, Delivery>, first: set<DeliveryId>, last: set<DeliveryId>, now: Time)
    ensures Alerting.Enqueue(Alerting.Enqueue(m, first, now), last, now) == Alerting.Enqueue(m, first + last, now)
  {
  }

  /** Recovering other keys leaves k and its deliveries as they were. */
  lemma RecoverIsLocal(s: State, p: Policy, now: Time, done: set<Key>, k: Key, id: DeliveryId)
    requires k !in done && id.key == k
    ensures var t := Recover(s, p, now, done);
      && Existing(t, k) == Existing(s, k)
      && (id in t.deliveries <==> id in s.deliveries)
      && (id in s.deliveries ==> t.deliveries[id] == s.deliveries[id])
  {
    RecoveryIdsAre(s, p, done, id);
    UnsentAre(s, p, done, id);
  }

  lemma NothingRecovered(s: State, p: Policy, now: Time)
    ensures Recover(s, p, now, {}) == s
  {
  }

  /** One more condition visited by the recovery loop. */
  lemma RecoverStep(s: State, p: Policy, now: Time, done: set<Key>, k: Key)
    requires k !in done && k in s.conditions
    ensures var t := Recover(s, p, now, done);
      && Existing(t, k) == Some(s.conditions[k])
      && (CriticalOf(s, k) in t.deliveries <==> CriticalOf(s, k) in s.deliveries)
      && (Delivered(t, CriticalOf(s, k)) <==> Delivered(s, CriticalOf(s, k)))
    ensures var t := Recover(s, p, now, done);
      Recover(s, p, now, done + {k}) ==
        if !Absent(s, p, k) then t
        else State(t.conditions[k := s.conditions[k].(active := false, lastSeen := now)],
                   if Delivered(s, CriticalOf(s, k))
                   then Alerting.Enqueue(t.deliveries, {IdOf(k, Recovery, s.conditions[k])}, now)
                   else t.deliveries - {CriticalOf(s, k)})
  {
    hide RecoveryIds, Unsent;
    var t, u := Recover(s, p, now, done), Recover(s, p, now, done + {k});
    var critical := CriticalOf(s, k);
    var more := if Absent(s, p, k) && Delivered(s, critical) then {IdOf(k, Recovery, s.conditions[k])} else {};
    var less := if Absent(s, p, k) && !Delivered(s, critical) then {critical} else {};
    RecoverIsLocal(s, p, now, done, k, critical);
    RecoverSets(s, p, done, k);
    EnqueueThenDrop(s.deliveries, RecoveryIds(s, p, done), more, Unsent(s, p, done), less, now);
    EnqueueNothing(t.deliveries, now);
    if Absent(s, p, k) {
      assert u.conditions == t.conditions[k := s.conditions[k].(active := false, lastSeen := now)];
    } else {
      assert u.conditions == t.conditions;
    }
  }

  lemma RecoverSets(s: State, p: Policy, done: set<Key>, k: Key)
    requires k !in done && k in s.conditions
    ensures RecoveryIds(s, p, done + {k}) == RecoveryIds(s, p, done) +
              if Absent(s, p, k) && Delivered(s, CriticalOf(s, k)) then {IdOf(k, Recovery, s.conditions[k])} else {}
    ensures Unsent(s, p, done + {k}) == Unsent(s, p, done) +
              if Absent(s, p, k) && !Delivered(s, CriticalOf(s, k)) then {CriticalOf(s, k)} else {}
    ensures IdOf(k, Recovery, s.conditions[k]) !in Unsent(s, p, done)
  {
    forall id
      ensures id in RecoveryIds(s, p, done + {k}) <==>
              (id in RecoveryIds(s, p, done)
               || (Absent(s, p, k) && Delivered(s, CriticalOf(s, k)) && id == IdOf(k, Recovery, s.conditions[k])))
      ensures id in Unsent(s, p, done + {k}) <==>
              (id in Unsent(s, p, done)
               || (Absent(s, p, k) && !Delivered(s, CriticalOf(s, k)) && id == CriticalOf(s, k)))
    {
      RecoveryIdsAre(s, p, done, id);
      RecoveryIdsAre(s, p, done + {k}, id);
      UnsentAre(s, p, done, id);
      UnsentAre(s, p, done + {k}, id);
    }
    UnsentAre(s, p, done, IdOf(k, Recovery, s.conditions[k]));
  }

  lemma EnqueueNothing(m: map<DeliveryId, Delivery>, now: Time)
    ensures Alerting.Enqueue(m, {}, now) == m
  {
  }

  lemma EnqueueThenDrop(m: map<DeliveryId, Delivery>, first: set<DeliveryId>, more: set<DeliveryId>,
                        drop: set<DeliveryId>, less: set<DeliveryId>, now: Time)
    requires more !! drop
    ensures Alerting.Enqueue(m, first + more, now) - (drop + less)
         == Alerting.Enqueue(Alerting.Enqueue(m, first, now) - drop, more, now) - less
  {
    var a := Alerting.Enqueue(m, first + more, now) - (drop + less);
    var b := Alerting.Enqueue(Alerting.Enqueue(m, first, now) - drop, more, now) - less;
    assert a.Keys == b.Keys;
  }

  /** One more record visited by the pruning loop. */
  lemma PruneStep(s: State, now: Time, done: set<DeliveryId>, id: DeliveryId)
    requires id in s.deliveries && id !in done
    ensures var t := PruneDeliveries(s, now, done);
      id in t.deliveries && t.deliveries[id] == s.deliveries[id] && t.conditions == s.conditions
    ensures var kept := PruneOne(s.conditions, id, s.deliveries[id], now);
      PruneDeliveries(s, now, done + {id}).deliveries ==
        var t := PruneDeliveries(s, now, done).deliveries;
        if kept.None? then t - {id} else t[id := kept.value]
  {
  }

  lemma {:induction false} DoublingStaysPast(base: nat, m: nat, n: nat)
    requires m <= n && Doubled(base, m) >= HOUR
    ensures Doubled(base, n) >= HOUR
  {
    if m < n {
      DoublingStaysPast(base, m, n - 1);
    }
  }
}
