/** From a fault reading on a device to the notification engine's condition, over whole runs of both. */
module EndToEnd {
  import opened Base
  import opened Alerting
  import opened AlertingReconcile
  import opened AlertingWorld
  import opened AlertingBounds
  import opened Devices
  import opened EdgeFaults

  /** The policy was read from a device list that contains d, next to any other devices and signals. */
  ghost predicate ReadFrom(p: Policy, d: Device) {
    exists devices: seq<Device>, extra: seq<KeyedSignal>, r: Option<Readiness> ::
      d in devices && p.signals == CurrentSignals(SignalsOf(devices, r) + extra)
  }

  /** The identity of a fault in the engine: fixed by the round that latched it. */
  function FaultKey(host: string, f: Fault): Key {
    AlertKey(host, Item(f, true))
  }

  lemma PublishedFaultIsSeen(p: Policy, d: Device, f: Fault, observed: bool)
    requires ReadFrom(p, d) && d.host != "" && Item(f, observed) in d.alerts && f.name != STATE_ALERT
    ensures FaultKey(d.host, f) in p.signals
  {
    var devices: seq<Device>, extra: seq<KeyedSignal>, r: Option<Readiness> :|
      d in devices && p.signals == CurrentSignals(SignalsOf(devices, r) + extra);
    AlertReachesEngine(devices, extra, r, d, Item(f, observed));
  }

  /**
    The step before: a fault that is not active yet becomes active in a scan exactly if the worker is
    ready and the fault was observed in this very round, so latched evidence alone never alarms anew.
   */
  lemma OnlyObservedFaultsActivate(s: State, p: Policy, now: Time, cfg: Settings, devices: seq<Device>,
                                   extra: seq<KeyedSignal>, r: Readiness, d: Device, f: Fault, observed: bool)
    requires p.signals == CurrentSignals(SignalsOf(devices, Some(r)) + extra)
    requires d.host != "" && d.host in r.edgeHosts && f.name != STATE_ALERT
    requires Item(f, observed) in d.alerts && Agreed(d, Item(f, observed), observed)
    requires OnlyFrom(devices, extra, d, FaultKey(d.host, f)) && !ActiveIn(s, FaultKey(d.host, f))
    ensures ActiveIn(Reconcile(s, p, now, cfg), FaultKey(d.host, f)) <==> r.edgeWorkerReady && observed
  {
    EdgeAuthority(devices, extra, r, d, Item(f, observed), observed);
    ConditionAfter(s, p, now, cfg, FaultKey(d.host, f));
  }

  // ----- NAS ----------------------------------------------------------------

  /** Every scan of the window looks at a round published no earlier than i and before j. */
  ghost predicate NasFeeds(host: string, rounds: seq<NasRound>, i: nat, j: nat, acts: seq<Action>)
    requires i <= j <= |rounds|
  {
    forall a :: a in acts && a.Scan? && a.policy.Some? ==>
      exists n :: i <= n < j && ReadFrom(a.policy.value, PublishedAt(host, rounds, n))
  }

  lemma NasFaultIsWatched(host: string, rounds: seq<NasRound>, i: nat, j: nat, o: Oid, acts: seq<Action>)
    requires host != "" && 0 < i <= j <= |rounds|
    requires Latched(StaticAt(rounds, i), o).Some? && NeverGood(rounds, i, j, o)
    requires Latched(StaticAt(rounds, i), o).value.name != STATE_ALERT
    requires NasFeeds(host, rounds, i - 1, j, acts)
    ensures Watched(acts, FaultKey(host, Latched(StaticAt(rounds, i), o).value))
  {
    var f := Latched(StaticAt(rounds, i), o).value;
    forall a | a in acts && a.Scan? && a.policy.Some?
      ensures FaultKey(host, f) in a.policy.value.signals
    {
      var n :| i - 1 <= n < j && ReadFrom(a.policy.value, PublishedAt(host, rounds, n));
      FaultIsPublished(host, rounds, i, n, o);
      var observed :| Item(f, observed) in PublishedAt(host, rounds, n).alerts;
      PublishedFaultIsSeen(a.policy.value, PublishedAt(host, rounds, n), f, observed);
    }
  }

  /** Faults carry the names the pollers give them, never that of the device-state alert. */
  lemma {:induction false} NasFaultNames(rounds: seq<NasRound>, n: nat, o: Oid)
    requires n <= |rounds| && Latched(StaticAt(rounds, n), o).Some?
    ensures Latched(StaticAt(rounds, n), o).value.name in {"DISK_FAULT", "RAID_DEGRADED", "RAID_CRASHED", "NAS_HARDWARE_FAULT"}
  {
    LifeKeepsInventory(rounds, n - 1);
    RoundLatches(StaticAt(rounds, n - 1), rounds[n - 1], o);
    if Latched(StaticAt(rounds, n - 1), o).Some? {
      NasFaultNames(rounds, n - 1, o);
    }
  }

  /** The NAS answered in round n and read a number for o that sets a fault. */
  predicate ReadBad(rounds: seq<NasRound>, n: nat, o: Oid)
    requires n < |rounds|
  {
    var r, after := rounds[n], StaticAt(rounds, n + 1);
    && r.reachable && o in r.readings && after.Some? && Covers(after.value, o)
    && match o
       case DiskStat(_) => 3 <= r.readings[o] <= 5
       case RaidStat(_) => r.readings[o] == 11 || r.readings[o] == 12
       case _ => r.readings[o] == 2
  }

  /** The NAS answered and read a number for o that clears its fault. */
  predicate ReadGood(r: NasRound, o: Oid) {
    && r.reachable && o in r.readings
    && (r.readings[o] == 1 || (o.DiskStat? && r.readings[o] == 2))
  }

  lemma ReadMeans(rounds: seq<NasRound>, n: nat, o: Oid)
    requires n < |rounds|
    ensures var v := RoundVerdict(StaticAt(rounds, n), rounds[n], o);
      (ReadBad(rounds, n, o) ==> v.Bad? && v.name != "") && (v == Healthy ==> ReadGood(rounds[n], o))
  {
    hide Judge, Observed, Inventory, FaultRead, Objects;
    if rounds[n].reachable {
      JudgedByNumber(Inventory(StaticAt(rounds, n), rounds[n]), o, rounds[n]);
      SameNumbers(StaticAt(rounds, n), rounds[n], o);
    }
  }

  /**
    End to end. Object o of a NAS read a fault's number in round i (a disk 3 to 5, a RAID set 11 or 12, other
    hardware 2) and in no later round before j a good one. While the engine's scans look at those rounds,
    the condition of that fault, once active, stays active under the same activation through every step and
    failed write of the process, which is the poller's life too.
   */
  lemma NasFaultStaysActive(host: string, rounds: seq<NasRound>, i: nat, j: nat, o: Oid,
                            ws: seq<World>, acts: seq<Action>, m: nat, n: nat)
    requires host != "" && i < j <= |rounds|
    requires ReadBad(rounds, i, o) && forall x :: i < x < j ==> !ReadGood(rounds[x], o)
    requires IsRun(ws, acts) && m <= n <= |acts| && NasFeeds(host, rounds, i, j, acts[m..n])
    ensures Latched(StaticAt(rounds, i + 1), o).Some?
    ensures var k := FaultKey(host, Latched(StaticAt(rounds, i + 1), o).value);
      && (OneLife(acts[m..n]) && ActiveIn(ws[m].mem, k) ==>
            ActiveIn(ws[n].mem, k) && ws[n].mem.conditions[k].firstSeen == ws[m].mem.conditions[k].firstSeen)
      && (ActiveIn(ws[m].mem, k) && ActiveIn(ws[m].disk, k) ==> ActiveIn(ws[n].mem, k) && ActiveIn(ws[n].disk, k))
  {
    hide StaticAt, RoundVerdict, ReadGood, ReadBad, Latched;
    ReadMeans(rounds, i, o);
    forall x | i + 1 <= x < j ensures RoundVerdict(StaticAt(rounds, x), rounds[x], o) != Healthy { ReadMeans(rounds, x, o); }
    CriticalIsLatched(rounds, i, o);
    NasFaultNames(rounds, i + 1, o);
    NasFaultIsWatched(host, rounds, i + 1, j, o, acts[m..n]);
    WatchedLasts(ws, acts, m, n, FaultKey(host, Latched(StaticAt(rounds, i + 1), o).value));
  }

  lemma WatchedLasts(ws: seq<World>, acts: seq<Action>, m: nat, n: nat, k: Key)
    requires IsRun(ws, acts) && m <= n <= |acts| && Watched(acts[m..n], k)
    ensures OneLife(acts[m..n]) && ActiveIn(ws[m].mem, k) ==>
              ActiveIn(ws[n].mem, k) && ws[n].mem.conditions[k].firstSeen == ws[m].mem.conditions[k].firstSeen
    ensures ActiveIn(ws[m].mem, k) && ActiveIn(ws[m].disk, k) ==> ActiveIn(ws[n].mem, k) && ActiveIn(ws[n].disk, k)
  {
    if OneLife(acts[m..n]) && ActiveIn(ws[m].mem, k) { LifeKeepsActive(ws, acts, m, n, k); }
    if ActiveIn(ws[m].mem, k) && ActiveIn(ws[m].disk, k) { WatchedStaysActive(ws, acts, m, n, k); }
  }

  // ----- PLC ----------------------------------------------------------------

  ghost predicate PlcFeeds(host: string, rounds: seq<PlcRound>, i: nat, j: nat, acts: seq<Action>)
    requires i <= j <= |rounds|
  {
    forall a :: a in acts && a.Scan? && a.policy.Some? ==>
      exists n :: i <= n < j && ReadFrom(a.policy.value, PlcPublished(host, PlcAt(rounds, n), rounds[n]))
  }

  lemma {:induction false} PlcFaultNames(rounds: seq<PlcRound>, n: nat, l: PlcLatch)
    requires n <= |rounds| && PlcHeld(l, PlcAt(rounds, n)).Some?
    ensures PlcHeld(l, PlcAt(rounds, n)).value.name in {"PLC_ERROR", "PLC_CIP_FAULT"}
  {
    if PlcHeld(l, PlcAt(rounds, n - 1)).Some? {
      PlcFaultNames(rounds, n - 1, l);
    }
  }

  lemma PlcPublishedHost(host: string, f: PlcFaults, r: PlcRound)
    ensures PlcPublished(host, f, r).host == host
  {
  }

  /** Every scan fed from these rounds sees the fault's key. */
  lemma PlcFaultIsWatched(host: string, rounds: seq<PlcRound>, i: nat, j: nat, l: PlcLatch, acts: seq<Action>)
    requires host != "" && i < j <= |rounds| && PlcHeld(l, PlcAt(rounds, i + 1)).Some?
    requires forall x :: i < x < j ==> PlcVerdict(l, rounds[x]) != Healthy
    requires PlcFeeds(host, rounds, i, j, acts)
    ensures Watched(acts, FaultKey(host, PlcHeld(l, PlcAt(rounds, i + 1)).value))
  {
    hide PlcPublished, PlcVerdict, PlcHeld, PlcAt, ReadFrom;
    var f := PlcHeld(l, PlcAt(rounds, i + 1)).value;
    PlcFaultNames(rounds, i + 1, l);
    forall a | a in acts && a.Scan? && a.policy.Some? ensures FaultKey(host, f) in a.policy.value.signals {
      var x :| i <= x < j && ReadFrom(a.policy.value, PlcPublished(host, PlcAt(rounds, x), rounds[x]));
      PlcFaultIsPublished(host, rounds, i + 1, x, l);
      PlcPublishedHost(host, PlcAt(rounds, x), rounds[x]);
      var observed :| Item(f, observed) in PlcPublished(host, PlcAt(rounds, x), rounds[x]).alerts;
      PublishedFaultIsSeen(a.policy.value, PlcPublished(host, PlcAt(rounds, x), rounds[x]), f, observed);
    }
  }

  /** The PLC answered with a fatal error, or with a CIP major fault. */
  predicate PlcReadBad(r: PlcRound, l: PlcLatch) {
    r.readable && if l.Fins? then r.fatal else r.cip.Some? && r.cip.value.major
  }

  /** The PLC answered without it. */
  predicate PlcReadGood(r: PlcRound, l: PlcLatch) {
    r.readable && if l.Fins? then !r.fatal else r.cip.Some? && !r.cip.value.major
  }

  /** The same for a PLC: a fatal or CIP major fault of round i that no later round before j read as gone. */
  lemma PlcFaultStaysActive(host: string, rounds: seq<PlcRound>, i: nat, j: nat, l: PlcLatch,
                            ws: seq<World>, acts: seq<Action>, m: nat, n: nat)
    requires host != "" && i < j <= |rounds| && PlcReadBad(rounds[i], l)
    requires forall x :: i < x < j ==> !PlcReadGood(rounds[x], l)
    requires IsRun(ws, acts) && m <= n <= |acts| && PlcFeeds(host, rounds, i, j, acts[m..n])
    ensures PlcHeld(l, PlcAt(rounds, i + 1)).Some?
    ensures var k := FaultKey(host, PlcHeld(l, PlcAt(rounds, i + 1)).value);
      && (OneLife(acts[m..n]) && ActiveIn(ws[m].mem, k) ==>
            ActiveIn(ws[n].mem, k) && ws[n].mem.conditions[k].firstSeen == ws[m].mem.conditions[k].firstSeen)
      && (ActiveIn(ws[m].mem, k) && ActiveIn(ws[m].disk, k) ==> ActiveIn(ws[n].mem, k) && ActiveIn(ws[n].disk, k))
  {
    assert PlcHeld(l, PlcAt(rounds, i + 1)).Some?;
    PlcFaultIsWatched(host, rounds, i, j, l, acts[m..n]);
    WatchedLasts(ws, acts, m, n, FaultKey(host, PlcHeld(l, PlcAt(rounds, i + 1)).value));
  }
}
