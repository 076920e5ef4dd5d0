/** Fault latches of the NAS and PLC pollers: what a round observes, keeps and publishes. */
module EdgeFaults {
  import opened Base
  import opened Alerting
  import opened Devices

  // ----- Vocabulary ---------------------------------------------------------

  /** A fault is latched with the text and time of the round that first saw it. */
  datatype Fault = Fault(name: string, desc: string, time: string, startedAt: Option<Time>)

  /** One health object of a NAS. Disks and RAID sets are numbered as discovered. */
  datatype Oid = DiskStat(index: nat) | RaidStat(index: nat) | SystemStat | PowerStat | SystemFan | CpuFan

  datatype Verdict = Unknown | Healthy | Bad(name: string, desc: string)

  datatype Clock = Clock(text: string, parsed: Option<Time>)

  /** What one round got back: numbers parsed from replies, and the inventory replies of a refresh. */
  datatype NasRound = NasRound(reachable: bool, refresh: bool, model: string, diskNames: seq<string>,
                               raidNames: seq<string>, readings: map<Oid, int>, clock: Clock)

  datatype NasStatic = NasStatic(model: string, disks: seq<string>, raids: seq<string>, faults: map<Oid, Fault>)

  const MAX_DISKS: nat := 12
  const MAX_RAIDS: nat := 4
  const MAX_ALERTS: nat := 25
  const HARDWARE: seq<Oid> := [SystemStat, PowerStat, SystemFan, CpuFan]
  const RAID_TEXT: seq<string> :=
    ["unknown", "normal", "repairing", "migrating", "expanding", "deleting", "creating", "syncing",
     "parity checking", "assembling", "canceling", "degraded", "crashed"]

  function OidText(o: Oid): string {
    match o
    case SystemStat => "1.3.6.1.4.1.6574.1.1.0"
    case PowerStat => "1.3.6.1.4.1.6574.1.3.0"
    case SystemFan => "1.3.6.1.4.1.6574.1.4.1.0"
    case CpuFan => "1.3.6.1.4.1.6574.1.4.2.0"
    case _ => ""
  }

  function RaidText(n: int): string {
    if 1 <= n <= 12 then RAID_TEXT[n] else "unknown"
  }

  // ----- One NAS round ------------------------------------------------------

  /** Discovery stops at the first empty name, or at the limit. */
  function Discovered(names: seq<string>, limit: nat): seq<string> {
    if limit == 0 || names == [] || names[0] == "" then [] else [names[0]] + Discovered(names[1..], limit - 1)
  }

  function Refreshed(st: Option<NasStatic>, r: NasRound): NasStatic {
    var disks, raids := Discovered(r.diskNames, MAX_DISKS), Discovered(r.raidNames, MAX_RAIDS);
    if st.None? then NasStatic(r.model, disks, raids, map[])
    else
      var prev := st.value;
      NasStatic(if r.model == "" then prev.model else r.model,
                if |disks| < |prev.disks| then prev.disks else disks,
                if |raids| < |prev.raids| then prev.raids else raids,
                prev.faults)
  }

  /** The inventory a reachable round works with. */
  function Inventory(st: Option<NasStatic>, r: NasRound): NasStatic {
    if r.refresh || st.None? || st.value.model == "" then Refreshed(st, r) else st.value
  }

  predicate Covers(st: NasStatic, o: Oid) {
    match o
    case DiskStat(i) => i < |st.disks|
    case RaidStat(i) => i < |st.raids|
    case _ => true
  }

  function Judge(st: NasStatic, o: Oid, readings: map<Oid, int>): Verdict {
    if o !in readings || !Covers(st, o) then Unknown
    else
      var n := readings[o];
      match o
      case DiskStat(i) =>
        if !(1 <= n <= 5) then Unknown
        else if n == 1 || n == 2 then Healthy
        else Bad("DISK_FAULT", st.disks[i] + " abnormal")
      case RaidStat(i) =>
        if RaidText(n) == "unknown" then Unknown
        else if n == 1 then Healthy
        else Bad(if n == 11 then "RAID_DEGRADED" else if n == 12 then "RAID_CRASHED" else "",
                 st.raids[i] + " " + RaidText(n))
      case _ =>
        if n == 1 then Healthy
        else if n == 2 then Bad("NAS_HARDWARE_FAULT", OidText(o) + " failed")
        else Unknown
  }

  /** The latch: set by a named fault, cleared only by an explicitly good reading. */
  function Latch(held: Option<Fault>, v: Verdict, clock: Clock): Option<Fault> {
    match v
    case Unknown => held
    case Healthy => None
    case Bad(name, desc) =>
      if name != "" && held.None? then Some(Fault(name, desc, clock.text, clock.parsed)) else held
  }

  function FaultOf(faults: map<Oid, Fault>, o: Oid): Option<Fault> {
    if o in faults then Some(faults[o]) else None
  }

  /** The objects of an inventory, in publication order. */
  function Objects(st: NasStatic): seq<Oid> {
    seq(|st.disks|, (i: nat) => DiskStat(i)) + seq(|st.raids|, (i: nat) => RaidStat(i)) + HARDWARE
  }

  /** The latches after observing each object of `objects` in turn. */
  function Observed(st: NasStatic, objects: seq<Oid>, readings: map<Oid, int>, clock: Clock): map<Oid, Fault> {
    if objects == [] then st.faults
    else
      var init, o := objects[..|objects| - 1], objects[|objects| - 1];
      var faults := Observed(st, init, readings, clock);
      SetLatch(faults, o, Latch(FaultOf(faults, o), Judge(st, o, readings), clock))
  }

  function SetLatch(faults: map<Oid, Fault>, o: Oid, f: Option<Fault>): map<Oid, Fault> {
    if f.Some? then faults[o := f.value] else faults - {o}
  }

  function Item(f: Fault, observed: bool): AlertItem {
    AlertItem(f.name, f.desc, f.time, f.startedAt, Severe, Some(observed))
  }

  /** Every latched fault of the inventory, in order, with this round's own verdict attached. */
  function FaultAlerts(faults: map<Oid, Fault>, objects: seq<Oid>, bad: set<Oid>): seq<AlertItem> {
    if objects == [] then []
    else
      var init, o := objects[..|objects| - 1], objects[|objects| - 1];
      FaultAlerts(faults, init, bad) + if o in faults then [Item(faults[o], o in bad)] else []
  }

  function StateAlerts(down: bool, degraded: bool, clock: Clock): seq<AlertItem> {
    if down then [AlertItem(STATE_ALERT, "Device offline — no response to the collector", clock.text, clock.parsed, Severe, None)]
    else if degraded then
      [AlertItem(STATE_ALERT, "Device degraded — check hardware status", clock.text, clock.parsed, Warning, None)]
    else []
  }

  function CapAlerts(alerts: seq<AlertItem>): seq<AlertItem> {
    if |alerts| > MAX_ALERTS then alerts[..MAX_ALERTS] else alerts
  }

  function BadAmong(st: NasStatic, objects: seq<Oid>, readings: map<Oid, int>): set<Oid> {
    set o | o in objects && Judge(st, o, readings).Bad?
  }

  predicate AllRead(st: NasStatic, objects: seq<Oid>, readings: map<Oid, int>) {
    forall o :: o in objects ==> !Judge(st, o, readings).Unknown?
  }

  lemma ObjectsAre(st: NasStatic)
    ensures forall o :: o in Objects(st) <==> Covers(st, o)
    ensures Distinct(Objects(st))
    ensures |Objects(st)| == |st.disks| + |st.raids| + 4
  {
    var all := Objects(st);
    forall o | Covers(st, o) ensures o in all {
      match o
      case DiskStat(i) => assert all[i] == o;
      case RaidStat(i) => assert all[|st.disks| + i] == o;
      case _ =>
        assert o in HARDWARE;
        assert forall h :: h in HARDWARE ==> h in all;
    }
    forall o | o in all ensures Covers(st, o) {
    }
  }

  function StaticAfter(st: Option<NasStatic>, r: NasRound): Option<NasStatic> {
    if !r.reachable then st
    else
      var inv := Inventory(st, r);
      Some(inv.(faults := Observed(inv, Objects(inv), r.readings, r.clock)))
  }

  /** An undiscovered inventory, or one object not read, leaves the round incomplete. */
  predicate Complete(st: NasStatic, readings: map<Oid, int>) {
    st.disks != [] && st.raids != [] && AllRead(st, Objects(st), readings)
  }

  function Published(host: string, st: Option<NasStatic>, r: NasRound): Device {
    if !r.reachable then
      Device(host, true, "", None,
             if st.None? then StateAlerts(true, false, r.clock)
             else CapAlerts(StateAlerts(true, false, r.clock) + FaultAlerts(st.value.faults, Objects(st.value), {})))
    else
      var inv := Inventory(st, r);
      var faults := StaticAfter(st, r).value.faults;
      var bad := BadAmong(inv, Objects(inv), r.readings);
      var degraded := !Complete(inv, r.readings) || bad != {} || faults != map[];
      Device(host, false, "", None,
             CapAlerts(StateAlerts(false, degraded, r.clock) + FaultAlerts(faults, Objects(inv), bad)))
  }

  // ----- The poller ---------------------------------------------------------

  class NasPoller {
    const host: string
    var st: Option<NasStatic>

    constructor (host: string)
      ensures this.host == host && st == None
    {
      this.host := host;
      st := None;
    }

    /** One object: latch, release or leave its fault. */
    method ObserveOne(o: Oid, v: Verdict, clock: Clock)
      requires st.Some?
      modifies this
      ensures st == Some(old(st).value.(faults := SetLatch(old(st).value.faults, o, Latch(FaultOf(old(st).value.faults, o), v, clock))))
    {
      var faults := st.value.faults;
      match v {
        case Unknown =>
          assert SetLatch(faults, o, FaultOf(faults, o)) == faults;
        case Healthy =>
          st := Some(st.value.(faults := faults - {o}));
        case Bad(name, desc) =>
          if name != "" && o !in faults {
            st := Some(st.value.(faults := faults[o := Fault(name, desc, clock.text, clock.parsed)]));
          } else {
            assert SetLatch(faults, o, FaultOf(faults, o)) == faults;
          }
      }
    }

    /** Walks the inventory once: latches faults, and notes what was bad and what was not read. */
    method Observe(r: NasRound) returns (complete: bool, bad: set<Oid>)
      requires st.Some?
      modifies this
      ensures st == Some(old(st).value.(faults := Observed(old(st).value, Objects(old(st).value), r.readings, r.clock)))
      ensures complete <==> Complete(old(st).value, r.readings)
      ensures bad == BadAmong(old(st).value, Objects(old(st).value), r.readings)
    {
      var inv := st.value;
      var objects := Objects(inv);
      complete, bad := inv.disks != [] && inv.raids != [], {};
      for i := 0 to |objects|
        invariant st == Some(inv.(faults := Observed(inv, objects[..i], r.readings, r.clock)))
        invariant bad == BadAmong(inv, objects[..i], r.readings)
        invariant complete <==> inv.disks != [] && inv.raids != [] && AllRead(inv, objects[..i], r.readings)
      {
        var o := objects[i];
        assert objects[..i + 1][..i] == objects[..i];
        assert objects[..i + 1] == objects[..i] + [o];
        var v := Judge(inv, o, r.readings);
        ObserveOne(o, v, r.clock);
        complete := complete && !v.Unknown?;
        bad := if v.Bad? then bad + {o} else bad;
      }
      assert objects[..|objects|] == objects;
    }

    /** One round of a NAS. */
    method Poll(r: NasRound) returns (device: Device)
      modifies this
      ensures st == StaticAfter(old(st), r)
      ensures device == Published(host, old(st), r)
      ensures WellKept(old(st)) ==> WellKept(st) && NasShows(old(st), r, st, device)
    {
      if WellKept(st) {
        RoundKeepsInventory(st, r);
        RoundShows(host, st, r);
      }
      if !r.reachable {
        var alerts := StateAlerts(true, false, r.clock);
        if st.Some? {
          alerts := CapAlerts(alerts + FaultAlerts(st.value.faults, Objects(st.value), {}));
        }
        return Device(host, true, "", None, alerts);
      }
      if r.refresh || st.None? || st.value.model == "" {
        st := Some(Refreshed(st, r));
      }
      var complete, bad := Observe(r);
      var degraded := !complete || bad != {} || st.value.faults != map[];
      var alerts := StateAlerts(false, degraded, r.clock) + FaultAlerts(st.value.faults, Objects(st.value), bad);
      device := Device(host, false, "", None, CapAlerts(alerts));
    }
  }

  // ----- One PLC round ------------------------------------------------------

  datatype Cip = Cip(major: bool, minor: bool)

  /** What a PLC round read; `cip` is absent when the EtherNet/IP identity could not be fetched. */
  datatype PlcRound = PlcRound(readable: bool, fatal: bool, nonFatal: bool, stopped: bool, errorText: string,
                               cip: Option<Cip>, linkComplete: bool, linkDown: bool, clock: Clock)

  datatype PlcFaults = PlcFaults(fins: Option<Fault>, cip: Option<Fault>)

  function FinsVerdict(r: PlcRound): Verdict {
    if !r.readable then Unknown else if r.fatal then Bad("PLC_ERROR", r.errorText) else Healthy
  }

  function CipVerdict(r: PlcRound): Verdict {
    if !r.readable || r.cip.None? then Unknown
    else if r.cip.value.major then Bad("PLC_CIP_FAULT", "CIP major fault") else Healthy
  }

  function PlcAfter(f: PlcFaults, r: PlcRound): PlcFaults {
    PlcFaults(Latch(f.fins, FinsVerdict(r), r.clock), Latch(f.cip, CipVerdict(r), r.clock))
  }

  function Held(f: Option<Fault>, observed: bool): seq<AlertItem> {
    if f.Some? then [Item(f.value, observed)] else []
  }

  function PlcPublished(host: string, f: PlcFaults, r: PlcRound): Device {
    if !r.readable then
      Device(host, true, "", None, StateAlerts(true, false, r.clock) + Held(f.fins, false) + Held(f.cip, false))
    else
      var g := PlcAfter(f, r);
      var degraded :=
        || r.fatal || r.nonFatal || r.stopped || r.cip.None? || !r.linkComplete || r.linkDown
        || g.cip.Some? || (r.cip.Some? && r.cip.value.minor);
      var fins := if g.fins.Some? then Held(g.fins, true)
                  else if r.nonFatal then
                    [AlertItem("PLC_WARNING", "Non-fatal error flag set", r.clock.text, r.clock.parsed, Warning, None)]
                  else [];
      Device(host, false, "", None, CapAlerts(StateAlerts(false, degraded, r.clock) + fins + Held(g.cip, r.cip.Some?)))
  }

  class PlcPoller {
    const host: string
    var finsFault: Option<Fault>
    var cipFault: Option<Fault>

    constructor (host: string)
      ensures this.host == host && finsFault == None && cipFault == None
    {
      this.host := host;
      finsFault, cipFault := None, None;
    }

    method Poll(r: PlcRound) returns (device: Device)
      modifies this
      ensures PlcFaults(finsFault, cipFault) == PlcAfter(old(PlcFaults(finsFault, cipFault)), r)
      ensures device == PlcPublished(host, old(PlcFaults(finsFault, cipFault)), r)
      ensures PlcShows(old(PlcFaults(finsFault, cipFault)), r, PlcFaults(finsFault, cipFault), device)
    {
      PlcRoundShows(host, PlcFaults(finsFault, cipFault), r);
      if !r.readable {
        return Device(host, true, "", None,
                      StateAlerts(true, false, r.clock) + Held(finsFault, false) + Held(cipFault, false));
      }
      var degraded := r.fatal || r.nonFatal || r.stopped;
      if r.cip.Some? {
        if r.cip.value.major {
          if cipFault.None? {
            cipFault := Some(Fault("PLC_CIP_FAULT", "CIP major fault", r.clock.text, r.clock.parsed));
          }
        } else {
          cipFault := None;
        }
      }
      if r.cip.None? || !r.linkComplete || cipFault.Some? || (r.cip.Some? && r.cip.value.minor) || r.linkDown {
        degraded := true;
      }
      if r.fatal {
        if finsFault.None? {
          finsFault := Some(Fault("PLC_ERROR", r.errorText, r.clock.text, r.clock.parsed));
        }
      } else {
        finsFault := None;
      }
      var alerts := StateAlerts(false, degraded, r.clock);
      var fins := Held(finsFault, true);
      if finsFault.None? && r.nonFatal {
        fins := [AlertItem("PLC_WARNING", "Non-fatal error flag set", r.clock.text, r.clock.parsed, Warning, None)];
      }
      device := Device(host, false, "", None, CapAlerts(alerts + fins + Held(cipFault, r.cip.Some?)));
    }
  }

  // ----- NAS: one round -----------------------------------------------------

  /** Each object's latch depends on its own reading only. */
  lemma {:induction false} ObservedIs(st: NasStatic, objects: seq<Oid>, readings: map<Oid, int>, clock: Clock, o: Oid)
    requires Distinct(objects)
    ensures FaultOf(Observed(st, objects, readings, clock), o) ==
              if o in objects then Latch(FaultOf(st.faults, o), Judge(st, o, readings), clock) else FaultOf(st.faults, o)
  {
    if objects != [] {
      var init, last := objects[..|objects| - 1], objects[|objects| - 1];
      assert objects == init + [last];
      ObservedIs(st, init, readings, clock, o);
    }
  }

  lemma {:induction false} FaultAlertsHas(faults: map<Oid, Fault>, objects: seq<Oid>, bad: set<Oid>, o: Oid)
    ensures |FaultAlerts(faults, objects, bad)| <= |objects|
    ensures o in objects && o in faults ==> Item(faults[o], o in bad) in FaultAlerts(faults, objects, bad)
  {
    if objects != [] {
      var init, last := objects[..|objects| - 1], objects[|objects| - 1];
      assert objects == init + [last];
      FaultAlertsHas(faults, init, bad, o);
    }
  }

  lemma {:induction false} DiscoveredFits(names: seq<string>, limit: nat)
    ensures |Discovered(names, limit)| <= limit
  {
    if limit > 0 && names != [] && names[0] != "" {
      DiscoveredFits(names[1..], limit - 1);
    }
  }

  /** n names are found: up to the first empty one, the end, or the limit. */
  predicate NamesFound(names: seq<string>, limit: nat, n: nat) {
    n <= limit && n <= |names| && "" !in names[..n] && (n == limit || n == |names| || names[n] == "")
  }

  lemma {:induction false} DiscoveredIs(names: seq<string>, limit: nat)
    ensures var n := |Discovered(names, limit)|; NamesFound(names, limit, n) && Discovered(names, limit) == names[..n]
  {
    if limit > 0 && names != [] && names[0] != "" {
      DiscoveredIs(names[1..], limit - 1);
      var n := |Discovered(names[1..], limit - 1)|;
      assert names[..n + 1] == [names[0]] + names[1..][..n];
    }
  }

  /** A refresh takes the names found, but never fewer than were known; without one the inventory stays. */
  lemma InventoryShows(st: Option<NasStatic>, r: NasRound)
    requires r.reachable
    ensures var now := StaticAfter(st, r).value;
      if !r.refresh && st.Some? && st.value.model != "" then now.disks == st.value.disks && now.raids == st.value.raids
      else exists n: nat, m: nat ::
        && NamesFound(r.diskNames, 12, n) && now.disks == (if st.Some? && n < |st.value.disks| then st.value.disks else r.diskNames[..n])
        && NamesFound(r.raidNames, 4, m) && now.raids == (if st.Some? && m < |st.value.raids| then st.value.raids else r.raidNames[..m])
  {
    DiscoveredIs(r.diskNames, 12);
    DiscoveredIs(r.raidNames, 4);
    assert NamesFound(r.diskNames, 12, |Discovered(r.diskNames, 12)|) && NamesFound(r.raidNames, 4, |Discovered(r.raidNames, 4)|);
  }

  /** At most 12 disks and 4 RAID sets, and no fault outside the inventory. */
  predicate WellKept(st: Option<NasStatic>) {
    st.Some? ==>
      && |st.value.disks| <= MAX_DISKS && |st.value.raids| <= MAX_RAIDS
      && forall o :: o in st.value.faults ==> Covers(st.value, o)
  }

  /** The inventory never shrinks, never outgrows its limits, and keeps covering every fault. */
  lemma RoundKeepsInventory(st: Option<NasStatic>, r: NasRound)
    requires WellKept(st)
    ensures WellKept(StaticAfter(st, r))
    ensures st.Some? ==>
      && StaticAfter(st, r).Some?
      && |StaticAfter(st, r).value.disks| >= |st.value.disks|
      && |StaticAfter(st, r).value.raids| >= |st.value.raids|
  {
    if r.reachable {
      var inv := Inventory(st, r);
      DiscoveredFits(r.diskNames, MAX_DISKS);
      DiscoveredFits(r.raidNames, MAX_RAIDS);
      ObjectsAre(inv);
      forall o | o in StaticAfter(st, r).value.faults ensures Covers(inv, o) {
        ObservedIs(inv, Objects(inv), r.readings, r.clock, o);
      }
    }
  }

  /** What a round says about o: nothing when the NAS did not answer. */
  function RoundVerdict(st: Option<NasStatic>, r: NasRound, o: Oid): Verdict {
    if !r.reachable then Unknown else Judge(Inventory(st, r), o, r.readings)
  }

  function Latched(st: Option<NasStatic>, o: Oid): Option<Fault> {
    if st.None? then None else FaultOf(st.value.faults, o)
  }

  /** A round moves each latch by its own verdict and by nothing else. */
  lemma RoundLatches(st: Option<NasStatic>, r: NasRound, o: Oid)
    requires WellKept(st)
    ensures Latched(StaticAfter(st, r), o) == Latch(Latched(st, o), RoundVerdict(st, r, o), r.clock)
  {
    if r.reachable {
      var inv := Inventory(st, r);
      ObjectsAre(inv);
      ObservedIs(inv, Objects(inv), r.readings, r.clock, o);
      RoundKeepsInventory(st, r);
    }
  }

  /** Every latched fault is published, reachable or not: the cap of 25 drops none of at most 21 alerts. */
  lemma LatchedIsPublished(host: string, st: Option<NasStatic>, r: NasRound, o: Oid)
    requires WellKept(st) && Latched(StaticAfter(st, r), o).Some?
    ensures |Published(host, st, r).alerts| <= 21
    ensures exists observed :: Item(Latched(StaticAfter(st, r), o).value, observed) in Published(host, st, r).alerts
    ensures Item(Latched(StaticAfter(st, r), o).value, r.reachable && RoundVerdict(st, r, o).Bad?)
              in Published(host, st, r).alerts
  {
    RoundKeepsInventory(st, r);
    var after := StaticAfter(st, r).value;
    ObjectsAre(after);
    if r.reachable {
      var inv := Inventory(st, r);
      assert Objects(after) == Objects(inv);
      FaultAlertsHas(after.faults, Objects(inv), BadAmong(inv, Objects(inv), r.readings), o);
    } else {
      FaultAlertsHas(after.faults, Objects(after), {}, o);
    }
  }

  // ----- NAS: a round by the numbers it read ----------------------------------

  /** The number a round read for o, if the inventory it worked with has o. */
  function NumberOf(r: NasRound, after: Option<NasStatic>, o: Oid): Option<int> {
    if r.reachable && after.Some? && Covers(after.value, o) && o in r.readings then Some(r.readings[o]) else None
  }

  /** Numbers that set a fault: a failed disk, a degraded or crashed RAID set, failed hardware. */
  predicate Sets(o: Oid, n: int) {
    match o
    case DiskStat(_) => n in {3, 4, 5}
    case RaidStat(_) => n in {11, 12}
    case _ => n == 2
  }

  /** Numbers that clear it. */
  predicate Clears(o: Oid, n: int) {
    match o
    case DiskStat(_) => n in {1, 2}
    case _ => n == 1
  }

  /** Numbers that count as an observation of something wrong: those that set a fault, and a RAID set at work. */
  predicate Alarms(o: Oid, n: int) {
    Sets(o, n) || (o.RaidStat? && 2 <= n <= 10)
  }

  function FaultRead(inv: NasStatic, o: Oid, n: int, clock: Clock): Fault
    requires Covers(inv, o)
  {
    var (name, desc) :=
      match o
      case DiskStat(i) => ("DISK_FAULT", inv.disks[i] + " abnormal")
      case RaidStat(i) => if n == 11 then ("RAID_DEGRADED", inv.raids[i] + " degraded") else ("RAID_CRASHED", inv.raids[i] + " crashed")
      case SystemStat => ("NAS_HARDWARE_FAULT", "1.3.6.1.4.1.6574.1.1.0 failed")
      case PowerStat => ("NAS_HARDWARE_FAULT", "1.3.6.1.4.1.6574.1.3.0 failed")
      case SystemFan => ("NAS_HARDWARE_FAULT", "1.3.6.1.4.1.6574.1.4.1.0 failed")
      case CpuFan => ("NAS_HARDWARE_FAULT", "1.3.6.1.4.1.6574.1.4.2.0 failed");
    Fault(name, desc, clock.text, clock.parsed)
  }

  /** One latch over one round: a number sets it, keeping an older text; clears it; or leaves it alone. */
  predicate LatchShows(before: Option<NasStatic>, r: NasRound, after: Option<NasStatic>, o: Oid) {
    var held, now, n := Latched(before, o), Latched(after, o), NumberOf(r, after, o);
    if n.Some? && Sets(o, n.value) then now == if held.Some? then held else Some(FaultRead(after.value, o, n.value, r.clock))
    else if n.Some? && Clears(o, n.value) then now == None
    else now == held
  }

  /** The alert of a latched fault: critical, and observed if this round's own number says so. */
  predicate IsAlertOf(a: AlertItem, r: NasRound, after: Option<NasStatic>, o: Oid) {
    var f, n := Latched(after, o), NumberOf(r, after, o);
    && f.Some? && a.name == f.value.name && a.desc == f.value.desc && a.time == f.value.time
    && a.startedAt == f.value.startedAt && a.severity == Severe && a.observed == Some(n.Some? && Alarms(o, n.value))
  }

  ghost predicate AllGood(r: NasRound, inv: NasStatic) {
    inv.disks != [] && inv.raids != [] && forall o :: Covers(inv, o) ==> o in r.readings && Clears(o, r.readings[o])
  }

  /**
    What a round does and publishes, by the numbers read. Besides the latched faults there is only the
    device's own state: missing from a reachable round exactly if the inventory is known and all of it good.
   */
  ghost predicate NasShows(before: Option<NasStatic>, r: NasRound, after: Option<NasStatic>, d: Device) {
    && d.down == !r.reachable && (!r.reachable ==> after == before) && (r.reachable ==> after.Some?)
    && (forall o :: LatchShows(before, r, after, o))
    && (forall o :: Latched(after, o).Some? ==> exists a :: a in d.alerts && IsAlertOf(a, r, after, o))
    && (forall a :: a in d.alerts && a.name != STATE_ALERT ==> exists o :: IsAlertOf(a, r, after, o))
    && ((exists a :: a in d.alerts && a.name == STATE_ALERT && a.observed == None) <==>
          !(r.reachable && AllGood(r, after.value)))
  }

  lemma {:induction false} FaultAlertsAre(faults: map<Oid, Fault>, objects: seq<Oid>, bad: set<Oid>, a: AlertItem)
    requires a in FaultAlerts(faults, objects, bad)
    ensures exists o :: o in objects && o in faults && a == Item(faults[o], o in bad)
  {
    var init, last := objects[..|objects| - 1], objects[|objects| - 1];
    if a in FaultAlerts(faults, init, bad) { FaultAlertsAre(faults, init, bad, a); }
  }

  /** What the reading of one object means, number by number. */
  lemma JudgedByNumber(inv: NasStatic, o: Oid, r: NasRound)
    requires r.reachable
    ensures var n, v := NumberOf(r, Some(inv), o), Judge(inv, o, r.readings);
      && (v.Bad? <==> n.Some? && Alarms(o, n.value))
      && (v == Healthy <==> n.Some? && Clears(o, n.value))
      && (v.Bad? && v.name != "" <==> n.Some? && Sets(o, n.value))
      && (v.Bad? && v.name != "" ==> Fault(v.name, v.desc, r.clock.text, r.clock.parsed) == FaultRead(inv, o, n.value, r.clock))
  {
    hide RaidText, FaultRead;
    if o in r.readings && Covers(inv, o) {
      RaidTexts(r.readings[o]);
      if Sets(o, r.readings[o]) { FaultText(inv, o, r); }
    }
  }

  lemma RaidTexts(n: int)
    ensures RaidText(n) == "unknown" <==> !(1 <= n <= 12)
  {
    if 1 <= n <= 12 { assert RAID_TEXT[n][0] != 'u'; }
  }

  lemma RaidFaultTexts(name: string)
    ensures name + " " + RaidText(11) == name + " degraded" && name + " " + RaidText(12) == name + " crashed"
  {
    assert RaidText(11) == "degraded" && RaidText(12) == "crashed";
    assert " " + "degraded" == " degraded" && " " + "crashed" == " crashed";
    assert (name + " ") + "degraded" == name + (" " + "degraded") && (name + " ") + "crashed" == name + (" " + "crashed");
  }

  lemma FaultText(inv: NasStatic, o: Oid, r: NasRound)
    requires Covers(inv, o) && o in r.readings && Sets(o, r.readings[o])
    ensures var v := Judge(inv, o, r.readings);
      v.Bad? && v.name != "" && Fault(v.name, v.desc, r.clock.text, r.clock.parsed) == FaultRead(inv, o, r.readings[o], r.clock)
  {
    hide RaidText;
    if o.RaidStat? {
      RaidTexts(r.readings[o]);
      RaidFaultTexts(inv.raids[o.index]);
    }
  }

  lemma LatchesShow(st: Option<NasStatic>, r: NasRound, o: Oid)
    requires WellKept(st)
    ensures LatchShows(st, r, StaticAfter(st, r), o)
  {
    hide Judge, Observed, Inventory, FaultRead, Objects;
    RoundLatches(st, r, o);
    if r.reachable { JudgedByNumber(Inventory(st, r), o, r); SameNumbers(st, r, o); }
  }

  lemma SameNumbers(st: Option<NasStatic>, r: NasRound, o: Oid)
    requires r.reachable
    ensures NumberOf(r, StaticAfter(st, r), o) == NumberOf(r, Some(Inventory(st, r)), o)
    ensures var after, inv := StaticAfter(st, r).value, Inventory(st, r);
      after.disks == inv.disks && after.raids == inv.raids && forall n, c :: Covers(inv, o) ==> FaultRead(after, o, n, c) == FaultRead(inv, o, n, c)
  {
  }

  lemma ObservedByNumber(st: Option<NasStatic>, r: NasRound, o: Oid)
    requires r.reachable
    ensures var inv, n := Inventory(st, r), NumberOf(r, StaticAfter(st, r), o);
      && (o in BadAmong(inv, Objects(inv), r.readings) <==> n.Some? && Alarms(o, n.value))
      && (Judge(inv, o, r.readings) == Healthy <==> n.Some? && Clears(o, n.value))
  {
    hide Judge, Observed, Inventory, FaultRead, Objects, Alarms, Clears;
    JudgedByNumber(Inventory(st, r), o, r);
    SameNumbers(st, r, o);
    ObjectsAre(Inventory(st, r));
  }

  /** Nothing is degraded exactly if the inventory is known and every number good. */
  lemma GoodMeansOk(st: Option<NasStatic>, r: NasRound)
    requires WellKept(st) && r.reachable
    ensures var inv := Inventory(st, r);
      AllGood(r, StaticAfter(st, r).value) <==>
        Complete(inv, r.readings) && BadAmong(inv, Objects(inv), r.readings) == {} && StaticAfter(st, r).value.faults == map[]
  {
    hide Judge, Observed, Inventory, FaultRead, Objects, Alarms, Clears;
    var inv, after := Inventory(st, r), StaticAfter(st, r);
    ObjectsAre(inv);
    RoundKeepsInventory(st, r);
    forall o ensures o in BadAmong(inv, Objects(inv), r.readings) <==> NumberOf(r, after, o).Some? && Alarms(o, NumberOf(r, after, o).value)
      ensures Judge(inv, o, r.readings) == Healthy <==> NumberOf(r, after, o).Some? && Clears(o, NumberOf(r, after, o).value)
      ensures Latched(after, o) == Latch(Latched(st, o), RoundVerdict(st, r, o), r.clock)
      ensures Covers(inv, o) == Covers(after.value, o)
    {
      ObservedByNumber(st, r, o);
      RoundLatches(st, r, o);
    }
    if AllGood(r, after.value) {
      forall o ensures o !in after.value.faults {
        assert Covers(inv, o) ==> Latched(after, o) == None;
      }
    }
  }

  lemma AlertOf(st: Option<NasStatic>, r: NasRound, o: Oid, bad: set<Oid>)
    requires Latched(StaticAfter(st, r), o).Some?
    requires bad == if r.reachable then BadAmong(Inventory(st, r), Objects(Inventory(st, r)), r.readings) else {}
    ensures IsAlertOf(Item(Latched(StaticAfter(st, r), o).value, o in bad), r, StaticAfter(st, r), o)
  {
    hide Observed, Inventory, FaultRead, Objects, Alarms, Clears, BadAmong, StaticAfter;
    if r.reachable { ObservedByNumber(st, r, o); }
  }

  /** A round's alerts: its state alert, if any, and those of its latches. */
  lemma AlertsShow(host: string, st: Option<NasStatic>, r: NasRound, bad: set<Oid>, state: seq<AlertItem>)
    requires WellKept(st) && StaticAfter(st, r).Some?
    requires bad == if r.reachable then BadAmong(Inventory(st, r), Objects(Inventory(st, r)), r.readings) else {}
    requires |state| <= 1 && forall a :: a in state ==> a.name == STATE_ALERT && a.observed == None
    requires var after := StaticAfter(st, r).value;
      Published(host, st, r).alerts == CapAlerts(state + FaultAlerts(after.faults, Objects(after), bad))
    ensures var after, alerts := StaticAfter(st, r), Published(host, st, r).alerts;
      && (forall o :: Latched(after, o).Some? ==> exists a :: a in alerts && IsAlertOf(a, r, after, o))
      && (forall a :: a in alerts && a.name != STATE_ALERT ==> exists o :: IsAlertOf(a, r, after, o))
      && ((exists a :: a in alerts && a.name == STATE_ALERT && a.observed == None) <==> state != [])
  {
    hide Inventory, FaultRead, Objects, Alarms, BadAmong, StaticAfter, FaultAlerts, IsAlertOf, Published;
    var after, alerts := StaticAfter(st, r), Published(host, st, r).alerts;
    var objects := Objects(after.value);
    var latched := FaultAlerts(after.value.faults, objects, bad);
    RoundKeepsInventory(st, r);
    ObjectsAre(after.value);
    FaultAlertsHas(after.value.faults, objects, bad, SystemStat);
    assert alerts == state + latched;
    forall o | Latched(after, o).Some? ensures exists a :: a in alerts && IsAlertOf(a, r, after, o) {
      AlertOf(st, r, o, bad);
      FaultAlertsHas(after.value.faults, objects, bad, o);
      assert Item(Latched(after, o).value, o in bad) in alerts;
    }
    forall a | a in latched ensures a.observed != None && exists o :: IsAlertOf(a, r, after, o) {
      FaultAlertsAre(after.value.faults, objects, bad, a);
      var o :| o in objects && o in after.value.faults && a == Item(after.value.faults[o], o in bad);
      AlertOf(st, r, o, bad);
    }
    if state != [] { assert state[0] in alerts; }
  }

  lemma RoundShows(host: string, st: Option<NasStatic>, r: NasRound)
    requires WellKept(st)
    ensures NasShows(st, r, StaticAfter(st, r), Published(host, st, r))
  {
    hide Inventory, FaultRead, Objects, Alarms, Clears, BadAmong, FaultAlerts, IsAlertOf, Observed, LatchShows, AllGood, CapAlerts, Complete, WellKept;
    forall o ensures LatchShows(st, r, StaticAfter(st, r), o) { LatchesShow(st, r, o); }
    var after := StaticAfter(st, r);
    if r.reachable {
      GoodMeansOk(st, r);
      var inv := Inventory(st, r);
      var bad := BadAmong(inv, Objects(inv), r.readings);
      var degraded := !Complete(inv, r.readings) || bad != {} || after.value.faults != map[];
      SameObjects(st, r);
      AlertsShow(host, st, r, bad, StateAlerts(false, degraded, r.clock));
    } else if st.Some? {
      AlertsShow(host, st, r, {}, StateAlerts(true, false, r.clock));
    } else {
      assert Published(host, st, r).alerts == [StateAlerts(true, false, r.clock)[0]];
    }
  }

  lemma SameObjects(st: Option<NasStatic>, r: NasRound)
    requires r.reachable
    ensures Objects(StaticAfter(st, r).value) == Objects(Inventory(st, r))
  {
  }

  // ----- NAS: a worker's life -----------------------------------------------

  /** What the worker remembers before round n. */
  function StaticAt(rounds: seq<NasRound>, n: nat): Option<NasStatic>
    requires n <= |rounds|
  {
    if n == 0 then None else StaticAfter(StaticAt(rounds, n - 1), rounds[n - 1])
  }

  lemma {:induction false} LifeKeepsInventory(rounds: seq<NasRound>, n: nat)
    requires n <= |rounds|
    ensures WellKept(StaticAt(rounds, n))
  {
    if n > 0 {
      LifeKeepsInventory(rounds, n - 1);
      RoundKeepsInventory(StaticAt(rounds, n - 1), rounds[n - 1]);
    }
  }

  /** No round from i up to but not including j reads o as good. */
  predicate NeverGood(rounds: seq<NasRound>, i: nat, j: nat, o: Oid)
    requires i <= j <= |rounds|
  {
    forall n :: i <= n < j ==> RoundVerdict(StaticAt(rounds, n), rounds[n], o) != Healthy
  }

  /** A critical reading is latched by the end of its round. */
  lemma CriticalIsLatched(rounds: seq<NasRound>, i: nat, o: Oid)
    requires i < |rounds|
    requires var v := RoundVerdict(StaticAt(rounds, i), rounds[i], o); v.Bad? && v.name != ""
    ensures Latched(StaticAt(rounds, i + 1), o).Some?
  {
    LifeKeepsInventory(rounds, i);
    RoundLatches(StaticAt(rounds, i), rounds[i], o);
  }

  lemma {:induction false} FaultIsKept(rounds: seq<NasRound>, i: nat, j: nat, o: Oid)
    requires 0 < i <= j <= |rounds| && Latched(StaticAt(rounds, i), o).Some? && NeverGood(rounds, i, j, o)
    ensures Latched(StaticAt(rounds, j), o) == Latched(StaticAt(rounds, i), o)
    decreases j
  {
    hide RoundVerdict, Latched, StaticAfter, WellKept;
    if i < j {
      FaultIsKept(rounds, i, j - 1, o);
      LifeKeepsInventory(rounds, j - 1);
      RoundLatches(StaticAt(rounds, j - 1), rounds[j - 1], o);
    }
  }

  function PublishedAt(host: string, rounds: seq<NasRound>, n: nat): Device
    requires n < |rounds|
  {
    Published(host, StaticAt(rounds, n), rounds[n])
  }

  /** From the round after which o is latched until a good reading, every published round carries the same alert. */
  lemma FaultIsPublished(host: string, rounds: seq<NasRound>, i: nat, n: nat, o: Oid)
    requires 0 < i <= n + 1 <= |rounds| && Latched(StaticAt(rounds, i), o).Some? && NeverGood(rounds, i, n + 1, o)
    ensures exists observed ::
              Item(Latched(StaticAt(rounds, i), o).value, observed) in PublishedAt(host, rounds, n).alerts
  {
    FaultIsKept(rounds, i, n + 1, o);
    LifeKeepsInventory(rounds, n);
    LatchedIsPublished(host, StaticAt(rounds, n), rounds[n], o);
  }

  // ----- PLC: a round by what it read ------------------------------------------

  predicate HeldAlert(a: AlertItem, f: Fault, observed: bool) {
    && a.name == f.name && a.desc == f.desc && a.time == f.time && a.startedAt == f.startedAt
    && a.severity == Severe && a.observed == Some(observed)
  }

  /**
    A fatal error sets the one latch, a CIP major fault the other, both keeping an older text; a readable
    round without the condition clears it, and an unreadable one, or one without a CIP identity, does not.
    Both are published while they last. A round is healthy exactly if everything it needs was read and good.
   */
  ghost predicate PlcShows(before: PlcFaults, r: PlcRound, after: PlcFaults, d: Device) {
    && d.down == !r.readable
    && after.fins == (if !r.readable then before.fins
                      else if !r.fatal then None
                      else if before.fins.Some? then before.fins
                      else Some(Fault("PLC_ERROR", r.errorText, r.clock.text, r.clock.parsed)))
    && after.cip == (if !r.readable || r.cip.None? then before.cip
                     else if !r.cip.value.major then None
                     else if before.cip.Some? then before.cip
                     else Some(Fault("PLC_CIP_FAULT", "CIP major fault", r.clock.text, r.clock.parsed)))
    && (after.fins.Some? ==> exists a :: a in d.alerts && HeldAlert(a, after.fins.value, r.readable))
    && (after.cip.Some? ==> exists a :: a in d.alerts && HeldAlert(a, after.cip.value, r.readable && r.cip.Some?))
    && (forall a :: a in d.alerts && a.severity == Severe && a.observed.Some? ==>
          (after.fins.Some? && HeldAlert(a, after.fins.value, r.readable))
          || (after.cip.Some? && HeldAlert(a, after.cip.value, r.readable && r.cip.Some?)))
    && (d.alerts == [] <==> r.readable && !r.fatal && !r.nonFatal && !r.stopped && r.cip.Some?
                            && !r.cip.value.major && !r.cip.value.minor && r.linkComplete && !r.linkDown)
  }

  lemma PlcRoundShows(host: string, f: PlcFaults, r: PlcRound)
    ensures PlcShows(f, r, PlcAfter(f, r), PlcPublished(host, f, r))
  {
    var g, d := PlcAfter(f, r), PlcPublished(host, f, r);
    if g.fins.Some? { assert Item(g.fins.value, r.readable) in d.alerts; }
    if g.cip.Some? { assert Item(g.cip.value, r.readable && r.cip.Some?) in d.alerts; }
  }

  // ----- PLC: a worker's life -----------------------------------------------

  function PlcAt(rounds: seq<PlcRound>, n: nat): PlcFaults
    requires n <= |rounds|
  {
    if n == 0 then PlcFaults(None, None) else PlcAfter(PlcAt(rounds, n - 1), rounds[n - 1])
  }

  /** Which of the two PLC latches is meant. */
  datatype PlcLatch = Fins | CipLatch

  function PlcVerdict(l: PlcLatch, r: PlcRound): Verdict {
    if l.Fins? then FinsVerdict(r) else CipVerdict(r)
  }

  function PlcHeld(l: PlcLatch, f: PlcFaults): Option<Fault> {
    if l.Fins? then f.fins else f.cip
  }

  lemma {:induction false} PlcFaultIsKept(rounds: seq<PlcRound>, i: nat, j: nat, l: PlcLatch)
    requires i <= j <= |rounds| && PlcHeld(l, PlcAt(rounds, i)).Some?
    requires forall n :: i <= n < j ==> PlcVerdict(l, rounds[n]) != Healthy
    ensures PlcHeld(l, PlcAt(rounds, j)) == PlcHeld(l, PlcAt(rounds, i))
    decreases j
  {
    if i < j {
      PlcFaultIsKept(rounds, i, j - 1, l);
    }
  }

  lemma PlcHeldIsPublished(host: string, f: PlcFaults, r: PlcRound, l: PlcLatch)
    requires PlcHeld(l, PlcAfter(f, r)).Some?
    ensures exists observed :: Item(PlcHeld(l, PlcAfter(f, r)).value, observed) in PlcPublished(host, f, r).alerts
  {
    var observed := if !r.readable then false else if l.Fins? then true else r.cip.Some?;
    assert Item(PlcHeld(l, PlcAfter(f, r)).value, observed) in PlcPublished(host, f, r).alerts;
  }

  /** A fatal or CIP major fault is published in every round until an explicit good status clears it. */
  lemma PlcFaultIsPublished(host: string, rounds: seq<PlcRound>, i: nat, n: nat, l: PlcLatch)
    requires i <= n + 1 <= |rounds| && PlcHeld(l, PlcAt(rounds, i)).Some?
    requires forall m :: i <= m <= n ==> PlcVerdict(l, rounds[m]) != Healthy
    ensures exists observed :: Item(PlcHeld(l, PlcAt(rounds, i)).value, observed)
              in PlcPublished(host, PlcAt(rounds, n), rounds[n]).alerts
  {
    hide PlcAt, PlcVerdict, PlcHeld, PlcPublished, PlcAfter;
    PlcFaultIsKept(rounds, i, n + 1, l);
    PlcAtNext(rounds, n);
    PlcHeldIsPublished(host, PlcAt(rounds, n), rounds[n], l);
  }

  lemma PlcAtNext(rounds: seq<PlcRound>, n: nat)
    requires n < |rounds|
    ensures PlcAt(rounds, n + 1) == PlcAfter(PlcAt(rounds, n), rounds[n])
  {
  }
}
