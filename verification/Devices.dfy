/** Published devices and the signals the notification engine reads from them. */
module Devices {
  import opened Base
  import opened Alerting

  datatype Severity = Info | Warning | Severe

  /** One alert of a device; `startedAt` is the time text parsed, `observed` an edge collector's own verdict. */
  datatype AlertItem = AlertItem(name: string, desc: string, time: string, startedAt: Option<Time>,
                                 severity: Severity, observed: Option<bool>)

  datatype Device = Device(host: string, down: bool, downSince: string, downAt: Option<Time>, alerts: seq<AlertItem>)

  datatype Readiness = Readiness(hostReady: set<string>, edgeHosts: set<string>, edgeWorkerReady: bool)

  datatype KeyedSignal = KeyedSignal(key: Key, signal: Signal)

  const STATE_ALERT: string := "DEVICE_STATE"
  const OFFLINE_TEXT: string := "Device offline — no node responded to the collector"

  // ----- Time text ----------------------------------------------------------

  function ReplaceFirstT(s: string): string {
    if s == "" then "" else if s[0] == 'T' then " " + s[1..] else [s[0]] + ReplaceFirstT(s[1..])
  }

  function AckTime(value: string): string {
    if value == "" then "no-time"
    else
      var t := ReplaceFirstT(value);
      if |t| > 0 && t[|t| - 1] == 'Z' then t[..|t| - 1] else t
  }

  lemma {:induction false} FirstT(a: string, b: string)
    requires 'T' !in a
    ensures ReplaceFirstT(a + "T" + b) == a + " " + b
  {
    if a == "" {
      assert a + "T" + b == "T" + b && a + " " + b == " " + b;
    } else {
      FirstT(a[1..], b);
      assert (a + "T" + b)[1..] == a[1..] + "T" + b;
    }
  }

  /** A time in ISO form and the same with a blank for the T, in UTC with or without the Z, are one text; no time has its own. */
  lemma AckTimeIs(date: string, time: string)
    requires 'T' !in date && time != "" && time[|time| - 1] != 'Z'
    ensures AckTime(date + "T" + time + "Z") == date + " " + time
    ensures AckTime(date + "T" + time) == date + " " + time
    ensures AckTime("") == "no-time"
  {
    FirstT(date, time + "Z");
    FirstT(date, time);
    assert date + "T" + time + "Z" == date + "T" + (time + "Z");
    var long := date + " " + (time + "Z");
    assert long[..|long| - 1] == date + " " + time;
  }

  // ----- Signals ------------------------------------------------------------

  predicate HostUnready(d: Device, r: Option<Readiness>) {
    r.Some? && (d.host !in r.value.hostReady || (d.host in r.value.edgeHosts && !r.value.edgeWorkerReady))
  }

  predicate AlertUnready(d: Device, a: AlertItem, r: Option<Readiness>) {
    if r.Some? && d.host in r.value.edgeHosts && a.observed.Some?
    then !r.value.edgeWorkerReady || !a.observed.value
    else HostUnready(d, r)
  }

  predicate Notifies(a: AlertItem) {
    a.severity == Severe && a.name != STATE_ALERT
  }

  function Text(a: AlertItem): string {
    if a.desc == "" then a.name else a.desc
  }

  function AckKey(host: string, name: string, desc: string, time: string): string {
    host + "\U{1}" + name + "\U{1}" + desc + "\U{1}" + time
  }

  /** An alert is recognised across rounds by host, name, text and start time. */
  function AlertKey(host: string, a: AlertItem): Key {
    Key.Alert(host, a.name, Text(a), AckTime(a.time))
  }

  function AlertSignal(d: Device, a: AlertItem, r: Option<Readiness>): KeyedSignal {
    KeyedSignal(AlertKey(d.host, a),
                Signal(d.host, AckKey(d.host, a.name, Text(a), AckTime(a.time)), a.startedAt, AlertUnready(d, a, r), false))
  }

  function AlertSignals(d: Device, alerts: seq<AlertItem>, r: Option<Readiness>): seq<KeyedSignal> {
    if alerts == [] then []
    else
      var init, last := alerts[..|alerts| - 1], alerts[|alerts| - 1];
      AlertSignals(d, init, r) + if Notifies(last) then [AlertSignal(d, last, r)] else []
  }

  function DownSignal(d: Device, r: Option<Readiness>): seq<KeyedSignal> {
    if !d.down then []
    else [KeyedSignal(Offline(d.host),
                      Signal(d.host, AckKey(d.host, STATE_ALERT, OFFLINE_TEXT, AckTime(d.downSince)),
                             d.downAt, HostUnready(d, r), false))]
  }

  function SignalsOf(devices: seq<Device>, r: Option<Readiness>): seq<KeyedSignal> {
    if devices == [] then []
    else
      var init, d := devices[..|devices| - 1], devices[|devices| - 1];
      SignalsOf(init, r) + if d.host == "" then [] else DownSignal(d, r) + AlertSignals(d, d.alerts, r)
  }

  /** The alerts of one device, in order. */
  method DeviceAlerts(d: Device, r: Option<Readiness>, unready: bool) returns (out: seq<KeyedSignal>)
    requires unready == HostUnready(d, r)
    ensures out == AlertSignals(d, d.alerts, r)
  {
    out := [];
    for j := 0 to |d.alerts|
      invariant out == AlertSignals(d, d.alerts[..j], r)
    {
      var item := d.alerts[j];
      assert d.alerts[..j + 1][..j] == d.alerts[..j];
      if item.severity != Severe || item.name == STATE_ALERT { continue; }
      var alertUnready := unready;
      if r.Some? && d.host in r.value.edgeHosts {
        if item.observed.Some? {
          alertUnready := !r.value.edgeWorkerReady || !item.observed.value;
        }
      }
      out := out + [KeyedSignal(AlertKey(d.host, item),
                                Signal(d.host, AckKey(d.host, item.name, Text(item), AckTime(item.time)),
                                       item.startedAt, alertUnready, false))];
    }
    assert d.alerts[..|d.alerts|] == d.alerts;
  }

  /** Converts device alerts to signals, device by device. */
  method DeviceSignals(devices: seq<Device>, r: Option<Readiness>) returns (out: seq<KeyedSignal>)
    ensures out == SignalsOf(devices, r)
  {
    out := [];
    for i := 0 to |devices|
      invariant out == SignalsOf(devices[..i], r)
    {
      var d := devices[i];
      assert devices[..i + 1][..i] == devices[..i];
      if d.host == "" { continue; }
      var unready := r.Some? && (d.host !in r.value.hostReady || (d.host in r.value.edgeHosts && !r.value.edgeWorkerReady));
      var offline := [];
      if d.down {
        offline := [KeyedSignal(Offline(d.host),
                                Signal(d.host, AckKey(d.host, STATE_ALERT, OFFLINE_TEXT, AckTime(d.downSince)),
                                       d.downAt, unready, false))];
      }
      var alerts := DeviceAlerts(d, r, unready);
      out := out + (offline + alerts);
    }
    assert devices[..|devices|] == devices;
  }

  /** The engine's view of a list of signals: one per key, the last one wins. */
  function CurrentSignals(signals: seq<KeyedSignal>): map<Key, Signal> {
    if signals == [] then map[]
    else
      var last := signals[|signals| - 1];
      CurrentSignals(signals[..|signals| - 1])[last.key := last.signal]
  }

  // ----- Facts --------------------------------------------------------------

  lemma {:induction false} CurrentHasEveryKey(signals: seq<KeyedSignal>, x: KeyedSignal)
    requires x in signals
    ensures x.key in CurrentSignals(signals)
  {
    var init := signals[..|signals| - 1];
    if x != signals[|signals| - 1] {
      assert x in init;
      CurrentHasEveryKey(init, x);
    }
  }

  lemma {:induction false} AlertIsSignalled(d: Device, alerts: seq<AlertItem>, r: Option<Readiness>, a: AlertItem)
    requires a in alerts && Notifies(a)
    ensures AlertSignal(d, a, r) in AlertSignals(d, alerts, r)
  {
    var init := alerts[..|alerts| - 1];
    if a != alerts[|alerts| - 1] {
      assert a in init;
      AlertIsSignalled(d, init, r, a);
    }
  }

  lemma {:induction false} DeviceIsSignalled(devices: seq<Device>, r: Option<Readiness>, d: Device, x: KeyedSignal)
    requires d in devices && d.host != "" && (x in DownSignal(d, r) || x in AlertSignals(d, d.alerts, r))
    ensures x in SignalsOf(devices, r)
  {
    var init := devices[..|devices| - 1];
    if d != devices[|devices| - 1] {
      assert d in init;
      DeviceIsSignalled(init, r, d, x);
    }
  }

  /** Every severe alert of a published device is among the engine's current keys, whatever else is. */
  lemma AlertReachesEngine(devices: seq<Device>, extra: seq<KeyedSignal>, r: Option<Readiness>, d: Device, a: AlertItem)
    requires d in devices && d.host != "" && a in d.alerts && Notifies(a)
    ensures AlertKey(d.host, a) in CurrentSignals(SignalsOf(devices, r) + extra)
  {
    AlertIsSignalled(d, d.alerts, r, a);
    DeviceIsSignalled(devices, r, d, AlertSignal(d, a, r));
    CurrentHasEveryKey(SignalsOf(devices, r) + extra, AlertSignal(d, a, r));
  }

  /** By which identity: host, name, text and time, with the name for an empty text. */
  lemma AlertIsKnownBy(devices: seq<Device>, extra: seq<KeyedSignal>, r: Option<Readiness>, d: Device, a: AlertItem)
    requires d in devices && d.host != "" && a in d.alerts && a.severity == Severe && a.name != "DEVICE_STATE"
    ensures Key.Alert(d.host, a.name, if a.desc != "" then a.desc else a.name, AckTime(a.time))
              in CurrentSignals(SignalsOf(devices, r) + extra)
  {
    AlertReachesEngine(devices, extra, r, d, a);
  }

  lemma {:induction false} CurrentComesFrom(signals: seq<KeyedSignal>, k: Key) returns (x: KeyedSignal)
    requires k in CurrentSignals(signals)
    ensures x in signals && x.key == k && CurrentSignals(signals)[k] == x.signal
  {
    x := signals[|signals| - 1];
    if x.key != k { x := CurrentComesFrom(signals[..|signals| - 1], k); }
  }

  lemma {:induction false} SignalComesFrom(devices: seq<Device>, r: Option<Readiness>, x: KeyedSignal) returns (d: Device)
    requires x in SignalsOf(devices, r)
    ensures d in devices && d.host != "" && (x in DownSignal(d, r) || x in AlertSignals(d, d.alerts, r))
  {
    d := devices[|devices| - 1];
    if d.host == "" || !(x in DownSignal(d, r) || x in AlertSignals(d, d.alerts, r)) {
      d := SignalComesFrom(devices[..|devices| - 1], r, x);
    }
  }

  lemma {:induction false} AlertComesFrom(d: Device, alerts: seq<AlertItem>, r: Option<Readiness>, x: KeyedSignal)
    returns (a: AlertItem)
    requires x in AlertSignals(d, alerts, r)
    ensures a in alerts && Notifies(a) && x == AlertSignal(d, a, r)
  {
    a := alerts[|alerts| - 1];
    if !Notifies(a) || x != AlertSignal(d, a, r) {
      a := AlertComesFrom(d, alerts[..|alerts| - 1], r, x);
    }
  }

  /** All severe alerts of d that share a's identity carry the same verdict of the collector. */
  predicate Agreed(d: Device, a: AlertItem, observed: bool) {
    forall b :: b in d.alerts && Notifies(b) && AlertKey(d.host, b) == AlertKey(d.host, a) ==> b.observed == Some(observed)
  }

  /** No other device has d's host, and no other source d's alert. */
  predicate OnlyFrom(devices: seq<Device>, extra: seq<KeyedSignal>, d: Device, k: Key) {
    && d in devices && (forall e :: e in devices && e.host == d.host ==> e == d)
    && (forall x :: x in extra ==> x.key != k)
  }

  /** Of all signals the engine reads, it trusts an edge alert exactly if the worker is ready and observed it this round. */
  lemma EdgeAuthority(devices: seq<Device>, extra: seq<KeyedSignal>, r: Readiness, d: Device, a: AlertItem, observed: bool)
    requires d.host != "" && a in d.alerts && Notifies(a) && Agreed(d, a, observed) && d.host in r.edgeHosts
    requires OnlyFrom(devices, extra, d, AlertKey(d.host, a))
    ensures var k := AlertKey(d.host, a); var current := CurrentSignals(SignalsOf(devices, Some(r)) + extra);
      k in current && (!current[k].sourceUnready <==> r.edgeWorkerReady && observed)
  {
    var k := AlertKey(d.host, a);
    AlertReachesEngine(devices, extra, Some(r), d, a);
    var x := CurrentComesFrom(SignalsOf(devices, Some(r)) + extra, k);
    var e := SignalComesFrom(devices, Some(r), x);
    assert x !in DownSignal(e, Some(r));
    var b := AlertComesFrom(e, e.alerts, Some(r), x);
  }

  /**
    A host is signalled offline exactly if a published device of that host is down, and that signal is trusted
    exactly if the host is ready and, for a host of the edge worker, the worker too.
   */
  lemma OfflineReachesEngine(devices: seq<Device>, extra: seq<KeyedSignal>, r: Option<Readiness>, host: string)
    requires host != "" && forall x :: x in extra ==> x.key != Offline(host)
    ensures var k, current := Offline(host), CurrentSignals(SignalsOf(devices, r) + extra);
      && (k in current <==> exists d :: d in devices && d.host == host && d.down)
      && (k in current ==>
            (current[k].sourceUnready <==>
               r.Some? && (host in r.value.hostReady ==> host in r.value.edgeHosts && !r.value.edgeWorkerReady)))
  {
    var k, all := Offline(host), SignalsOf(devices, r) + extra;
    if d :| d in devices && d.host == host && d.down {
      DeviceIsSignalled(devices, r, d, DownSignal(d, r)[0]);
      CurrentHasEveryKey(all, DownSignal(d, r)[0]);
    }
    if k in CurrentSignals(all) {
      var x := CurrentComesFrom(all, k);
      var d := SignalComesFrom(devices, r, x);
      if x in AlertSignals(d, d.alerts, r) {
        var a := AlertComesFrom(d, d.alerts, r, x);
        assert false;
      }
    }
  }
}
