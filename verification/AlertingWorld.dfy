/**
  The notification queue as a state machine over memory, the state file and the requests
  under way. Any write may succeed, fail, or reach the disk and still be reported as failed;
  requests finish in any order; the process may crash between any two steps.
 */
module AlertingWorld {
  import opened Base
  import opened Alerting

  datatype Write = Saved | Lost | SavedButReported

  /** What happened so far, newest last. `Sent` carries the attempt counter on disk at that moment. */
  datatype History = Start | Then(past: History, entry: Entry)

  datatype Entry =
    | Queued(ids: set<DeliveryId>)
    | Reset(ids: set<DeliveryId>)
    | Recorded(ids: set<DeliveryId>) // successes contained in a state that reached the disk
    | Sent(id: DeliveryId, counter: nat)
    | Succeeded(id: DeliveryId)
    | Crashed

  datatype World = World(
    mem: State, disk: State, settings: Settings,
    scanning: bool, batch: seq<DeliveryId>, inFlight: set<DeliveryId>,
    log: History)

  datatype Action =
    | Scan(policy: Option<Policy>, now: Time, due: seq<DeliveryId>, write: Write)
    | Skip
    | Claim(latest: Policy, write: Write)
    | Stop
    | Finish(id: DeliveryId, result: SendResult, finished: Time, write: Write)
    | EndScan
    | Update(settings: Settings, valid: bool, now: Time, write: Write)
    | Crash(settings: Settings)

  function Boot(disk: State, settings: Settings): World {
    World(disk, disk, settings, false, [], {}, Start)
  }

  // ----- Reading a history --------------------------------------------------

  /** Requests sent for id since it was last queued or reset. */
  function SentSince(h: History, id: DeliveryId): nat {
    match h
    case Start => 0
    case Then(past, Queued(ids)) => if id in ids then 0 else SentSince(past, id)
    case Then(past, Reset(ids)) => if id in ids then 0 else SentSince(past, id)
    case Then(past, Sent(i, _)) => SentSince(past, id) + if i == id then 1 else 0
    case Then(past, _) => SentSince(past, id)
  }

  /** A success of id has been on disk since id was last queued. */
  predicate Settled(h: History, id: DeliveryId) {
    match h
    case Start => false
    case Then(past, Queued(ids)) => id !in ids && Settled(past, id)
    case Then(past, Recorded(ids)) => id in ids || Settled(past, id)
    case Then(past, _) => Settled(past, id)
  }

  predicate SucceededIn(h: History, id: DeliveryId) {
    h.Then? && (h.entry == Succeeded(id) || SucceededIn(h.past, id))
  }

  function Crashes(h: History): nat {
    if h.Start? then 0 else Crashes(h.past) + if h.entry.Crashed? then 1 else 0
  }

  /**
    The law every history must obey. No request goes out for a delivery whose success is on
    disk; each request is counted on disk before it goes out; recoveries and escalations are
    queued only behind a critical message that did succeed.
   */
  ghost predicate Lawful(h: History) {
    h.Then? ==>
      && Lawful(h.past)
      && match h.entry
         case Sent(id, counter) => !Settled(h.past, id) && counter > SentSince(h.past, id)
         case Queued(ids) =>
           forall id :: id in ids && id.kind != Critical ==> SucceededIn(h.past, id.(kind := Critical))
         case _ => true
  }

  // ----- Steps --------------------------------------------------------------

  function Successes(s: State): set<DeliveryId> {
    set id | id in s.deliveries && Delivered(s, id)
  }

  /** The state file after writing s. */
  function OnDisk(disk: State, s: State, write: Write): State {
    if write.Lost? then disk else s
  }

  function Noted(h: History, s: State, write: Write): History {
    if write.Lost? then h else Then(h, Recorded(Successes(s)))
  }

  /** s with one more attempt counted for id. */
  function Claimed(s: State, id: DeliveryId): State
    requires id in s.deliveries
  {
    var d := s.deliveries[id];
    s.(deliveries := s.deliveries[id := d.(attempts := d.attempts + 1)])
  }

  function Closed(s: State, id: DeliveryId, result: SendResult, finished: Time, cfg: Settings): State
    requires id in s.deliveries
  {
    s.(deliveries := s.deliveries[id := Finished(s.deliveries[id], result, finished, cfg)])
  }

  ghost predicate Enabled(w: World, a: Action) {
    match a
    case Scan(policy, now, due, write) =>
      !w.scanning
      && (w.settings.enabled && policy.Some? && write.Saved? ==>
            IsBatch(Reconcile(w.mem, policy.value, now, w.settings), policy.value, now, due))
    case Skip => w.batch != []
    case Claim(_, _) => w.batch != [] && |w.inFlight| < MAX_IN_FLIGHT
    case Stop => w.scanning
    case Finish(id, _, _, _) => id in w.inFlight
    case EndScan => w.scanning && w.batch == [] && w.inFlight == {}
    case Update(_, _, _, _) => !w.scanning
    case Crash(_) => true
  }

  function Apply(w: World, a: Action): World {
    match a
    case Scan(policy, now, due, write) =>
      if !w.settings.enabled || policy.None? then w
      else
        var p := policy.value;
        var s := Reconcile(w.mem, p, now, w.settings);
        var h := Noted(Then(w.log, Queued(QueuedBy(w.mem, p, now, w.settings))), s, write);
        var next := w.(mem := s, disk := OnDisk(w.disk, s, write), log := h);
        if write.Saved? then next.(scanning := due != [], batch := due) else next
    case Skip => if w.batch == [] then w else w.(batch := w.batch[1..])
    case Claim(p, write) =>
      if w.batch == [] then w
      else
        var id := w.batch[0];
        if id !in w.mem.deliveries || !Allowed(w.mem, id, p) then w.(batch := w.batch[1..])
        else
          var s := Claimed(w.mem, id);
          var next := w.(disk := OnDisk(w.disk, s, write), log := Noted(w.log, s, write));
          if write.Saved? then
            next.(mem := s, batch := w.batch[1..], inFlight := w.inFlight + {id},
                  log := Then(next.log, Sent(id, s.deliveries[id].attempts)))
          else next.(batch := [])
    case Stop => w.(batch := [])
    case Finish(id, result, finished, write) =>
      var next := w.(inFlight := w.inFlight - {id},
                     log := if result.Accepted? then Then(w.log, Succeeded(id)) else w.log);
      if id !in w.mem.deliveries || w.mem.deliveries[id].deliveredAt.Some? then next
      else
        var s := Closed(w.mem, id, result, finished, w.settings);
        next.(mem := s, disk := OnDisk(w.disk, s, write), log := Noted(next.log, s, write))
    case EndScan => w.(scanning := false)
    case Update(cfg, valid, now, write) =>
      if !valid then w
      else
        var ids := Revivable(w.mem, w.settings, cfg);
        var s := Revive(w.mem, ids, now);
        var next := if write.Lost? then w
                    else w.(disk := s, log := Noted(Then(w.log, Reset(ids)), s, write));
        if write.Saved? then next.(mem := s, settings := cfg) else next
    case Crash(cfg) =>
      World(w.disk, w.disk, cfg, false, [], {}, Then(w.log, Crashed))
  }

  /** ws is a run taking the actions as, from a process that found no state file. */
  ghost predicate IsRun(ws: seq<World>, acts: seq<Action>) {
    && |ws| == |acts| + 1
    && ws[0].log == Start && ws[0] == Boot(EMPTY, ws[0].settings)
    && forall i :: 0 <= i < |acts| ==> Enabled(ws[i], acts[i]) && ws[i + 1] == Apply(ws[i], acts[i])
  }

  /** Nothing but one life of the process. */
  predicate OneLife(acts: seq<Action>) {
    forall a :: a in acts ==> !a.Crash?
  }
}
