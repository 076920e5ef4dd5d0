/**
  The notification engine's state and the meaning of one reconciliation pass.

  The four passes of a scan (ingest the signals, recover absent conditions, prune
  conditions, prune deliveries) are functions on values here. Each takes the keys
  or ids still to be visited, so that the loops of `AlertingEngine` can be related
  to it in whatever order a map hands out its keys.
 */
module Alerting {
  import opened Base

  type Time = int // nanoseconds; the wall clock may also run backwards

  const SECOND: int := 1_000_000_000
  const HOUR: int := 3600 * SECOND
  const RETENTION: int := 30 * 24 * HOUR
  const MAX_BATCH: nat := 32
  const MAX_IN_FLIGHT: nat := 8

  /** Stable signal identity. The digest of an alert's four texts is taken to be injective. */
  datatype Key =
    | Offline(host: string)
    | Alert(host: string, name: string, desc: string, ackTime: string)
    | Collector(topic: string)

  datatype Kind = Critical | Escalation | Recovery

  /** The delivery id: a digest of key, kind and activation time, taken to be injective. */
  datatype DeliveryId = DeliveryId(key: Key, kind: Kind, activation: Time)

  datatype Signal = Signal(host: string, ackKey: string, startedAt: Option<Time>,
                           sourceUnready: bool, suppressEscalation: bool)

  datatype Condition = Condition(host: string, ackKey: string, firstSeen: Time, lastSeen: Time,
                                 active: bool, suppressEscalation: bool)

  datatype Delivery = Delivery(createdAt: Time, nextAttempt: Time, attempts: nat,
                               deliveredAt: Option<Time>, inactiveAt: Option<Time>,
                               deadLetter: bool, failedAt: Option<Time>)

  /** What is written to, and reloaded from, the state file. */
  datatype State = State(conditions: map<Key, Condition>, deliveries: map<DeliveryId, Delivery>)

  datatype Settings = Settings(enabled: bool, url: string, escalationHours: int,
                               retryMax: nat, retryBaseSeconds: nat)

  /** One reading of the snapshot and silence callbacks. */
  datatype Policy = Policy(signals: map<Key, Signal>, recoveryReady: set<string>, sourceReady: bool,
                           acked: set<string>, maintenance: set<string>)

  const EMPTY: State := State(map[], map[])

  function Fresh(now: Time): Delivery {
    Delivery(now, now, 0, None, None, false, None)
  }

  function IdOf(k: Key, kind: Kind, c: Condition): DeliveryId {
    DeliveryId(k, kind, c.firstSeen)
  }

  predicate Delivered(s: State, id: DeliveryId) {
    id in s.deliveries && s.deliveries[id].deliveredAt.Some?
  }

  predicate ActiveIn(s: State, k: Key) {
    k in s.conditions && s.conditions[k].active
  }

  // ----- Activation identity ------------------------------------------------

  /** Activation times of every delivery of k that is still retained. */
  function Taken(s: State, k: Key): set<Time> {
    set id | id in s.deliveries && id.key == k :: id.activation
  }

  /** The start time the signal itself asks for. */
  function Asked(startedAt: Option<Time>, now: Time): Time {
    if startedAt.None? || startedAt.value > now then now else startedAt.value
  }

  /** The start time a new activation asks for, before collisions are looked at. */
  function Candidate(previous: Option<Condition>, startedAt: Option<Time>, now: Time): Time {
    var t := Asked(startedAt, now);
    if previous.Some? && t <= previous.value.lastSeen then
      if now > previous.value.firstSeen then now else previous.value.firstSeen + 1
    else t
  }

  /** The next start time tried after t collides. */
  function Bump(t: Time, now: Time): Time {
    if t < now then now else t + 1
  }

  /** The taken start times that a search standing at t can still run into. */
  function Ahead(taken: set<Time>, t: Time): set<Time> {
    set x | x in taken && t <= x
  }

  /** The first start time, from t on, that no retained delivery uses. */
  function FirstFree(taken: set<Time>, t: Time, now: Time): Time
    decreases Ahead(taken, t)
  {
    if t in taken then
      assert t in Ahead(taken, t) && Ahead(taken, Bump(t, now)) <= Ahead(taken, t);
      FirstFree(taken, Bump(t, now), now)
    else t
  }

  // ----- Ingesting signals --------------------------------------------------

  /** The keys whose signal may activate or refresh a condition. */
  function Ready(p: Policy): set<Key> {
    set k | k in p.signals && !p.signals[k].sourceUnready
  }

  function Existing(s: State, k: Key): Option<Condition> {
    if k in s.conditions then Some(s.conditions[k]) else None
  }

  function ActivationStart(s: State, p: Policy, k: Key, now: Time): Time
    requires k in p.signals
  {
    if ActiveIn(s, k) then s.conditions[k].firstSeen
    else FirstFree(Taken(s, k), Candidate(Existing(s, k), p.signals[k].startedAt, now), now)
  }

  function Activated(s: State, p: Policy, k: Key, now: Time): Condition
    requires k in p.signals
  {
    var sig := p.signals[k];
    Condition(sig.host, sig.ackKey, ActivationStart(s, p, k, now), now, true, sig.suppressEscalation)
  }

  predicate EscalationDue(s: State, p: Policy, k: Key, c: Condition, now: Time, cfg: Settings) {
    && !c.suppressEscalation
    && (cfg.escalationHours == 4 || cfg.escalationHours == 24)
    && Delivered(s, IdOf(k, Critical, c))
    && (c.ackKey == "" || c.ackKey !in p.acked)
    && now - c.firstSeen >= cfg.escalationHours * HOUR
  }

  /** Whether ingesting k asks for a delivery of this kind. */
  predicate Wants(s: State, p: Policy, k: Key, kind: Kind, now: Time, cfg: Settings)
    requires k in p.signals
  {
    var c := Activated(s, p, k, now);
    && c.host !in p.maintenance
    && (kind == Critical || (kind == Escalation && EscalationDue(s, p, k, c, now, cfg)))
  }

  function IngestedIds(s: State, p: Policy, now: Time, cfg: Settings, keys: set<Key>): set<DeliveryId> {
    set k, kind | k in keys && k in p.signals && kind in {Critical, Escalation} && Wants(s, p, k, kind, now, cfg)
      :: DeliveryId(k, kind, ActivationStart(s, p, k, now))
  }

  /** Deliveries d with a fresh record for each id of `queued` that has none. */
  function Enqueue(d: map<DeliveryId, Delivery>, queued: set<DeliveryId>, now: Time): map<DeliveryId, Delivery> {
    map id | id in d.Keys + queued :: if id in d then d[id] else Fresh(now)
  }

  function Ingest(s: State, p: Policy, now: Time, cfg: Settings, keys: set<Key>): State {
    State(map k | k in s.conditions.Keys + (keys * p.signals.Keys)
            :: if k in keys && k in p.signals then Activated(s, p, k, now) else s.conditions[k],
          Enqueue(s.deliveries, IngestedIds(s, p, now, cfg, keys), now))
  }

  // ----- Recovering absent conditions ---------------------------------------

  /** Authoritative absence: the key is gone and its host (or the fleet) may say so. */
  predicate Absent(s: State, p: Policy, k: Key) {
    && ActiveIn(s, k)
    && k !in p.signals
    && (p.sourceReady || s.conditions[k].host in p.recoveryReady)
  }

  function CriticalOf(s: State, k: Key): DeliveryId
    requires k in s.conditions
  {
    IdOf(k, Critical, s.conditions[k])
  }

  function RecoveryIds(s: State, p: Policy, keys: set<Key>): set<DeliveryId> {
    set k | k in keys && Absent(s, p, k) && Delivered(s, CriticalOf(s, k))
      :: IdOf(k, Recovery, s.conditions[k])
  }

  /** Critical messages nobody was sent, of conditions that recovered first. */
  function Unsent(s: State, p: Policy, keys: set<Key>): set<DeliveryId> {
    set k | k in keys && Absent(s, p, k) && !Delivered(s, CriticalOf(s, k)) :: CriticalOf(s, k)
  }

  function Recover(s: State, p: Policy, now: Time, keys: set<Key>): State {
    State(map k | k in s.conditions
            :: if k in keys && Absent(s, p, k) then s.conditions[k].(active := false, lastSeen := now)
               else s.conditions[k],
          Enqueue(s.deliveries, RecoveryIds(s, p, keys), now) - Unsent(s, p, keys))
  }

  // ----- Pruning ------------------------------------------------------------

  predicate Expired(c: Condition, now: Time) {
    !c.active && now - c.lastSeen > RETENTION
  }

  function PruneConditions(s: State, now: Time, keys: set<Key>): State {
    s.(conditions := map k | k in s.conditions && !(k in keys && Expired(s.conditions[k], now)) :: s.conditions[k])
  }

  predicate Current(conditions: map<Key, Condition>, id: DeliveryId) {
    id.key in conditions && id.activation == conditions[id.key].firstSeen
  }

  /** What is left of one delivery record after pruning. */
  function PruneOne(conditions: map<Key, Condition>, id: DeliveryId, d: Delivery, now: Time): Option<Delivery> {
    var live := Current(conditions, id) && conditions[id.key].active;
    if id.kind != Recovery && d.deliveredAt.None? && !live then None
    else if live then Some(d)
    else
      var since := if d.inactiveAt.Some? then d.inactiveAt.value
                   else if Current(conditions, id) then conditions[id.key].lastSeen else now;
      var stamp := if d.deliveredAt.Some? && d.deliveredAt.value > since then d.deliveredAt.value else since;
      if now - stamp > RETENTION then None else Some(d.(inactiveAt := Some(since)))
  }

  function PruneDeliveries(s: State, now: Time, ids: set<DeliveryId>): State {
    s.(deliveries :=
      map id | id in s.deliveries && !(id in ids && PruneOne(s.conditions, id, s.deliveries[id], now).None?)
        :: if id in ids then PruneOne(s.conditions, id, s.deliveries[id], now).value else s.deliveries[id])
  }

  // ----- One reconciliation -------------------------------------------------

  function Ingested(s: State, p: Policy, now: Time, cfg: Settings): State {
    Ingest(s, p, now, cfg, Ready(p))
  }

  function Recovered(s: State, p: Policy, now: Time, cfg: Settings): State {
    var s1 := Ingested(s, p, now, cfg);
    Recover(s1, p, now, s1.conditions.Keys)
  }

  /** The whole locked part of a scan, before the queue is written. */
  function Reconcile(s: State, p: Policy, now: Time, cfg: Settings): State {
    var s2 := Recovered(s, p, now, cfg);
    var s3 := PruneConditions(s2, now, s2.conditions.Keys);
    PruneDeliveries(s3, now, s3.deliveries.Keys)
  }

  /** The ids a scan puts on the queue: those it asks for that have no record yet. */
  function QueuedBy(s: State, p: Policy, now: Time, cfg: Settings): set<DeliveryId> {
    var s1 := Ingested(s, p, now, cfg);
    (IngestedIds(s, p, now, cfg, Ready(p)) - s.deliveries.Keys)
    + (RecoveryIds(s1, p, s1.conditions.Keys) - s1.deliveries.Keys)
  }

  // ----- Sending ------------------------------------------------------------

  /** Whether the latest policy still lets this record go out. */
  predicate Allowed(s: State, id: DeliveryId, p: Policy) {
    id.kind == Recovery ||
    (&& ActiveIn(s, id.key)
     && Current(s.conditions, id)
     && var c := s.conditions[id.key];
        if id.key in p.signals then
          var sig := p.signals[id.key];
          && !sig.sourceUnready
          && sig.host !in p.maintenance
          && (id.kind != Escalation || (!sig.suppressEscalation && sig.ackKey !in p.acked))
        else
          && !p.sourceReady && c.host !in p.recoveryReady
          && c.host !in p.maintenance
          && (id.kind != Escalation || (!c.suppressEscalation && c.ackKey !in p.acked)))
  }

  predicate Pending(d: Delivery) {
    d.deliveredAt.None? && !d.deadLetter
  }

  predicate Eligible(s: State, id: DeliveryId, p: Policy, now: Time) {
    id in s.deliveries && Pending(s.deliveries[id]) && s.deliveries[id].nextAttempt <= now && Allowed(s, id, p)
  }

  ghost predicate Distinct<T>(ids: seq<T>) {
    forall i, j :: 0 <= i < j < |ids| ==> ids[i] != ids[j]
  }

  ghost predicate OldestFirst(s: State, ids: seq<DeliveryId>)
    requires forall id :: id in ids ==> id in s.deliveries
  {
    forall i, j :: 0 <= i < j < |ids| ==> s.deliveries[ids[i]].createdAt <= s.deliveries[ids[j]].createdAt
  }

  /** A batch: the oldest eligible records, in order, as many as fit. Ties fall either way. */
  ghost predicate IsBatch(s: State, p: Policy, now: Time, due: seq<DeliveryId>) {
    && Distinct(due)
    && (forall id :: id in due ==> Eligible(s, id, p, now))
    && OldestFirst(s, due)
    && |due| <= MAX_BATCH
    && (forall id :: Eligible(s, id, p, now) && id !in due ==>
          |due| == MAX_BATCH
          && forall other :: other in due ==> s.deliveries[other].createdAt <= s.deliveries[id].createdAt)
  }

  /** base * 2^(attempts-1) seconds, at most one hour. */
  function Doubled(base: int, times: nat): int {
    if times == 0 then base else 2 * Doubled(base, times - 1)
  }

  function RetryDelay(cfg: Settings, attempts: nat): int {
    Min(Doubled(cfg.retryBaseSeconds * SECOND, if attempts == 0 then 0 else attempts - 1), HOUR)
  }

  datatype SendResult = Accepted | Refused(permanent: bool)

  /** The record after the outcome of one request is known. */
  function Finished(d: Delivery, result: SendResult, finished: Time, cfg: Settings): Delivery {
    match result
    case Accepted => d.(deliveredAt := Some(finished), failedAt := None)
    case Refused(permanent) =>
      var failed := d.(failedAt := Some(finished));
      if permanent || d.attempts >= cfg.retryMax then failed.(deadLetter := true)
      else failed.(nextAttempt := finished + RetryDelay(cfg, d.attempts))
  }

  /** The dead letters a settings change puts back on the queue. */
  function Revivable(s: State, before: Settings, after: Settings): set<DeliveryId> {
    if after.url != before.url || (!before.enabled && after.enabled)
    then set id | id in s.deliveries && s.deliveries[id].deadLetter && s.deliveries[id].deliveredAt.None?
    else {}
  }

  function Revive(s: State, ids: set<DeliveryId>, now: Time): State {
    s.(deliveries := map id | id in s.deliveries
        :: if id in ids then s.deliveries[id].(deadLetter := false, attempts := 0, failedAt := None, nextAttempt := now)
           else s.deliveries[id])
  }
}
