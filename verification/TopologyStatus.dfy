/** Node kinds, their levels, and the five statuses in order of severity. */
module TopologyStatus {
  import opened Base

  datatype Status = Ok | Unknown | Warning | Degraded | Critical

  function Rank(s: Status): nat {
    match s
    case Ok => 0 case Unknown => 1 case Warning => 2 case Degraded => 3 case Critical => 4
  }

  predicate NoWorse(a: Status, b: Status) {
    Rank(a) <= Rank(b)
  }

  function Worse(a: Status, b: Status): Status {
    if NoWorse(b, a) then a else b
  }

  /** The worst of several statuses; unknown if there is none. */
  method StatusMax(statuses: seq<Status>) returns (worst: Status)
    ensures statuses == [] ==> worst == Unknown
    ensures statuses != [] ==> worst in statuses
    ensures forall s :: s in statuses ==> NoWorse(s, worst)
  {
    var best: int := -1;
    worst := Unknown;
    for i := 0 to |statuses|
      invariant best == if i == 0 then -1 else Rank(worst)
      invariant i > 0 ==> worst in statuses
      invariant i == 0 ==> worst == Unknown
      invariant forall j :: 0 <= j < i ==> NoWorse(statuses[j], worst)
    {
      if Rank(statuses[i]) > best {
        best, worst := Rank(statuses[i]), statuses[i];
      }
    }
  }

  datatype Kind =
    | Fleet | Site | Cluster | Node | Nic | Disk | SharedNetwork | StorageGroup | Quorum
    | Vm | LocalVm | Volume | DiskImage | ImageContainer

  const LAST_LEVEL: nat := 9

  function LevelOf(k: Kind): (level: nat)
    ensures level <= LAST_LEVEL
  {
    match k
    case Fleet => 0
    case Site => 1
    case Cluster => 2
    case Node => 3
    case Nic => 4
    case Disk => 4
    case SharedNetwork => 5
    case StorageGroup => 5
    case Quorum => 5
    case Vm => 6
    case LocalVm => 7
    case Volume => 7
    case DiskImage => 8
    case ImageContainer => 9
  }

  /** Children of this kind are redundant: a healthy twin absorbs the failure of one. */
  predicate Damps(parent: Kind, child: Kind) {
    (parent.Cluster? && child.Node?) || (parent.Vm? && child.LocalVm?) || (parent.Volume? && child.DiskImage?)
  }

  /** Kinds with a live status of their own, which is believed over alerts. */
  predicate Authoritative(k: Kind) {
    !(k.Fleet? || k.Site? || k.Quorum? || k.ImageContainer?)
  }

  const ALERT_CEILING: Status := Warning

  /** A node's own status with its alerts. */
  function EffectiveStatus(k: Kind, status: Status, alert: Option<Status>): Status {
    match alert
    case None => status
    case Some(a) =>
      if Authoritative(k) && status == Ok then Worse(status, if NoWorse(a, ALERT_CEILING) then a else ALERT_CEILING)
      else Worse(status, a)
  }

  predicate AlertNoWorse(a: Option<Status>, b: Option<Status>) {
    a.Some? ==> b.Some? && NoWorse(a.value, b.value)
  }

  lemma EffectiveIsMonotone(k: Kind, s1: Status, s2: Status, a1: Option<Status>, a2: Option<Status>)
    requires NoWorse(s1, s2) && AlertNoWorse(a1, a2)
    ensures NoWorse(EffectiveStatus(k, s1, a1), EffectiveStatus(k, s2, a2))
  {
  }

  // ----- One node with its children ------------------------------------------

  /** The children's kinds and statuses; one of this kind is healthy. */
  predicate Healthy(kids: seq<(Kind, Status)>, k: Kind) {
    exists j :: 0 <= j < |kids| && kids[j] == (k, Ok)
  }

  /** What a child's status counts as in its parent. */
  function Share(parent: Kind, kids: seq<(Kind, Status)>, j: nat): Status
    requires j < |kids|
  {
    if kids[j].1 == Critical && Damps(parent, kids[j].0) && Healthy(kids, kids[j].0) then Degraded else kids[j].1
  }

  /** A node's status after its first n children. */
  function Combine(parent: Kind, own: Status, kids: seq<(Kind, Status)>, n: nat): Status
    requires n <= |kids|
  {
    if n == 0 then own else Worse(Combine(parent, own, kids, n - 1), Share(parent, kids, n - 1))
  }

  /** The combined status is the worst of the own one and the shares. */
  lemma {:induction false} CombineIsWorst(parent: Kind, own: Status, kids: seq<(Kind, Status)>, n: nat)
    requires n <= |kids|
    ensures NoWorse(own, Combine(parent, own, kids, n))
    ensures forall j :: 0 <= j < n ==> NoWorse(Share(parent, kids, j), Combine(parent, own, kids, n))
    ensures (Combine(parent, own, kids, n) == own
             || exists j :: 0 <= j < n && Combine(parent, own, kids, n) == Share(parent, kids, j))
  {
    if n > 0 { CombineIsWorst(parent, own, kids, n - 1); }
  }

  predicate AllNoWorse(a: seq<(Kind, Status)>, b: seq<(Kind, Status)>) {
    |a| == |b| && forall j :: 0 <= j < |a| ==> a[j].0 == b[j].0 && NoWorse(a[j].1, b[j].1)
  }

  /** Worse children never make a better parent, although damping depends on healthy twins. */
  lemma {:induction false} CombineIsMonotone(parent: Kind, own1: Status, own2: Status,
                                             a: seq<(Kind, Status)>, b: seq<(Kind, Status)>, n: nat)
    requires NoWorse(own1, own2) && AllNoWorse(a, b) && n <= |a|
    ensures NoWorse(Combine(parent, own1, a, n), Combine(parent, own2, b, n))
  {
    if n > 0 {
      CombineIsMonotone(parent, own1, own2, a, b, n - 1);
      var k := a[n - 1].0;
      if Healthy(b, k) {
        var j :| 0 <= j < |b| && b[j] == (k, Ok);
        assert a[j] == (k, Ok);
      }
    }
  }
}
