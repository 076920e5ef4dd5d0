/** The recursive meaning of the roll-up: what each node's status and descendant count should be. */
module TopologyRollup {
  import opened Base
  import opened TopologyForest
  import opened TopologyStatus

  type Id = string

  datatype GNode = GNode(id: Id, kind: Kind, level: nat, parent: Option<Id>, status: Status, alert: Option<Status>,
                         effective: Status, rollup: Status, children: nat, descendants: nat)

  type Nodes = seq<GNode>

  ghost predicate DistinctIds(t: Nodes) {
    forall i, j :: 0 <= i < |t| && 0 <= j < |t| && t[i].id == t[j].id ==> i == j
  }

  ghost predicate Present(t: Nodes, id: Id) {
    exists i :: 0 <= i < |t| && t[i].id == id
  }

  /** Every parent is there, at a smaller level. */
  ghost predicate IsTree(t: Nodes) {
    && DistinctIds(t)
    && (forall i :: 0 <= i < |t| ==> t[i].level <= LAST_LEVEL)
    && (forall i :: 0 <= i < |t| ==> ParentIsAbove(t, i))
  }

  ghost predicate ParentIsAbove(t: Nodes, i: nat)
    requires i < |t|
  {
    t[i].parent.Some? ==> exists p :: 0 <= p < |t| && t[p].id == t[i].parent.value && t[p].level < t[i].level
  }

  /** The nodes among the first n whose parent is the given one, in order. */
  function KidsAmong(t: Nodes, id: Id, n: nat): (ks: seq<nat>)
    requires n <= |t|
    ensures forall a :: 0 <= a < |ks| ==> ks[a] < n && t[ks[a]].parent == Some(id)
    ensures forall k: nat :: k < n && t[k].parent == Some(id) ==> k in ks
    ensures forall a, b :: 0 <= a < b < |ks| ==> ks[a] < ks[b]
  {
    if n == 0 then []
    else if t[n - 1].parent == Some(id) then KidsAmong(t, id, n - 1) + [n - 1]
    else KidsAmong(t, id, n - 1)
  }

  function Kids(t: Nodes, i: nat): seq<nat>
    requires i < |t|
  {
    KidsAmong(t, t[i].id, |t|)
  }

  lemma KidsAreDeeper(t: Nodes, i: nat, k: nat)
    requires IsTree(t) && i < |t| && k < |t| && t[k].parent == Some(t[i].id)
    ensures t[k].level > t[i].level
  {
    assert ParentIsAbove(t, k);
    var p :| 0 <= p < |t| && t[p].id == t[k].parent.value && t[p].level < t[k].level;
    assert p == i;
  }

  /** The status of a node with everything below it. */
  ghost function RollupOf(t: Nodes, i: nat): Status
    requires IsTree(t) && i < |t|
    decreases LAST_LEVEL - t[i].level, 1
  {
    Combine(t[i].kind, t[i].effective, KidStatuses(t, i), |KidStatuses(t, i)|)
  }

  ghost function KidStatuses(t: Nodes, i: nat): (s: seq<(Kind, Status)>)
    requires IsTree(t) && i < |t|
    ensures |s| == |Kids(t, i)|
    decreases LAST_LEVEL - t[i].level, 0
  {
    var ks := Kids(t, i);
    seq(|ks|, j requires 0 <= j < |ks| =>
      KidsAreDeeper(t, i, ks[j]);
      (t[ks[j]].kind, RollupOf(t, ks[j])))
  }

  // ----- Properties ----------------------------------------------------------

  /** Same ids, kinds, levels and parents. */
  ghost predicate SameShape(t: Nodes, u: Nodes) {
    |t| == |u| && forall i :: 0 <= i < |t| ==> SameNode(t[i], u[i])
  }

  predicate SameNode(a: GNode, b: GNode) {
    a.id == b.id && a.kind == b.kind && a.level == b.level && a.parent == b.parent
  }

  lemma {:induction false} SameKids(t: Nodes, u: Nodes, id: Id, n: nat)
    requires SameShape(t, u) && n <= |t|
    ensures KidsAmong(t, id, n) == KidsAmong(u, id, n)
  {
    if n > 0 { SameKids(t, u, id, n - 1); }
  }

  lemma ShapeKeepsTree(t: Nodes, u: Nodes)
    requires SameShape(t, u) && IsTree(t)
    ensures IsTree(u)
  {
    forall i | 0 <= i < |u| && u[i].parent.Some? ensures ParentIsAbove(u, i) {
      assert ParentIsAbove(t, i);
      var p :| 0 <= p < |t| && t[p].id == t[i].parent.value && t[p].level < t[i].level;
      assert u[p].id == u[i].parent.value;
    }
  }

  /** Making the own status of any nodes worse makes no node's roll-up better. */
  lemma {:induction false} RollupIsMonotone(t: Nodes, u: Nodes, i: nat)
    requires SameShape(t, u) && IsTree(t) && IsTree(u) && i < |t|
    requires forall j :: 0 <= j < |t| ==> NoWorse(t[j].effective, u[j].effective)
    ensures NoWorse(RollupOf(t, i), RollupOf(u, i))
    decreases LAST_LEVEL - t[i].level
  {
    SameKids(t, u, t[i].id, |t|);
    var ks := Kids(t, i);
    forall j | 0 <= j < |ks| ensures NoWorse(KidStatuses(t, i)[j].1, KidStatuses(u, i)[j].1) {
      KidsAreDeeper(t, i, ks[j]);
      RollupIsMonotone(t, u, ks[j]);
    }
    CombineIsMonotone(t[i].kind, t[i].effective, u[i].effective, KidStatuses(t, i), KidStatuses(u, i), |ks|);
  }

  lemma KidIndex(t: Nodes, i: nat, k: nat) returns (j: nat)
    requires IsTree(t) && i < |t| && k < |t| && t[k].parent == Some(t[i].id)
    ensures j < |Kids(t, i)| && Kids(t, i)[j] == k && KidStatuses(t, i)[j] == (t[k].kind, RollupOf(t, k))
  {
    assert k in Kids(t, i);
    j :| 0 <= j < |Kids(t, i)| && Kids(t, i)[j] == k;
  }

  /** A parent is at least as bad as each child; only a critical child may count as degraded, and only beside a healthy twin. */
  lemma ParentsAreNoBetter(t: Nodes, i: nat, k: nat)
    requires IsTree(t) && i < |t| && k < |t| && t[k].parent == Some(t[i].id)
    ensures (NoWorse(RollupOf(t, k), RollupOf(t, i))
             || (RollupOf(t, k) == Critical && RollupOf(t, i) == Degraded && Damps(t[i].kind, t[k].kind)
                 && exists w :: 0 <= w < |t| && t[w].parent == t[k].parent && t[w].kind == t[k].kind && RollupOf(t, w) == Ok))
    ensures NoWorse(t[i].effective, RollupOf(t, i))
  {
    hide KidsAmong, IsTree, DistinctIds, Combine;
    var j := KidIndex(t, i, k);
    var kids := KidStatuses(t, i);
    CombineIsWorst(t[i].kind, t[i].effective, kids, |kids|);
    if Share(t[i].kind, kids, j) != kids[j].1 {
      var h :| 0 <= h < |kids| && kids[h] == (t[k].kind, Ok);
    }
  }

  /** Kinds whose redundancy can absorb a failure: machines of a cluster, instances of a VM, images of a volume. */
  predicate Twins(parent: Kind, child: Kind) {
    match parent
    case Cluster => child == Node
    case Vm => child == LocalVm
    case Volume => child == DiskImage
    case _ => false
  }

  /** A critical child of such a kind with a healthy sibling of its kind. */
  ghost predicate Absorbed(t: Nodes, i: nat, k: nat)
    requires IsTree(t) && i < |t| && k < |t|
  {
    && RollupOf(t, k) == Critical && Twins(t[i].kind, t[k].kind)
    && exists w :: 0 <= w < |t| && t[w].parent == Some(t[i].id) && t[w].kind == t[k].kind && RollupOf(t, w) == Ok
  }

  lemma HealthyIs(t: Nodes, i: nat, kind: Kind)
    requires IsTree(t) && i < |t|
    ensures Healthy(KidStatuses(t, i), kind) <==>
              exists w :: 0 <= w < |t| && t[w].parent == Some(t[i].id) && t[w].kind == kind && RollupOf(t, w) == Ok
  {
    hide KidsAmong, IsTree, DistinctIds, RollupOf, KidStatuses;
    var kids := KidStatuses(t, i);
    if Healthy(kids, kind) {
      var h :| 0 <= h < |kids| && kids[h] == (kind, Ok);
      var w := KidAt(t, i, h);
      assert t[w].parent == Some(t[i].id);
    }
    if w :| 0 <= w < |t| && t[w].parent == Some(t[i].id) && t[w].kind == kind && RollupOf(t, w) == Ok {
      var h := KidIndex(t, i, w);
      assert kids[h] == (kind, Ok);
    }
  }

  lemma KidAt(t: Nodes, i: nat, j: nat) returns (k: nat)
    requires IsTree(t) && i < |t| && j < |KidStatuses(t, i)|
    ensures j < |Kids(t, i)| && k == Kids(t, i)[j] && k < |t| && t[k].parent == Some(t[i].id)
    ensures KidStatuses(t, i)[j] == (t[k].kind, RollupOf(t, k))
  {
    hide RollupOf, KidsAmong;
    k := Kids(t, i)[j];
  }

  /** What a child counts as in its parent. */
  lemma ShareIs(t: Nodes, i: nat, k: nat, j: nat)
    requires IsTree(t) && i < |t| && k < |t| && t[k].parent == Some(t[i].id)
    requires j < |KidStatuses(t, i)| && KidStatuses(t, i)[j] == (t[k].kind, RollupOf(t, k))
    ensures Share(t[i].kind, KidStatuses(t, i), j) == if Absorbed(t, i, k) then Degraded else RollupOf(t, k)
  {
    hide KidsAmong, IsTree, DistinctIds, RollupOf, KidStatuses, Healthy;
    HealthyIs(t, i, t[k].kind);
  }

  lemma RollupIsWorst(t: Nodes, i: nat)
    requires IsTree(t) && i < |t|
    ensures NoWorse(t[i].effective, RollupOf(t, i))
    ensures forall j :: 0 <= j < |KidStatuses(t, i)| ==> NoWorse(Share(t[i].kind, KidStatuses(t, i), j), RollupOf(t, i))
    ensures (RollupOf(t, i) == t[i].effective
             || exists j :: 0 <= j < |KidStatuses(t, i)| && RollupOf(t, i) == Share(t[i].kind, KidStatuses(t, i), j))
  {
    hide KidsAmong, IsTree, DistinctIds, Combine, Share, KidStatuses;
    CombineIsWorst(t[i].kind, t[i].effective, KidStatuses(t, i), |KidStatuses(t, i)|);
  }

  /** What a child counts as: its roll-up, or degraded if its failure is absorbed. */
  ghost function CountsAs(t: Nodes, i: nat, k: nat): Status
    requires IsTree(t) && i < |t| && k < |t|
  {
    if Absorbed(t, i, k) then Degraded else RollupOf(t, k)
  }

  lemma ChildCounts(t: Nodes, i: nat, k: nat)
    requires IsTree(t) && i < |t| && k < |t| && t[k].parent == Some(t[i].id)
    ensures NoWorse(CountsAs(t, i, k), RollupOf(t, i))
  {
    hide KidsAmong, IsTree, DistinctIds, Share, Absorbed, RollupOf, KidStatuses;
    RollupIsWorst(t, i);
    var j := KidIndex(t, i, k);
    ShareIs(t, i, k, j);
  }

  /** A roll-up is the node's own effective status or what some child counts as, and the worst of them. */
  lemma RollupIs(t: Nodes, i: nat)
    requires IsTree(t) && i < |t|
    ensures NoWorse(t[i].effective, RollupOf(t, i))
    ensures forall k :: 0 <= k < |t| && t[k].parent == Some(t[i].id) ==> NoWorse(CountsAs(t, i, k), RollupOf(t, i))
    ensures (RollupOf(t, i) == t[i].effective
             || exists k :: 0 <= k < |t| && t[k].parent == Some(t[i].id) && RollupOf(t, i) == CountsAs(t, i, k))
  {
    hide KidsAmong, IsTree, DistinctIds, Share, Absorbed, RollupOf, KidStatuses;
    RollupIsWorst(t, i);
    forall k | 0 <= k < |t| && t[k].parent == Some(t[i].id) ensures NoWorse(CountsAs(t, i, k), RollupOf(t, i)) {
      ChildCounts(t, i, k);
    }
    if RollupOf(t, i) != t[i].effective {
      var j :| 0 <= j < |KidStatuses(t, i)| && RollupOf(t, i) == Share(t[i].kind, KidStatuses(t, i), j);
      var k := KidAt(t, i, j);
      ShareIs(t, i, k, j);
      assert RollupOf(t, i) == CountsAs(t, i, k);
    }
  }

  /** Critical is exactly: critical oneself, or over a critical child that nothing absorbs. */
  lemma CriticalIff(t: Nodes, i: nat)
    requires IsTree(t) && i < |t|
    ensures RollupOf(t, i) == Critical <==>
              t[i].effective == Critical
              || exists k :: 0 <= k < |t| && t[k].parent == Some(t[i].id) && RollupOf(t, k) == Critical && !Absorbed(t, i, k)
  {
    hide IsTree, DistinctIds, RollupOf, Absorbed;
    RollupIs(t, i);
    if k :| 0 <= k < |t| && t[k].parent == Some(t[i].id) && RollupOf(t, k) == Critical && !Absorbed(t, i, k) {
      assert CountsAs(t, i, k) == Critical;
    }
  }

  /** An absorbed failure is a degradation and no more, if nothing else is critical. */
  lemma AbsorbedDegrades(t: Nodes, i: nat, k: nat)
    requires IsTree(t) && i < |t| && k < |t| && t[k].parent == Some(t[i].id) && Absorbed(t, i, k)
    requires t[i].effective != Critical
    requires forall c :: 0 <= c < |t| && t[c].parent == Some(t[i].id) && RollupOf(t, c) == Critical ==> Absorbed(t, i, c)
    ensures RollupOf(t, i) == Degraded
  {
    hide IsTree, DistinctIds, RollupOf, Absorbed;
    CriticalIff(t, i);
    ChildCounts(t, i, k);
  }

  /** A node is ok exactly when it and its children are. */
  lemma OkMeansAllOk(t: Nodes, i: nat)
    requires IsTree(t) && i < |t|
    ensures (RollupOf(t, i) == Ok <==>
             t[i].effective == Ok && forall k :: 0 <= k < |t| && t[k].parent == Some(t[i].id) ==> RollupOf(t, k) == Ok)
  {
    hide KidsAmong, IsTree, DistinctIds, Combine;
    var kids := KidStatuses(t, i);
    CombineIsWorst(t[i].kind, t[i].effective, kids, |kids|);
    forall k | 0 <= k < |t| && t[k].parent == Some(t[i].id) && RollupOf(t, i) == Ok ensures RollupOf(t, k) == Ok {
      ParentsAreNoBetter(t, i, k);
    }
    if t[i].effective == Ok && RollupOf(t, i) != Ok {
      var j :| 0 <= j < |kids| && RollupOf(t, i) == Share(t[i].kind, kids, j);
    }
  }

  // ----- Descendants ---------------------------------------------------------

  ghost function ParentIndex(t: Nodes, j: nat): (p: nat)
    requires IsTree(t) && j < |t| && t[j].parent.Some?
    ensures p < |t| && t[p].id == t[j].parent.value && t[p].level < t[j].level
  {
    assert ParentIsAbove(t, j);
    var p :| 0 <= p < |t| && t[p].id == t[j].parent.value && t[p].level < t[j].level;
    p
  }

  /** The tree by positions alone. */
  ghost function ForestOf(t: Nodes): (f: Forest)
    requires IsTree(t)
    ensures |f| == |t| && IsForest(f)
  {
    seq(|t|, j requires 0 <= j < |t| =>
      Place(t[j].level, if t[j].parent.Some? then Some(ParentIndex(t, j)) else None))
  }

  ghost function Descendants(t: Nodes, i: nat): set<nat>
    requires IsTree(t) && i < |t|
  {
    UnderOf(ForestOf(t), i)
  }

  lemma UpIs(t: Nodes, i: nat, j: nat)
    requires IsTree(t) && i < |t| && j < |t|
    ensures ForestOf(t)[j].up == Some(i) <==> t[j].parent == Some(t[i].id)
  {
    if t[j].parent.Some? {
      var p := ParentIndex(t, j);
      assert p == i <==> t[j].parent == Some(t[i].id);
    }
  }

  /** The children found by id are those of the forest. */
  lemma {:induction false} KidsAreOffspring(t: Nodes, i: nat, n: nat)
    requires IsTree(t) && i < |t| && n <= |t|
    ensures KidsAmong(t, t[i].id, n) == Offspring(ForestOf(t), Some(i), n)
  {
    hide IsTree, ForestOf, IsForest;
    if n > 0 {
      KidsAreOffspring(t, i, n - 1);
      UpIs(t, i, n - 1);
    }
  }

  /** What the pass adds up for the first n of some nodes: each with everything counted for it. */
  function CountAll(counts: seq<nat>, ks: seq<nat>, n: nat): nat
    requires n <= |ks| && Within(ks, |counts|)
  {
    if n == 0 then 0 else CountAll(counts, ks, n - 1) + 1 + counts[ks[n - 1]]
  }
}
