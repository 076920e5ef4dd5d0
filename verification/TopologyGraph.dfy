/** The graph under construction and its final pass: uplinks, effective statuses, roll-up, counts. */
module TopologyGraph {
  import opened Base
  import opened TopologyForest
  import opened TopologyStatus
  import opened TopologyRollup

  datatype EdgeKind =
    | Contains | FtPair | Placement | ResidesOn | InstanceOf | Attaches | Mirror | StoredOn | MemberOf
    | Vnic | Uplink | Backs | QuorumLink

  datatype Edge = Edge(source: Id, target: Id, kind: EdgeKind, status: Status)

  function KeyOf(e: Edge): (Id, Id, EdgeKind) {
    (e.source, e.target, e.kind)
  }

  ghost predicate HasKey(edges: seq<Edge>, key: (Id, Id, EdgeKind)) {
    exists e :: e in edges && KeyOf(e) == key
  }

  // ----- What the final pass should compute ----------------------------------

  /** The uplink edges to one network among the first n edges. */
  function UplinksTo(edges: seq<Edge>, id: Id, n: nat): seq<Edge>
    requires n <= |edges|
  {
    if n == 0 then []
    else if edges[n - 1].kind.Uplink? && edges[n - 1].target == id then UplinksTo(edges, id, n - 1) + [edges[n - 1]]
    else UplinksTo(edges, id, n - 1)
  }

  function DownAmong(es: seq<Edge>, n: nat): (d: nat)
    requires n <= |es|
    ensures d <= n
  {
    if n == 0 then 0 else DownAmong(es, n - 1) + if es[n - 1].status == Critical then 1 else 0
  }

  /** A network whose ports are all down is critical, one with some down has lost its redundancy. */
  function AfterUplinks(status: Status, ups: seq<Edge>): Status {
    var down := DownAmong(ups, |ups|);
    if down == 0 then status
    else Worse(status, if down == |ups| then Critical else Degraded)
  }

  function Uplinked(t: Nodes, edges: seq<Edge>): (u: Nodes)
    ensures |u| == |t|
  {
    seq(|t|, i requires 0 <= i < |t| => t[i].(status := AfterUplinks(t[i].status, UplinksTo(edges, t[i].id, |edges|))))
  }

  function Effected(t: Nodes): (u: Nodes)
    ensures |u| == |t|
  {
    seq(|t|, i requires 0 <= i < |t| => t[i].(effective := EffectiveStatus(t[i].kind, t[i].status, t[i].alert)))
  }

  function Prepared(t: Nodes, edges: seq<Edge>): (u: Nodes)
    ensures |u| == |t|
  {
    Effected(Uplinked(t, edges))
  }

  lemma PreparedIsTree(t: Nodes, edges: seq<Edge>)
    requires IsTree(t)
    ensures SameShape(t, Prepared(t, edges)) && IsTree(Prepared(t, edges))
  {
    ShapeKeepsTree(t, Prepared(t, edges));
  }

  /** A node with its recursive roll-up and the number of its children and descendants. */
  ghost function RolledUp(t: Nodes, i: nat): GNode
    requires IsTree(t) && i < |t|
  {
    t[i].(rollup := RollupOf(t, i), children := |Kids(t, i)|, descendants := |Descendants(t, i)|)
  }

  ghost predicate AllRolledUp(t: Nodes, u: Nodes)
    requires IsTree(t)
  {
    |u| == |t| && forall i :: 0 <= i < |t| ==> u[i] == RolledUp(t, i)
  }

  // ----- The order of the pass -----------------------------------------------

  predicate Descending(t: Nodes, order: seq<nat>) {
    && Within(order, |t|)
    && forall a, b :: 0 <= a < b < |order| ==> t[order[a]].level >= t[order[b]].level
  }

  /** Behind everything at least as deep: the sort is stable. */
  function InsertByLevel(t: Nodes, order: seq<nat>, i: nat): (r: seq<nat>)
    requires i < |t| && Descending(t, order)
    ensures Descending(t, r)
    ensures forall k :: k in r <==> k in order || k == i
    ensures r != [] && t[r[|r| - 1]].level <= t[i].level
    ensures |r| == |order| + 1
  {
    if order == [] then [i]
    else
      var last := |order| - 1;
      if t[order[last]].level >= t[i].level then order + [i]
      else
        assert order == order[..last] + [order[last]];
        InsertByLevel(t, order[..last], i) + [order[last]]
  }

  // ----- Indexes built by loops ------------------------------------------------

  function LookUp<T>(index: map<Id, seq<T>>, id: Id): seq<T> {
    if id in index then index[id] else []
  }

  ghost predicate IndexedKids(t: Nodes, index: map<Id, seq<nat>>, n: nat)
    requires n <= |t|
  {
    forall id :: LookUp(index, id) == KidsAmong(t, id, n)
  }

  lemma IndexedMeans(t: Nodes, index: map<Id, seq<nat>>, i: nat)
    requires IndexedKids(t, index, |t|) && i < |t|
    ensures LookUp(index, t[i].id) == Kids(t, i)
  {
  }

  lemma NothingIndexed(t: Nodes)
    ensures IndexedKids(t, map[], 0)
  {
  }

  lemma IndexOneMore(t: Nodes, index: map<Id, seq<nat>>, n: nat, p: Id)
    requires n < |t| && IndexedKids(t, index, n) && t[n].parent == Some(p)
    ensures IndexedKids(t, index[p := LookUp(index, p) + [n]], n + 1)
  {
    var later := index[p := LookUp(index, p) + [n]];
    forall id ensures LookUp(later, id) == KidsAmong(t, id, n + 1) {
      assert LookUp(index, id) == KidsAmong(t, id, n);
    }
  }

  lemma IndexNoMore(t: Nodes, index: map<Id, seq<nat>>, n: nat)
    requires n < |t| && IndexedKids(t, index, n) && t[n].parent.None?
    ensures IndexedKids(t, index, n + 1)
  {
    forall id ensures LookUp(index, id) == KidsAmong(t, id, n + 1) {
      assert LookUp(index, id) == KidsAmong(t, id, n);
    }
  }

  /** Uplinks by network, and the networks in the order they first occur. */
  ghost predicate Grouped(edges: seq<Edge>, n: nat, byNet: map<Id, seq<Edge>>, netOrder: seq<Id>)
    requires n <= |edges|
  {
    (forall id :: LookUp(byNet, id) == UplinksTo(edges, id, n)) && Keyed(byNet, netOrder) && NoneTwice(netOrder)
  }

  predicate Keyed(byNet: map<Id, seq<Edge>>, netOrder: seq<Id>) {
    (forall id :: id in byNet ==> id in netOrder) && forall id :: id in netOrder ==> id in byNet
  }

  predicate NoneTwice(ids: seq<Id>) {
    forall j, k :: 0 <= j < k < |ids| ==> ids[j] != ids[k]
  }

  lemma NextIsNew(ids: seq<Id>, k: nat)
    requires NoneTwice(ids) && k < |ids|
    ensures ids[k] !in ids[..k] && ids[..k + 1] == ids[..k] + [ids[k]]
  {
  }

  lemma NothingGrouped(edges: seq<Edge>)
    ensures Grouped(edges, 0, map[], [])
  {
  }

  /** One edge more; an uplink goes to the list of its network. */
  lemma GroupOne(edges: seq<Edge>, n: nat, byNet: map<Id, seq<Edge>>, netOrder: seq<Id>)
    requires n < |edges| && Grouped(edges, n, byNet, netOrder)
    ensures var e := edges[n];
      if e.kind.Uplink?
      then Grouped(edges, n + 1, byNet[e.target := LookUp(byNet, e.target) + [e]],
                   if e.target in byNet then netOrder else netOrder + [e.target])
      else Grouped(edges, n + 1, byNet, netOrder)
  {
    var e := edges[n];
    if e.kind.Uplink? {
      var after := byNet[e.target := LookUp(byNet, e.target) + [e]];
      assert forall id :: LookUp(after, id) == if id == e.target then LookUp(byNet, id) + [e] else LookUp(byNet, id);
    }
  }

  /** The uplinks of some networks are taken into account. */
  function UplinkedFor(t: Nodes, edges: seq<Edge>, done: seq<Id>): (u: Nodes)
    ensures |u| == |t|
  {
    seq(|t|, i requires 0 <= i < |t| =>
      if t[i].id in done then t[i].(status := AfterUplinks(t[i].status, UplinksTo(edges, t[i].id, |edges|))) else t[i])
  }

  /** One network with its uplinks taken into account. */
  function Applied(t: Nodes, id: Id, ups: seq<Edge>): (u: Nodes)
    ensures |u| == |t|
  {
    seq(|t|, i requires 0 <= i < |t| => if t[i].id == id then t[i].(status := AfterUplinks(t[i].status, ups)) else t[i])
  }

  lemma OneMoreNetwork(t: Nodes, edges: seq<Edge>, done: seq<Id>, id: Id)
    requires DistinctIds(t) && id !in done
    ensures UplinkedFor(t, edges, done + [id]) == Applied(UplinkedFor(t, edges, done), id, UplinksTo(edges, id, |edges|))
    ensures UplinkedFor(t, edges, []) == t
  {
    hide UplinksTo, AfterUplinks;
  }

  lemma NextNetwork(edges: seq<Edge>, byNet: map<Id, seq<Edge>>, netOrder: seq<Id>, k: nat)
    requires Grouped(edges, |edges|, byNet, netOrder) && k < |netOrder|
    ensures netOrder[k] !in netOrder[..k] && LookUp(byNet, netOrder[k]) == UplinksTo(edges, netOrder[k], |edges|)
    ensures netOrder[..k + 1] == netOrder[..k] + [netOrder[k]]
  {
    hide UplinksTo, LookUp, Keyed, NoneTwice;
    NextIsNew(netOrder, k);
  }

  lemma AllNetworksDone(t: Nodes, edges: seq<Edge>, byNet: map<Id, seq<Edge>>, netOrder: seq<Id>)
    requires Grouped(edges, |edges|, byNet, netOrder)
    ensures UplinkedFor(t, edges, netOrder) == Uplinked(t, edges)
  {
    forall i | 0 <= i < |t| ensures UplinkedFor(t, edges, netOrder)[i] == Uplinked(t, edges)[i] {
      assert LookUp(byNet, t[i].id) == UplinksTo(edges, t[i].id, |edges|);
    }
  }

  // ----- The roll-up pass --------------------------------------------------------

  function StatusesOf(u: Nodes, kids: seq<nat>): (s: seq<(Kind, Status)>)
    requires Within(kids, |u|)
  {
    seq(|kids|, j requires 0 <= j < |kids| => (u[kids[j]].kind, u[kids[j]].rollup))
  }

  function CountsOf(u: Nodes): (c: seq<nat>)
    ensures |c| == |u|
  {
    seq(|u|, j requires 0 <= j < |u| => u[j].descendants)
  }

  ghost function Goal(t: Nodes): (u: Nodes)
    requires IsTree(t)
    ensures AllRolledUp(t, u)
  {
    seq(|t|, i requires 0 <= i < |t| => RolledUp(t, i))
  }

  function WithChildren(t: Nodes): (u: Nodes)
    ensures |u| == |t|
  {
    seq(|t|, i requires 0 <= i < |t| => t[i].(children := |Kids(t, i)|))
  }

  /** The nodes of a set are as they should be in the end, the others as they were in the beginning. */
  predicate Partly(first: Nodes, goal: Nodes, u: Nodes, done: set<nat>) {
    && |u| == |first| == |goal|
    && (forall i: nat :: i < |u| ==> u[i] == if i in done then goal[i] else first[i])
  }

  lemma {:induction false} SameCounts(t: Nodes, u: Nodes, kids: seq<nat>, n: nat)
    requires IsTree(t) && |u| == |t| && n <= |kids| && Within(kids, |t|)
    requires forall j :: 0 <= j < |kids| ==> u[kids[j]].descendants == |Descendants(t, kids[j])|
    ensures CountAll(CountsOf(u), kids, n) == FamilySizes(ForestOf(t), kids, n)
  {
    if n > 0 {
      SameCounts(t, u, kids, n - 1);
      assert CountsOf(u)[kids[n - 1]] == |UnderOf(ForestOf(t), kids[n - 1])|;
    }
  }

  /** When the children are done, what the pass computes for a node is its recursive roll-up and its descendants. */
  lemma RollStep(t: Nodes, u: Nodes, done: set<nat>, i: nat)
    requires IsTree(t) && Partly(WithChildren(t), Goal(t), u, done) && i < |t| && forall k :: k in Kids(t, i) ==> k in done
    ensures Combine(t[i].kind, t[i].effective, StatusesOf(u, Kids(t, i)), |Kids(t, i)|) == RollupOf(t, i)
    ensures CountAll(CountsOf(u), Kids(t, i), |Kids(t, i)|) == |Descendants(t, i)|
  {
    var ks := Kids(t, i);
    forall j | 0 <= j < |ks| ensures u[ks[j]] == RolledUp(t, ks[j]) {
      assert ks[j] in ks;
    }
    assert StatusesOf(u, ks) == KidStatuses(t, i);
    SameCounts(t, u, ks, |ks|);
    KidsAreOffspring(t, i, |t|);
    DescendantsAddUp(ForestOf(t), i);
  }

  /** Ids, kinds and effective statuses are the same from first to last. */
  lemma PartlyKeeps(t: Nodes, u: Nodes, done: set<nat>, i: nat)
    requires IsTree(t) && Partly(WithChildren(t), Goal(t), u, done) && i < |t|
    ensures u[i].id == t[i].id && u[i].kind == t[i].kind && u[i].effective == t[i].effective && u[i].children == |Kids(t, i)|
    ensures u[i].(descendants := |Descendants(t, i)|, rollup := RollupOf(t, i)) == Goal(t)[i]
  {
    assert Goal(t)[i] == RolledUp(t, i);
  }

  /** In a descending order the children of a node come before it. */
  lemma KidsComeFirst(t: Nodes, order: seq<nat>, m: nat)
    requires IsTree(t) && Descending(t, order) && m < |order| && forall k: nat :: k in order <==> k < |t|
    ensures forall k :: k in Kids(t, order[m]) ==> k in order[..m]
  {
    forall k | k in Kids(t, order[m]) ensures k in order[..m] {
      KidsAreDeeper(t, order[m], k);
      assert k in order;
      var p :| 0 <= p < |order| && order[p] == k;
    }
  }

  /** All positions by descending level, ties in their order. */
  function SortedByLevel(t: Nodes, n: nat): (r: seq<nat>)
    requires n <= |t|
    ensures Descending(t, r) && |r| == n && forall k: nat :: k in r <==> k < n
  {
    if n == 0 then [] else InsertByLevel(t, SortedByLevel(t, n - 1), n - 1)
  }

  /** One node with what its children, as they are now, amount to. */
  function Summed(u: Nodes, i: nat, kids: seq<nat>): GNode
    requires i < |u| && Within(kids, |u|)
  {
    u[i].(descendants := CountAll(CountsOf(u), kids, |kids|),
          rollup := Combine(u[i].kind, u[i].effective, StatusesOf(u, kids), |kids|))
  }

  /** The nodes after the first n of an order, on any graph. */
  function Passed(t: Nodes, order: seq<nat>, n: nat): (u: Nodes)
    requires n <= |order| && Within(order, |t|)
    ensures |u| == |t|
  {
    if n == 0 then WithChildren(t)
    else
      var u, i := Passed(t, order, n - 1), order[n - 1];
      u[i := Summed(u, i, Kids(t, i))]
  }

  /** On a tree, in an order with all children first, the pass ends with the recursive roll-up. */
  lemma {:induction false} PassIsPartly(t: Nodes, order: seq<nat>, n: nat)
    requires IsTree(t) && Descending(t, order) && n <= |order| && forall k: nat :: k in order <==> k < |t|
    ensures Partly(WithChildren(t), Goal(t), Passed(t, order, n), SetOf(order, n))
  {
    hide Goal, RollupOf, Summed, Kids;
    if n > 0 {
      PassIsPartly(t, order, n - 1);
      PassStep(t, order, n - 1);
    }
  }

  function SetOf(order: seq<nat>, n: nat): set<nat>
    requires n <= |order|
  {
    if n == 0 then {} else SetOf(order, n - 1) + {order[n - 1]}
  }

  lemma {:induction false} SetOfHas(order: seq<nat>, n: nat)
    requires n <= |order|
    ensures forall k :: k in SetOf(order, n) <==> k in order[..n]
  {
    if n > 0 {
      SetOfHas(order, n - 1);
      assert order[..n] == order[..n - 1] + [order[n - 1]];
    }
  }

  lemma PassStep(t: Nodes, order: seq<nat>, n: nat)
    requires IsTree(t) && Descending(t, order) && n < |order| && forall k: nat :: k in order <==> k < |t|
    requires Partly(WithChildren(t), Goal(t), Passed(t, order, n), SetOf(order, n))
    ensures Partly(WithChildren(t), Goal(t), Passed(t, order, n + 1), SetOf(order, n + 1))
  {
    hide IsTree, RollupOf, Goal, WithChildren, Combine;
    var u, i := Passed(t, order, n), order[n];
    assert i in order;
    SetOfHas(order, n);
    KidsComeFirst(t, order, n);
    RollStep(t, u, SetOf(order, n), i);
    PartlyKeeps(t, u, SetOf(order, n), i);
    assert Summed(u, i, Kids(t, i)) == Goal(t)[i];
  }

  lemma {:induction false} PassKeepsIds(t: Nodes, order: seq<nat>, n: nat, i: nat)
    requires n <= |order| && Within(order, |t|) && i < |t|
    ensures Passed(t, order, n)[i].id == t[i].id
  {
    hide CountAll, Combine, KidsAmong, StatusesOf, CountsOf;
    if n > 0 { PassKeepsIds(t, order, n - 1, i); }
  }

  lemma AllDone(first: Nodes, goal: Nodes, u: Nodes, done: set<nat>)
    requires Partly(first, goal, u, done) && forall i: nat :: i < |u| ==> i in done
    ensures u == goal
  {
  }

  lemma PassIsRollup(t: Nodes)
    requires IsTree(t)
    ensures Passed(t, SortedByLevel(t, |t|), |t|) == Goal(t)
  {
    hide Partly, Passed, SortedByLevel, Goal, WithChildren, IsTree, SetOf;
    var order := SortedByLevel(t, |t|);
    PassIsPartly(t, order, |t|);
    SetOfHas(order, |t|);
    assert order[..|t|] == order;
    AllDone(WithChildren(t), Goal(t), Passed(t, order, |t|), SetOf(order, |t|));
  }

  // ----- The cluster override ------------------------------------------------------

  /** A cluster's roll-up after the late rule, a node of another kind's as it is. */
  ghost function OverriddenNode(u: Nodes, i: nat): GNode
    requires i < |u|
  {
    if !u[i].kind.Cluster? || !(exists x :: 0 <= x < |u| && IsPhysical(u, i, x)) then u[i]
    else if forall x :: 0 <= x < |u| && IsPhysical(u, i, x) ==> u[x].status == Critical then u[i].(rollup := Critical)
    else if exists x :: 0 <= x < |u| && IsPhysical(u, i, x) && u[x].status == Critical
    then u[i].(rollup := Worse(u[i].rollup, Degraded))
    else u[i]
  }

  ghost function Overridden(u: Nodes): Nodes {
    seq(|u|, i requires 0 <= i < |u| => OverriddenNode(u, i))
  }

  /** The final pass on any graph, from its prepared nodes. */
  ghost function FinalOf(t: Nodes): Nodes {
    Overridden(Passed(t, SortedByLevel(t, |t|), |t|))
  }

  /** The late rule changes nothing where the roll-up is the recursive one. */
  lemma NothingOverridden(t: Nodes, u: Nodes)
    requires IsTree(t) && t == Effected(t) && AllRolledUp(t, u)
    ensures Overridden(u) == u
  {
    forall i | 0 <= i < |u| ensures OverriddenNode(u, i) == u[i] {
      OverrideChangesNothing(t, u, i);
    }
  }

  lemma FinalIsRollup(t: Nodes)
    requires IsTree(t) && t == Effected(t)
    ensures AllRolledUp(t, FinalOf(t))
  {
    PassIsRollup(t);
    NothingOverridden(t, Goal(t));
  }

  ghost predicate IsPhysical(t: Nodes, i: nat, x: nat)
    requires i < |t| && x < |t|
  {
    t[x].kind.Node? && t[x].parent == Some(t[i].id)
  }

  lemma FailedIsCritical(t: Nodes, x: nat)
    requires t == Effected(t) && x < |t| && t[x].status == Critical
    ensures t[x].effective == Critical
  {
    assert Effected(t)[x].effective == Critical;
  }

  lemma CriticalNodeShows(t: Nodes, i: nat, x: nat)
    requires IsTree(t) && t == Effected(t) && i < |t| && x < |t| && IsPhysical(t, i, x) && t[x].status == Critical
    ensures RollupOf(t, x) == Critical && NoWorse(Degraded, RollupOf(t, i))
  {
    hide Effected, RollupOf, Absorbed, CountsAs, IsTree, Damps;
    FailedIsCritical(t, x);
    RollupIs(t, x);
    ParentsAreNoBetter(t, i, x);
  }

  /** Damping already makes a cluster critical when all its physical nodes are. */
  lemma AllCriticalShows(t: Nodes, i: nat, x: nat)
    requires IsTree(t) && t == Effected(t) && i < |t| && x < |t| && IsPhysical(t, i, x)
    requires forall y :: 0 <= y < |t| && IsPhysical(t, i, y) ==> t[y].status == Critical
    ensures RollupOf(t, i) == Critical
  {
    CriticalNodeShows(t, i, x);
    ParentsAreNoBetter(t, i, x);
    forall w | 0 <= w < |t| && t[w].parent == t[x].parent && t[w].kind == t[x].kind ensures RollupOf(t, w) != Ok {
      assert IsPhysical(t, i, w);
      CriticalNodeShows(t, i, w);
    }
  }

  class Graph {
    var nodes: seq<GNode>
    var byId: map<Id, nat>
    var edges: seq<Edge>
    var edgeKeys: set<(Id, Id, EdgeKind)>

    /** The index is exact, every edge joins two present nodes, and no edge is there twice. */
    ghost predicate Valid()
      reads this
    {
      && (forall i :: 0 <= i < |nodes| ==> nodes[i].id in byId && byId[nodes[i].id] == i)
      && (forall id :: id in byId ==> byId[id] < |nodes| && nodes[byId[id]].id == id)
      && (forall e :: e in edges ==> e.source in byId && e.target in byId && KeyOf(e) in edgeKeys)
      && (forall k :: k in edgeKeys ==> HasKey(edges, k))
      && (forall i, j :: 0 <= i < j < |edges| ==> KeyOf(edges[i]) != KeyOf(edges[j]))
    }

    constructor ()
      ensures Valid() && nodes == [] && edges == []
    {
      nodes, byId, edges, edgeKeys := [], map[], [], {};
    }

    /** A node that is there already is returned as it is. */
    method AddNode(id: Id, kind: Kind, status: Option<Status>, parent: Option<Id>) returns (i: nat)
      requires Valid()
      modifies this
      ensures Valid() && edges == old(edges) && i < |nodes| && nodes[i].id == id
      ensures id in old(byId) ==> nodes == old(nodes)
      ensures id !in old(byId) ==> nodes == old(nodes) + [NewNode(id, kind, status, parent)]
      ensures byId.Keys == old(byId).Keys + {id}
    {
      if id in byId {
        return byId[id];
      }
      i := |nodes|;
      nodes := nodes + [NewNode(id, kind, status, parent)];
      byId := byId[id := i];
    }

    /** Nothing happens if an end is missing or the edge is there. */
    method AddEdge(source: Id, target: Id, kind: EdgeKind, status: Status) returns (added: bool)
      requires Valid()
      modifies `edges, `edgeKeys
      ensures Valid()
      ensures added <==> source in byId && target in byId && forall e :: e in old(edges) ==> KeyOf(e) != (source, target, kind)
      ensures edges == if added then old(edges) + [Edge(source, target, kind, status)] else old(edges)
    {
      var key := (source, target, kind);
      added := source in byId && target in byId && key !in edgeKeys;
      if added {
        var e := Edge(source, target, kind, status);
        assert KeyOf(e) == key;
        assert forall k :: HasKey(edges, k) ==> HasKey(edges + [e], k);
        assert e in edges + [e];
        edgeKeys := edgeKeys + {key};
        edges := edges + [e];
      }
    }

    /** Raises the own status of one node. */
    method RaiseStatus(i: nat, status: Status)
      requires Valid() && i < |nodes|
      modifies `nodes
      ensures Valid() && nodes == old(nodes)[i := old(nodes)[i].(status := Worse(old(nodes)[i].status, status))]
    {
      nodes := nodes[i := nodes[i].(status := Worse(nodes[i].status, status))];
    }

    /** Sets the alert status of one node. */
    method RaiseAlert(i: nat, alert: Status)
      requires Valid() && i < |nodes|
      modifies `nodes
      ensures Valid() && nodes == old(nodes)[i := old(nodes)[i].(alert := Some(alert))]
    {
      nodes := nodes[i := nodes[i].(alert := Some(alert))];
    }

    // ----- The final pass ------------------------------------------------------

    method PropagateUplinks()
      requires Valid()
      modifies `nodes
      ensures Valid() && nodes == Uplinked(old(nodes), edges)
    {
      hide Grouped, UplinkedFor, Uplinked, Applied, UplinksTo;
      var byNet, netOrder := GroupUplinks(edges);
      ghost var t := nodes;
      IdsApart();
      OneMoreNetwork(t, edges, [], "");
      for k := 0 to |netOrder|
        invariant Valid() && nodes == UplinkedFor(t, edges, netOrder[..k])
      {
        NextNetwork(edges, byNet, netOrder, k);
        OneMoreNetwork(t, edges, netOrder[..k], netOrder[k]);
        ApplyUplinks(netOrder[k], LookUp(byNet, netOrder[k]));
      }
      assert netOrder[..|netOrder|] == netOrder;
      AllNetworksDone(t, edges, byNet, netOrder);
    }

    lemma IdsApart()
      requires Valid()
      ensures DistinctIds(nodes)
    {
    }

    method ApplyUplinks(id: Id, ups: seq<Edge>)
      requires Valid()
      modifies `nodes
      ensures Valid() && nodes == Applied(old(nodes), id, ups)
    {
      var down := CountDown(ups);
      if id in byId && down > 0 {
        RaiseStatus(byId[id], if down == |ups| then Critical else Degraded);
      }
    }

    static method GroupUplinks(edges: seq<Edge>) returns (byNet: map<Id, seq<Edge>>, netOrder: seq<Id>)
      ensures Grouped(edges, |edges|, byNet, netOrder)
    {
      hide Grouped;
      byNet, netOrder := map[], [];
      NothingGrouped(edges);
      for i := 0 to |edges|
        invariant Grouped(edges, i, byNet, netOrder)
      {
        var e := edges[i];
        GroupOne(edges, i, byNet, netOrder);
        if e.kind.Uplink? {
          if e.target !in byNet {
            netOrder := netOrder + [e.target];
          }
          byNet := byNet[e.target := LookUp(byNet, e.target) + [e]];
        }
      }
    }

    static method CountDown(es: seq<Edge>) returns (down: nat)
      ensures down == DownAmong(es, |es|)
    {
      down := 0;
      for i := 0 to |es|
        invariant down == DownAmong(es, i)
      {
        if es[i].status == Critical {
          down := down + 1;
        }
      }
    }

    method ComputeEffective()
      requires Valid()
      modifies `nodes
      ensures Valid() && nodes == Effected(old(nodes))
    {
      for i := 0 to |nodes|
        invariant |nodes| == |old(nodes)|
        invariant forall j :: 0 <= j < i ==> nodes[j] == Effected(old(nodes))[j]
        invariant forall j :: i <= j < |nodes| ==> nodes[j] == old(nodes)[j]
      {
        var n := nodes[i];
        nodes := nodes[i := n.(effective := EffectiveStatus(n.kind, n.status, n.alert))];
      }
    }

    method ChildrenIndex() returns (index: map<Id, seq<nat>>)
      ensures IndexedKids(nodes, index, |nodes|)
    {
      hide IndexedKids;
      index := map[];
      NothingIndexed(nodes);
      for i := 0 to |nodes|
        invariant IndexedKids(nodes, index, i)
      {
        var p := nodes[i].parent;
        if p.Some? {
          IndexOneMore(nodes, index, i, p.value);
          index := index[p.value := LookUp(index, p.value) + [i]];
        } else {
          IndexNoMore(nodes, index, i);
        }
      }
    }

    method LevelOrder() returns (order: seq<nat>)
      ensures order == SortedByLevel(nodes, |nodes|)
    {
      order := [];
      for i := 0 to |nodes|
        invariant order == SortedByLevel(nodes, i)
      {
        order := InsertByLevel(nodes, order, i);
      }
    }

    /** The damped worst status and the number of nodes below, from the children as they are now. */
    method RollUp(i: nat, kids: seq<nat>) returns (worst: Status, count: nat)
      requires i < |nodes| && Within(kids, |nodes|)
      ensures worst == Combine(nodes[i].kind, nodes[i].effective, StatusesOf(nodes, kids), |kids|)
      ensures count == CountAll(CountsOf(nodes), kids, |kids|)
    {
      ghost var ss := StatusesOf(nodes, kids);
      var healthy: set<Kind> := {};
      for j := 0 to |kids|
        invariant forall k :: k in healthy <==> exists h :: 0 <= h < j && ss[h] == (k, Ok)
      {
        assert ss[j] == (nodes[kids[j]].kind, nodes[kids[j]].rollup);
        if nodes[kids[j]].rollup == Ok {
          healthy := healthy + {nodes[kids[j]].kind};
        }
      }
      worst, count := nodes[i].effective, 0;
      for j := 0 to |kids|
        invariant worst == Combine(nodes[i].kind, nodes[i].effective, ss, j)
        invariant count == CountAll(CountsOf(nodes), kids, j)
      {
        var k := nodes[kids[j]];
        count := count + 1 + k.descendants;
        var share := k.rollup;
        if share == Critical && Damps(nodes[i].kind, k.kind) && k.kind in healthy {
          share := Degraded;
        }
        assert share == Share(nodes[i].kind, ss, j);
        worst := Worse(worst, share);
      }
    }

    method CountChildren(children: map<Id, seq<nat>>)
      requires Valid() && IndexedKids(nodes, children, |nodes|)
      modifies `nodes
      ensures Valid() && nodes == WithChildren(old(nodes))
    {
      hide Valid, Kids;
      ghost var t := nodes;
      for i := 0 to |nodes|
        invariant Valid() && |nodes| == |t|
        invariant forall j :: 0 <= j < i ==> nodes[j] == WithChildren(t)[j]
        invariant forall j :: i <= j < |nodes| ==> nodes[j] == t[j]
      {
        IndexedMeans(t, children, i);
        SetChildren(i, |LookUp(children, nodes[i].id)|);
      }
    }

    method SetChildren(i: nat, children: nat)
      requires Valid() && i < |nodes|
      modifies `nodes
      ensures Valid() && nodes == old(nodes)[i := old(nodes)[i].(children := children)]
    {
      nodes := nodes[i := nodes[i].(children := children)];
    }

    /** The single pass in the given order. */
    method RollUpAll(ghost t: Nodes, children: map<Id, seq<nat>>, order: seq<nat>)
      requires Valid() && nodes == WithChildren(t) && IndexedKids(t, children, |t|) && Within(order, |t|)
      modifies `nodes
      ensures Valid() && nodes == Passed(t, order, |order|)
    {
      hide KidsAmong, WithChildren, Valid, Combine;
      for m := 0 to |order|
        invariant Valid() && nodes == Passed(t, order, m)
      {
        var i := order[m];
        PassKeepsIds(t, order, m, i);
        IndexedMeans(t, children, i);
        RollOne(i, LookUp(children, nodes[i].id));
      }
    }

    method RollOne(i: nat, kids: seq<nat>)
      requires Valid() && i < |nodes| && Within(kids, |nodes|)
      modifies `nodes
      ensures Valid() && nodes == old(nodes)[i := Summed(old(nodes), i, kids)]
    {
      var worst, count := RollUp(i, kids);
      SetRollup(i, worst, count);
    }

    method SetRollup(i: nat, worst: Status, count: nat)
      requires Valid() && i < |nodes|
      modifies `nodes
      ensures Valid() && nodes == old(nodes)[i := old(nodes)[i].(descendants := count, rollup := worst)]
    {
      nodes := nodes[i := nodes[i].(descendants := count, rollup := worst)];
    }

    /** Are there physical nodes in a cluster, are all critical, is one. */
    method Physical(i: nat) returns (some: bool, allCritical: bool, anyCritical: bool)
      requires i < |nodes|
      ensures some <==> exists x :: 0 <= x < |nodes| && IsPhysical(nodes, i, x)
      ensures allCritical <==> forall x :: 0 <= x < |nodes| && IsPhysical(nodes, i, x) ==> nodes[x].status == Critical
      ensures anyCritical <==> exists x :: 0 <= x < |nodes| && IsPhysical(nodes, i, x) && nodes[x].status == Critical
    {
      some, allCritical, anyCritical := false, true, false;
      for n := 0 to |nodes|
        invariant some <==> exists x :: 0 <= x < n && IsPhysical(nodes, i, x)
        invariant allCritical <==> forall x :: 0 <= x < n && IsPhysical(nodes, i, x) ==> nodes[x].status == Critical
        invariant anyCritical <==> exists x :: 0 <= x < n && IsPhysical(nodes, i, x) && nodes[x].status == Critical
      {
        if nodes[n].kind.Node? && nodes[n].parent == Some(nodes[i].id) {
          assert IsPhysical(nodes, i, n);
          some := true;
          if nodes[n].status == Critical {
            anyCritical := true;
          } else {
            allCritical := false;
          }
        }
      }
    }

    /** Clusters with failed physical nodes; nothing the rule looks at is changed by it. */
    method ClusterOverride()
      requires Valid()
      modifies `nodes
      ensures Valid() && nodes == Overridden(old(nodes))
    {
      hide Valid;
      for i := 0 to |nodes|
        invariant Valid() && |nodes| == |old(nodes)|
        invariant forall j :: 0 <= j < i ==> nodes[j] == OverriddenNode(old(nodes), j)
        invariant forall j :: i <= j < |nodes| ==> nodes[j] == old(nodes)[j]
      {
        if nodes[i].kind.Cluster? {
          OverrideOne(i, old(nodes));
        }
      }
    }

    method OverrideOne(i: nat, ghost first: Nodes)
      requires Valid() && i < |nodes| == |first| && nodes[i] == first[i] && nodes[i].kind.Cluster?
      requires forall x :: 0 <= x < |first| ==>
                 nodes[x].kind == first[x].kind && nodes[x].parent == first[x].parent && nodes[x].status == first[x].status
      modifies `nodes
      ensures Valid() && nodes == old(nodes)[i := OverriddenNode(first, i)]
    {
      hide Valid;
      var some, allCritical, anyCritical := Physical(i);
      forall x | 0 <= x < |first| ensures IsPhysical(nodes, i, x) <==> IsPhysical(first, i, x) {}
      if some && allCritical {
        SetRollup(i, Critical, nodes[i].descendants);
      } else if some && anyCritical {
        SetRollup(i, Worse(nodes[i].rollup, Degraded), nodes[i].descendants);
      }
    }

    /** The whole final pass; on a tree it computes the recursive roll-up. */
    method Finalize()
      requires Valid()
      modifies `nodes
      ensures Valid() && nodes == FinalOf(Prepared(old(nodes), edges))
      ensures IsTree(old(nodes)) ==>
                IsTree(Prepared(old(nodes), edges)) && AllRolledUp(Prepared(old(nodes), edges), nodes)
    {
      hide Valid, IndexedKids, Passed, SortedByLevel, Overridden, AllRolledUp, WithChildren;
      PropagateUplinks();
      ComputeEffective();
      ghost var t := nodes;
      assert t == Effected(t);
      var children := ChildrenIndex();
      CountChildren(children);
      var order := LevelOrder();
      SameLevels(t);
      RollUpAll(t, children, order);
      ClusterOverride();
      if IsTree(old(nodes)) {
        PreparedIsTree(old(nodes), edges);
        FinalIsRollup(t);
      }
    }
  }

  lemma {:induction false} SameOrder(t: Nodes, u: Nodes, n: nat)
    requires |t| == |u| && n <= |t| && forall i :: 0 <= i < |t| ==> t[i].level == u[i].level
    ensures SortedByLevel(t, n) == SortedByLevel(u, n)
  {
    hide InsertByLevel, Descending;
    if n > 0 {
      SameOrder(t, u, n - 1);
      SameInsertion(t, u, SortedByLevel(t, n - 1), n - 1);
    }
  }

  lemma {:induction false} SameInsertion(t: Nodes, u: Nodes, order: seq<nat>, i: nat)
    requires |t| == |u| && i < |t| && forall i :: 0 <= i < |t| ==> t[i].level == u[i].level
    requires Descending(t, order) && Descending(u, order)
    ensures InsertByLevel(t, order, i) == InsertByLevel(u, order, i)
  {
    if order != [] { SameInsertion(t, u, order[..|order| - 1], i); }
  }

  lemma LevelsStay(t: Nodes)
    ensures forall i :: 0 <= i < |t| ==> WithChildren(t)[i].level == t[i].level
  {
    hide Kids;
  }

  lemma SameLevels(t: Nodes)
    ensures SortedByLevel(WithChildren(t), |t|) == SortedByLevel(t, |t|)
  {
    hide SortedByLevel, WithChildren;
    LevelsStay(t);
    SameOrder(WithChildren(t), t, |t|);
  }

  /** The late cluster rule agrees with the roll-up that is already there. */
  lemma OverrideChangesNothing(t: Nodes, u: Nodes, i: nat)
    requires IsTree(t) && t == Effected(t) && AllRolledUp(t, u) && i < |t|
    ensures (exists x :: 0 <= x < |u| && IsPhysical(u, i, x))
            && (forall x :: 0 <= x < |u| && IsPhysical(u, i, x) ==> u[x].status == Critical)
            ==> u[i].rollup == Critical
    ensures ((exists x :: 0 <= x < |u| && IsPhysical(u, i, x) && u[x].status == Critical)
             ==> Worse(u[i].rollup, Degraded) == u[i].rollup)
  {
    forall x | 0 <= x < |u| ensures IsPhysical(u, i, x) <==> IsPhysical(t, i, x) {
    }
    if x :| 0 <= x < |u| && IsPhysical(u, i, x) && u[x].status == Critical {
      CriticalNodeShows(t, i, x);
      if forall y :: 0 <= y < |u| && IsPhysical(u, i, y) ==> u[y].status == Critical {
        assert forall y :: 0 <= y < |t| && IsPhysical(t, i, y) ==> IsPhysical(u, i, y);
        AllCriticalShows(t, i, x);
      }
    }
  }

  function NewNode(id: Id, kind: Kind, status: Option<Status>, parent: Option<Id>): GNode {
    var st := if status.Some? then status.value else Unknown;
    GNode(id, kind, LevelOf(kind), parent, st, None, st, st, 0, 0)
  }

  // ----- What the finished graph shows ---------------------------------------------

  predicate EdgesNoWorse(es: seq<Edge>, fs: seq<Edge>) {
    |es| == |fs| && forall k :: 0 <= k < |es| ==> KeyOf(es[k]) == KeyOf(fs[k]) && NoWorse(es[k].status, fs[k].status)
  }

  lemma {:induction false} UplinksNoWorse(es: seq<Edge>, fs: seq<Edge>, id: Id, n: nat)
    requires EdgesNoWorse(es, fs) && n <= |es|
    ensures EdgesNoWorse(UplinksTo(es, id, n), UplinksTo(fs, id, n))
  {
    if n > 0 { UplinksNoWorse(es, fs, id, n - 1); }
  }

  lemma {:induction false} NoFewerDown(es: seq<Edge>, fs: seq<Edge>, n: nat)
    requires EdgesNoWorse(es, fs) && n <= |es|
    ensures DownAmong(es, n) <= DownAmong(fs, n)
  {
    if n > 0 { NoFewerDown(es, fs, n - 1); }
  }

  /** Making own statuses, alerts or edges worse, in any number of places, makes no final roll-up better. */
  lemma FinalRollupIsMonotone(t: Nodes, es: seq<Edge>, u: Nodes, fs: seq<Edge>, i: nat)
    requires SameShape(t, u) && IsTree(t) && IsTree(u) && EdgesNoWorse(es, fs) && i < |t|
    requires forall j :: 0 <= j < |t| ==> NoWorse(t[j].status, u[j].status) && AlertNoWorse(t[j].alert, u[j].alert)
    ensures IsTree(Prepared(t, es)) && IsTree(Prepared(u, fs))
    ensures NoWorse(RollupOf(Prepared(t, es), i), RollupOf(Prepared(u, fs), i))
  {
    PreparedIsTree(t, es);
    PreparedIsTree(u, fs);
    var a, b := Prepared(t, es), Prepared(u, fs);
    forall j | 0 <= j < |t| ensures NoWorse(a[j].effective, b[j].effective) {
      var ups, vps := UplinksTo(es, t[j].id, |es|), UplinksTo(fs, t[j].id, |fs|);
      UplinksNoWorse(es, fs, t[j].id, |es|);
      NoFewerDown(ups, vps, |ups|);
      assert NoWorse(AfterUplinks(t[j].status, ups), AfterUplinks(u[j].status, vps));
      EffectiveIsMonotone(t[j].kind, AfterUplinks(t[j].status, ups), AfterUplinks(u[j].status, vps), t[j].alert, u[j].alert);
    }
    RollupIsMonotone(a, b, i);
  }

  /** In a finished graph a parent is at least as bad as its child, unless a healthy twin makes a critical one degraded. */
  lemma FinishedParents(t: Nodes, u: Nodes, i: nat, k: nat)
    requires IsTree(t) && AllRolledUp(t, u) && i < |u| && k < |u| && u[k].parent == Some(u[i].id)
    ensures (NoWorse(u[k].rollup, u[i].rollup)
             || (u[k].rollup == Critical && u[i].rollup == Degraded && Damps(u[i].kind, u[k].kind)
                 && exists w :: 0 <= w < |u| && u[w].parent == u[k].parent && u[w].kind == u[k].kind && u[w].rollup == Ok))
  {
    ParentsAreNoBetter(t, i, k);
    if !NoWorse(RollupOf(t, k), RollupOf(t, i)) {
      var w :| 0 <= w < |t| && t[w].parent == t[k].parent && t[w].kind == t[k].kind && RollupOf(t, w) == Ok;
      assert u[w].rollup == Ok;
    }
  }

  /**
    Damping in a finished graph: a cluster, VM or volume with a critical machine, instance or image beside a
    healthy one is degraded, if neither itself nor any other child is critical.
   */
  lemma FinishedDamping(t: Nodes, u: Nodes, i: nat, k: nat, w: nat)
    requires IsTree(t) && AllRolledUp(t, u) && i < |u| && k < |u| && w < |u|
    requires (u[i].kind, u[k].kind) in {(Cluster, Node), (Vm, LocalVm), (Volume, DiskImage)} && u[w].kind == u[k].kind
    requires u[k].parent == u[w].parent == Some(u[i].id) && u[k].rollup == Critical && u[w].rollup == Ok
    requires u[i].effective != Critical
    requires forall c :: 0 <= c < |u| && u[c].parent == Some(u[i].id) && u[c].rollup == Critical ==> u[c].kind == u[k].kind
    ensures u[i].rollup == Degraded
  {
    hide IsTree, DistinctIds, RollupOf, Descendants;
    assert u[i] == RolledUp(t, i) && u[k] == RolledUp(t, k) && u[w] == RolledUp(t, w);
    forall c | 0 <= c < |t| && t[c].parent == Some(t[i].id) && RollupOf(t, c) == Critical ensures Absorbed(t, i, c) {
      assert u[c] == RolledUp(t, c);
    }
    AbsorbedDegrades(t, i, k);
  }

  /** And nowhere else: of any other pair of kinds, or with no healthy sibling, a critical child makes its parent critical. */
  lemma FinishedUndamped(t: Nodes, u: Nodes, i: nat, k: nat)
    requires IsTree(t) && AllRolledUp(t, u) && i < |u| && k < |u|
    requires u[k].parent == Some(u[i].id) && u[k].rollup == Critical
    requires (u[i].kind, u[k].kind) !in {(Cluster, Node), (Vm, LocalVm), (Volume, DiskImage)}
             || forall w :: 0 <= w < |u| && u[w].parent == u[k].parent && u[w].kind == u[k].kind ==> u[w].rollup != Ok
    ensures u[i].rollup == Critical
  {
    hide IsTree, DistinctIds, RollupOf, Descendants;
    assert u[i] == RolledUp(t, i) && u[k] == RolledUp(t, k);
    assert forall w :: 0 <= w < |u| ==> u[w].parent == t[w].parent && u[w].kind == t[w].kind && u[w].rollup == RollupOf(t, w);
    CriticalIff(t, i);
  }

  /**
    What uplinks make of a node's status, edge by edge: as it was without a critical one; critical if there
    is one and all are; otherwise at least degraded and no worse than that or what it was.
   */
  lemma UplinksDecide(t: Nodes, edges: seq<Edge>, i: nat)
    requires i < |t|
    ensures var before, after, id := t[i].status, Uplinked(t, edges)[i].status, t[i].id;
      if forall e :: e in edges && e.kind == Uplink && e.target == id ==> e.status != Critical then after == before
      else if forall e :: e in edges && e.kind == Uplink && e.target == id ==> e.status == Critical then after == Critical
      else after == if before == Critical then Critical else Degraded
  {
    var ups := UplinksTo(edges, t[i].id, |edges|);
    assert edges[..|edges|] == edges;
    UplinksAre(edges, t[i].id, |edges|);
    DownMeans(ups, |ups|);
    assert ups[..|ups|] == ups;
  }

  lemma {:induction false} UplinksAre(edges: seq<Edge>, id: Id, n: nat)
    requires n <= |edges|
    ensures forall e :: e in UplinksTo(edges, id, n) <==> e in edges[..n] && e.kind.Uplink? && e.target == id
  {
    if n > 0 {
      UplinksAre(edges, id, n - 1);
      assert edges[..n] == edges[..n - 1] + [edges[n - 1]];
    }
  }

  lemma {:induction false} DownMeans(es: seq<Edge>, n: nat)
    requires n <= |es|
    ensures DownAmong(es, n) == 0 <==> forall e :: e in es[..n] ==> e.status != Critical
    ensures DownAmong(es, n) == n <==> forall e :: e in es[..n] ==> e.status == Critical
  {
    if n > 0 {
      DownMeans(es, n - 1);
      assert es[..n] == es[..n - 1] + [es[n - 1]];
    }
  }

  /** Alerts: on a kind with a live status an ok node becomes a warning at most, and no other status gets better. */
  lemma AlertsAreCapped(t: Nodes, i: nat)
    requires i < |t| && t[i].alert.Some?
    ensures var own, alert, shown := t[i].status, t[i].alert.value, Effected(t)[i].effective;
      if own == Ok && t[i].kind !in {Fleet, Site, Quorum, ImageContainer}
      then shown == if alert in {Ok, Unknown, Warning} then alert else Warning
      else shown in {own, alert} && NoWorse(own, shown) && NoWorse(alert, shown)
  {
  }

  /** Adding up the roots with their descendant counts gives the number of nodes. */
  lemma FinishedCounts(t: Nodes, u: Nodes)
    requires IsTree(t) && AllRolledUp(t, u)
    ensures var roots := Offspring(ForestOf(t), None, |t|);
            && (forall k: nat :: k in roots <==> k < |u| && u[k].parent.None?)
            && CountAll(CountsOf(u), roots, |roots|) == |u|
  {
    var roots := Offspring(ForestOf(t), None, |t|);
    forall k: nat ensures k in roots <==> k < |u| && u[k].parent.None? {
      if k < |u| { assert u[k] == RolledUp(t, k); }
    }
    RootsAddUp(ForestOf(t));
    SameCounts(t, u, roots, |roots|);
  }
}
