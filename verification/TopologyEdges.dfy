/** What a plan comes to besides its nodes: which edges are there, and each node's own status. */
module TopologyEdges {
  import opened Base
  import opened TopologyStatus
  import opened TopologyRollup
  import opened TopologyGraph
  import opened TopologyDrawing

  type Key = (Id, Id, EdgeKind)

  // ----- Edges --------------------------------------------------------------------

  /** The nodes asked for by the first n steps include one with this id. */
  predicate AskedFor(plan: seq<Step>, n: nat, id: Id)
    requires n <= |plan|
  {
    HasId(Puts(plan[..n]), id)
  }

  /** Step j asks for an edge with this key; a quorum server's only together with the server. */
  predicate Tries(plan: seq<Step>, j: nat, key: Key)
    requires j < |plan|
  {
    match plan[j]
    case Join(e) => KeyOf(e) == key
    case Pair(a, b) => (a, b, FtPair) == key
    case Ensure(id, cluster) => (cluster, id, QuorumLink) == key && !AskedFor(plan, j, id)
    case _ => false
  }

  /** Both its ends have been asked for by then. */
  predicate EndsThere(plan: seq<Step>, j: nat, key: Key)
    requires j < |plan|
  {
    AskedFor(plan, j + 1, key.0) && AskedFor(plan, j + 1, key.1)
  }

  predicate Succeeds(plan: seq<Step>, j: nat, key: Key)
    requires j < |plan|
  {
    Tries(plan, j, key) && EndsThere(plan, j, key)
  }

  /** The edge with its status; that of a pair depends on its ends at the time. */
  ghost predicate MadeBy(plan: seq<Step>, j: nat, e: Edge)
    requires j < |plan|
  {
    match plan[j]
    case Join(x) => e == x
    case Pair(a, b) =>
      var t := Run(BLANK, plan[..j]).nodes;
      e == Edge(a, b, FtPair, if Worse(StatusIn(t, a), StatusIn(t, b)) == Ok then Ok else Degraded)
    case Ensure(id, cluster) => e == Edge(cluster, id, QuorumLink, Unknown)
    case _ => false
  }

  /** The first step that succeeds with e's key makes e. */
  ghost predicate MakesFirst(plan: seq<Step>, j: nat, e: Edge)
    requires j < |plan|
  {
    Succeeds(plan, j, KeyOf(e)) && MadeBy(plan, j, e) && forall i :: 0 <= i < j ==> !Succeeds(plan, i, KeyOf(e))
  }

  lemma PresentIsAskedFor(plan: seq<Step>, n: nat, id: Id)
    requires n <= |plan|
    ensures Present(Run(BLANK, plan[..n]).nodes, id) <==> AskedFor(plan, n, id)
  {
    ShapeIs(BLANK, plan[..n]);
    assert ShapeOf(BLANK.nodes) == [];
    FirstsHave([], Puts(plan[..n]), id);
    PresentIs(Run(BLANK, plan[..n]).nodes, id);
  }

  lemma OneStep(plan: seq<Step>, n: nat)
    requires n < |plan|
    ensures Run(BLANK, plan[..n + 1]) == After(Run(BLANK, plan[..n]), plan[n])
    ensures Puts(plan[..n + 1]) == Puts(plan[..n]) + PutsOf(plan[n])
  {
    assert plan[..n + 1][..n] == plan[..n] && plan[..n + 1][n] == plan[n];
  }

  ghost predicate EdgesUpTo(plan: seq<Step>, n: nat)
    requires n <= |plan|
  {
    var edges := Run(BLANK, plan[..n]).edges;
    && (forall e :: e in edges <==> exists j :: 0 <= j < n && MakesFirst(plan, j, e))
    && (forall key :: HasKey(edges, key) <==> exists j :: 0 <= j < n && Succeeds(plan, j, key))
    && (forall a, b :: 0 <= a < b < |edges| ==> KeyOf(edges[a]) != KeyOf(edges[b]))
  }

  /** What one step does to the edges. */
  ghost function NewEdge(plan: seq<Step>, n: nat): Option<Edge>
    requires n < |plan|
  {
    match plan[n]
    case Join(e) => Some(e)
    case Pair(a, b) =>
      var t := Run(BLANK, plan[..n]).nodes;
      Some(Edge(a, b, FtPair, if Worse(StatusIn(t, a), StatusIn(t, b)) == Ok then Ok else Degraded))
    case Ensure(id, cluster) => if AskedFor(plan, n, id) then None else Some(Edge(cluster, id, QuorumLink, Unknown))
    case _ => None
  }

  lemma HasIdIn(shape: seq<Spec>, more: seq<Spec>, id: Id)
    ensures HasId(shape + more, id) <==> HasId(shape, id) || HasId(more, id)
  {
    if HasId(shape, id) {
      var i :| 0 <= i < |shape| && shape[i].id == id;
      assert (shape + more)[i].id == id;
    }
    if HasId(more, id) {
      var i :| 0 <= i < |more| && more[i].id == id;
      assert (shape + more)[|shape| + i].id == id;
    }
    if HasId(shape + more, id) {
      var i :| 0 <= i < |shape + more| && (shape + more)[i].id == id;
      assert i >= |shape| ==> more[i - |shape|].id == id;
    }
  }

  lemma EdgesGrow(plan: seq<Step>, n: nat)
    requires n < |plan|
    ensures var d, e := Run(BLANK, plan[..n]), NewEdge(plan, n);
      Run(BLANK, plan[..n + 1]).edges ==
        if e.Some? && !HasKey(d.edges, KeyOf(e.value)) && Succeeds(plan, n, KeyOf(e.value)) then d.edges + [e.value] else d.edges
    ensures forall key :: Tries(plan, n, key) <==> NewEdge(plan, n).Some? && KeyOf(NewEdge(plan, n).value) == key
    ensures forall e :: MadeBy(plan, n, e) && Tries(plan, n, KeyOf(e)) <==> NewEdge(plan, n) == Some(e)
  {
    hide Run, Puts, HasId, StatusIn;
    OneStep(plan, n);
    var e := NewEdge(plan, n);
    if e.Some? {
      PresentIsAskedFor(plan, n, e.value.source);
      PresentIsAskedFor(plan, n, e.value.target);
      HasIdIn(Puts(plan[..n]), PutsOf(plan[n]), e.value.source);
      HasIdIn(Puts(plan[..n]), PutsOf(plan[n]), e.value.target);
      StepEnds(plan, n, e.value);
    } else if plan[n].Ensure? {
      PresentIsAskedFor(plan, n, plan[n].id);
    }
  }

  /** The step adds its edge exactly if both ends are there after it and no edge has its key. */
  lemma StepEnds(plan: seq<Step>, n: nat, e: Edge)
    requires n < |plan| && NewEdge(plan, n) == Some(e)
    ensures var d := Run(BLANK, plan[..n]);
      After(d, plan[n]).edges == if EndsThere(plan, n, KeyOf(e)) && !HasKey(d.edges, KeyOf(e)) then d.edges + [e] else d.edges
  {
    hide Run, Puts, StatusIn;
    var d := Run(BLANK, plan[..n]);
    OneStep(plan, n);
    PresentIsAskedFor(plan, n, e.source);
    PresentIsAskedFor(plan, n, e.target);
    PresentIsAskedFor(plan, n + 1, e.source);
    PresentIsAskedFor(plan, n + 1, e.target);
    if plan[n].Ensure? {
      PresentIsAskedFor(plan, n, plan[n].id);
    }
  }

  lemma {:induction false} EdgesAreUpTo(plan: seq<Step>, n: nat)
    requires n <= |plan|
    ensures EdgesUpTo(plan, n)
  {
    hide EdgesUpTo, Succeeds, Tries, MadeBy, NewEdge, Run;
    if n == 0 {
      NoEdgesYet(plan);
    } else {
      EdgesAreUpTo(plan, n - 1);
      EdgesGrow(plan, n - 1);
      OneMoreEdge(plan, n - 1);
    }
  }

  lemma OneMoreEdge(plan: seq<Step>, n: nat)
    requires n < |plan| && EdgesUpTo(plan, n)
    requires var d, e := Run(BLANK, plan[..n]), NewEdge(plan, n);
      Run(BLANK, plan[..n + 1]).edges ==
        if e.Some? && !HasKey(d.edges, KeyOf(e.value)) && Succeeds(plan, n, KeyOf(e.value)) then d.edges + [e.value] else d.edges
    requires forall key :: Tries(plan, n, key) <==> NewEdge(plan, n).Some? && KeyOf(NewEdge(plan, n).value) == key
    requires forall e :: MadeBy(plan, n, e) && Tries(plan, n, KeyOf(e)) <==> NewEdge(plan, n) == Some(e)
    ensures EdgesUpTo(plan, n + 1)
  {
    hide Run, Tries, EndsThere, MadeBy, NewEdge;
    var before, after := Run(BLANK, plan[..n]).edges, Run(BLANK, plan[..n + 1]).edges;
    forall e ensures e in after <==> exists j :: 0 <= j < n + 1 && MakesFirst(plan, j, e) {
      assert MakesFirst(plan, n, e) <==> NewEdge(plan, n) == Some(e) && Succeeds(plan, n, KeyOf(e)) && !HasKey(before, KeyOf(e));
    }
    forall key ensures HasKey(after, key) <==> exists j :: 0 <= j < n + 1 && Succeeds(plan, j, key) {
      assert forall e :: e in before ==> e in after;
      if HasKey(after, key) && !HasKey(before, key) {
        var e :| e in after && KeyOf(e) == key;
        assert NewEdge(plan, n) == Some(e) && Succeeds(plan, n, key);
      }
      if HasKey(before, key) {
        var e :| e in before && KeyOf(e) == key;
        assert e in after;
      } else if Succeeds(plan, n, key) {
        assert NewEdge(plan, n).value in after;
      }
    }
    if |after| > |before| {
      forall a | 0 <= a < |before| ensures KeyOf(before[a]) != KeyOf(NewEdge(plan, n).value) {
        assert before[a] in before;
      }
    }
  }

  lemma NoEdgesYet(plan: seq<Step>)
    ensures EdgesUpTo(plan, 0)
  {
    assert plan[..0] == [];
  }

  /**
    An edge is drawn if and only if some step asks for it when both its ends have been asked for, no step
    before did with success, and its status is that step's. No key is there twice.
   */
  lemma EdgesAre(plan: seq<Step>, e: Edge)
    ensures e in Run(BLANK, plan).edges <==> exists j :: 0 <= j < |plan| && MakesFirst(plan, j, e)
  {
    assert plan[..|plan|] == plan;
    EdgesAreUpTo(plan, |plan|);
  }

  lemma KeysAre(plan: seq<Step>, key: Key)
    ensures HasKey(Run(BLANK, plan).edges, key) <==> exists j :: 0 <= j < |plan| && Succeeds(plan, j, key)
    ensures var edges := Run(BLANK, plan).edges; forall a, b :: 0 <= a < b < |edges| ==> KeyOf(edges[a]) != KeyOf(edges[b])
  {
    assert plan[..|plan|] == plan;
    EdgesAreUpTo(plan, |plan|);
  }

  // ----- Own statuses --------------------------------------------------------------------

  /** The statuses planned for an id: that of its node, and those it is raised to afterwards. */
  function PlannedFor(plan: seq<Step>, id: Id): seq<Status> {
    if plan == [] then []
    else
      var before := PlannedFor(plan[..|plan| - 1], id);
      match plan[|plan| - 1]
      case Put(i, _, status, _) => if i == id && before == [] then [status] else before
      case Ensure(i, _) => if i == id && before == [] then [Unknown] else before
      case Raise(i, status) => if i == id && before != [] then before + [status] else before
      case _ => before
  }

  ghost predicate IsWorst(s: Status, all: seq<Status>) {
    s in all && forall t :: t in all ==> NoWorse(t, s)
  }

  /** What holds of every node drawn so far. */
  ghost predicate StatusesAre(plan: seq<Step>) {
    var t := Run(BLANK, plan).nodes;
    && (forall i :: 0 <= i < |t| ==> IsWorst(t[i].status, PlannedFor(plan, t[i].id)))
    && (forall id :: PlannedFor(plan, id) != [] ==> Present(t, id))
  }

  /** Every node's own status is the worst of those planned for it. */
  lemma {:induction false} StatusIsWorst(plan: seq<Step>)
    ensures StatusesAre(plan)
  {
    if plan != [] {
      StatusIsWorst(plan[..|plan| - 1]);
      StatusStep(plan);
    }
  }

  lemma StatusStep(plan: seq<Step>)
    requires plan != [] && StatusesAre(plan[..|plan| - 1])
    ensures StatusesAre(plan)
  {
    var init, s := plan[..|plan| - 1], plan[|plan| - 1];
    var d := Run(BLANK, init);
    var t, u := d.nodes, Run(BLANK, plan).nodes;
    hide Run, IsWorst;
    assert u == After(d, s).nodes by { RunsLast(plan); }
    forall i | 0 <= i < |u| ensures IsWorst(u[i].status, PlannedFor(plan, u[i].id)) {
      if i < |t| {
        assert u[i].id == t[i].id;
        WorstMore(t[i].status, PlannedFor(init, t[i].id));
      } else {
        assert !Present(t, u[i].id) && PlannedFor(init, u[i].id) == [];
        OnlyOne(u[i].status);
      }
    }
    forall id | PlannedFor(plan, id) != [] ensures Present(u, id) {
      if Present(t, id) {
        StepKeepsPresent(d, s, id);
      } else {
        assert PlannedFor(init, id) == [];
        assert s.id == id && u[|t|].id == id;
      }
    }
  }

  lemma RunsLast(plan: seq<Step>)
    requires plan != []
    ensures Run(BLANK, plan) == After(Run(BLANK, plan[..|plan| - 1]), plan[|plan| - 1])
  {
  }

  lemma WorstMore(s: Status, all: seq<Status>)
    requires IsWorst(s, all)
    ensures all != [] && forall x :: IsWorst(Worse(s, x), all + [x])
  {
  }

  lemma OnlyOne(s: Status)
    ensures IsWorst(s, [s])
  {
  }
}
