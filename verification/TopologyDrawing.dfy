/**
  A graph as a value, and the elementary steps that draw it. A builder's work is a list of steps that
  depends on its input alone; here is what running such a list amounts to.
 */
module TopologyDrawing {
  import opened Base
  import opened TopologyStatus
  import opened TopologyRollup
  import opened TopologyGraph

  datatype Drawing = Drawing(nodes: Nodes, edges: seq<Edge>)

  const BLANK: Drawing := Drawing([], [])

  datatype Step =
    | Put(id: Id, kind: Kind, status: Status, parent: Option<Id>) // if the id is new
    | Join(edge: Edge) // if both ends are there and the edge is not
    | Pair(a: Id, b: Id) // the edge of a fault tolerant pair, by the status of its ends
    | Ensure(id: Id, cluster: Id) // a quorum server and its edge, if the id is new
    | Raise(id: Id, status: Status)
    | Mark(id: Id, severity: Option<Status>) // raises the alert status

  ghost function PutIn(d: Drawing, id: Id, kind: Kind, status: Status, parent: Option<Id>): Drawing {
    if Present(d.nodes, id) then d else d.(nodes := d.nodes + [NewNode(id, kind, Some(status), parent)])
  }

  ghost predicate CanJoin(d: Drawing, e: Edge) {
    Present(d.nodes, e.source) && Present(d.nodes, e.target) && !HasKey(d.edges, KeyOf(e))
  }

  ghost function JoinIn(d: Drawing, e: Edge): Drawing {
    if CanJoin(d, e) then d.(edges := d.edges + [e]) else d
  }

  function StatusIn(t: Nodes, id: Id): Status {
    if t == [] then Unknown else if t[0].id == id then t[0].status else StatusIn(t[1..], id)
  }

  lemma {:induction false} StatusInIs(t: Nodes, i: nat)
    requires i < |t| && DistinctIds(t)
    ensures StatusIn(t, t[i].id) == t[i].status
  {
    if i > 0 {
      assert t[0].id != t[i].id;
      assert forall k :: 0 <= k < |t[1..]| ==> t[1..][k] == t[k + 1];
      StatusInIs(t[1..], i - 1);
    }
  }

  function RaisedNode(n: GNode, id: Id, status: Status): GNode {
    if n.id == id then n.(status := Worse(n.status, status)) else n
  }

  function MarkedNode(n: GNode, id: Id, severity: Option<Status>): GNode {
    if n.id == id && severity.Some? && NoWorse(Warning, severity.value)
    then n.(alert := Some(Worse(if n.alert.Some? then n.alert.value else Unknown, severity.value)))
    else n
  }

  ghost function After(d: Drawing, s: Step): Drawing {
    match s
    case Put(id, kind, status, parent) => PutIn(d, id, kind, status, parent)
    case Join(e) => JoinIn(d, e)
    case Pair(a, b) =>
      if Present(d.nodes, a) && Present(d.nodes, b)
      then JoinIn(d, Edge(a, b, FtPair, if Worse(StatusIn(d.nodes, a), StatusIn(d.nodes, b)) == Ok then Ok else Degraded))
      else d
    case Ensure(id, parent) =>
      if Present(d.nodes, id) then d
      else JoinIn(PutIn(d, id, Quorum, Unknown, Some(parent)), Edge(parent, id, QuorumLink, Unknown))
    case Raise(id, status) =>
      d.(nodes := seq(|d.nodes|, i requires 0 <= i < |d.nodes| => RaisedNode(d.nodes[i], id, status)))
    case Mark(id, severity) =>
      d.(nodes := seq(|d.nodes|, i requires 0 <= i < |d.nodes| => MarkedNode(d.nodes[i], id, severity)))
  }

  ghost function Run(d: Drawing, plan: seq<Step>): Drawing {
    if plan == [] then d else After(Run(d, plan[..|plan| - 1]), plan[|plan| - 1])
  }

  // ----- Running lists ----------------------------------------------------------

  lemma {:induction false} RunsOn(d: Drawing, a: seq<Step>, b: seq<Step>)
    ensures Run(d, a + b) == Run(Run(d, a), b)
  {
    if b == [] {
      assert a + b == a;
    } else {
      RunsOn(d, a, b[..|b| - 1]);
      assert (a + b)[..|a + b| - 1] == a + b[..|b| - 1];
    }
  }

  lemma RunsOne(d: Drawing, s: Step)
    ensures Run(d, [s]) == After(d, s) && Run(d, []) == d
  {
    assert [s][..0] == [];
  }

  lemma RunsNone(d: Drawing)
    ensures Run(d, []) == d
  {
  }

  /** What the first n parts of a plan come to. */
  function Concat(parts: seq<seq<Step>>, n: nat): seq<Step>
    requires n <= |parts|
  {
    if n == 0 then [] else Concat(parts, n - 1) + parts[n - 1]
  }

  function All(parts: seq<seq<Step>>): seq<Step> {
    Concat(parts, |parts|)
  }

  lemma NoPartYet(d: Drawing, parts: seq<seq<Step>>)
    ensures Run(d, Concat(parts, 0)) == d
  {
  }

  lemma NextPart(d: Drawing, parts: seq<seq<Step>>, j: nat)
    requires j < |parts|
    ensures Run(d, Concat(parts, j + 1)) == Run(Run(d, Concat(parts, j)), parts[j])
  {
    RunsOn(d, Concat(parts, j), parts[j]);
  }

  lemma StepKeepsPresent(d: Drawing, s: Step, id: Id)
    requires Present(d.nodes, id)
    ensures Present(After(d, s).nodes, id)
  {
    var i :| 0 <= i < |d.nodes| && d.nodes[i].id == id;
    assert After(d, s).nodes[i].id == id;
  }

  /** Steps keep what is there where it is. */
  lemma {:induction false} RunKeepsIds(d: Drawing, plan: seq<Step>, i: nat)
    requires i < |d.nodes|
    ensures i < |Run(d, plan).nodes| && Run(d, plan).nodes[i].id == d.nodes[i].id
  {
    if plan != [] { RunKeepsIds(d, plan[..|plan| - 1], i); }
  }

  /** What was put is there. */
  lemma {:induction false} PutIsPresent(d: Drawing, plan: seq<Step>, s: Step)
    requires s in plan && s.Put?
    ensures Present(Run(d, plan).nodes, s.id)
  {
    var init, last := plan[..|plan| - 1], plan[|plan| - 1];
    if s in init {
      PutIsPresent(d, init, s);
      StepKeepsPresent(Run(d, init), last, s.id);
    } else {
      var t := Run(d, init).nodes;
      assert s == last;
      if !Present(t, s.id) {
        assert Run(d, plan).nodes[|t|].id == s.id;
      }
    }
  }

  lemma {:induction false} StepIsIn(parts: seq<seq<Step>>, j: nat, n: nat, s: Step)
    requires j < n <= |parts| && s in parts[j]
    ensures s in Concat(parts, n)
  {
    if j < n - 1 { StepIsIn(parts, j, n - 1, s); }
  }

  // ----- The nodes alone -----------------------------------------------------------

  /** A node and its parent. */
  datatype Spec = Spec(id: Id, kind: Kind, parent: Option<Id>)

  function SpecOf(n: GNode): Spec {
    Spec(n.id, n.kind, n.parent)
  }

  function ShapeOf(t: Nodes): (r: seq<Spec>)
    ensures |r| == |t|
  {
    seq(|t|, i requires 0 <= i < |t| => SpecOf(t[i]))
  }

  function PutsOf(s: Step): seq<Spec> {
    match s
    case Put(id, kind, _, parent) => [Spec(id, kind, parent)]
    case Ensure(id, parent) => [Spec(id, Quorum, Some(parent))]
    case _ => []
  }

  /** The nodes a plan asks for, in order. */
  function Puts(plan: seq<Step>): seq<Spec> {
    if plan == [] then [] else Puts(plan[..|plan| - 1]) + PutsOf(plan[|plan| - 1])
  }

  lemma {:induction false} PutsOn(a: seq<Step>, b: seq<Step>)
    ensures Puts(a + b) == Puts(a) + Puts(b)
  {
    hide PutsOf;
    if b == [] {
      assert a + b == a;
    } else {
      PutsOn(a, b[..|b| - 1]);
      assert (a + b)[..|a + b| - 1] == a + b[..|b| - 1];
    }
  }

  predicate HasId(shape: seq<Spec>, id: Id) {
    exists i :: 0 <= i < |shape| && shape[i].id == id
  }

  /** The first specification of each id, in order, behind what is there. */
  function Firsts(shape: seq<Spec>, specs: seq<Spec>): seq<Spec> {
    if specs == [] then shape
    else
      var init, x := Firsts(shape, specs[..|specs| - 1]), specs[|specs| - 1];
      if HasId(init, x.id) then init else init + [x]
  }

  lemma {:induction false} FirstsOn(shape: seq<Spec>, a: seq<Spec>, b: seq<Spec>)
    ensures Firsts(shape, a + b) == Firsts(Firsts(shape, a), b)
  {
    if b == [] {
      assert a + b == a;
    } else {
      FirstsOn(shape, a, b[..|b| - 1]);
      assert (a + b)[..|a + b| - 1] == a + b[..|b| - 1];
    }
  }

  predicate Levelled(t: Nodes) {
    forall i :: 0 <= i < |t| ==> t[i].level == LevelOf(t[i].kind)
  }

  lemma PresentIs(t: Nodes, id: Id)
    ensures Present(t, id) <==> HasId(ShapeOf(t), id)
  {
    if Present(t, id) {
      var i :| 0 <= i < |t| && t[i].id == id;
      assert ShapeOf(t)[i].id == id;
    }
  }

  lemma StepShape(d: Drawing, s: Step)
    requires Levelled(d.nodes)
    ensures Levelled(After(d, s).nodes) && ShapeOf(After(d, s).nodes) == Firsts(ShapeOf(d.nodes), PutsOf(s))
  {
    var shape := ShapeOf(d.nodes);
    assert Firsts(shape, []) == shape;
    if s.Put? || s.Ensure? {
      PresentIs(d.nodes, s.id);
      var x := PutsOf(s)[0];
      assert [x][..0] == [];
      assert Firsts(shape, [x]) == if HasId(shape, x.id) then shape else shape + [x];
    }
  }

  /** The nodes of a drawing are the first specification of each id, whatever else the plan does. */
  lemma {:induction false} ShapeIs(d: Drawing, plan: seq<Step>)
    requires Levelled(d.nodes)
    ensures Levelled(Run(d, plan).nodes) && ShapeOf(Run(d, plan).nodes) == Firsts(ShapeOf(d.nodes), Puts(plan))
  {
    if plan != [] {
      var init := plan[..|plan| - 1];
      ShapeIs(d, init);
      StepShape(Run(d, init), plan[|plan| - 1]);
      FirstsOn(ShapeOf(d.nodes), Puts(init), PutsOf(plan[|plan| - 1]));
    }
  }

  /** Where no id is asked for twice, exactly what was asked for is there. */
  lemma {:induction false} DistinctAreAll(specs: seq<Spec>)
    requires Apart(specs)
    ensures Firsts([], specs) == specs
  {
    if specs != [] {
      var init, x := specs[..|specs| - 1], specs[|specs| - 1];
      DistinctAreAll(init);
      assert init + [x] == specs;
      assert forall i :: 0 <= i < |init| ==> init[i].id == specs[i].id != specs[|specs| - 1].id;
    }
  }

  lemma {:induction false} FirstsHave(shape: seq<Spec>, specs: seq<Spec>, id: Id)
    ensures HasId(Firsts(shape, specs), id) <==> HasId(shape, id) || HasId(specs, id)
  {
    if specs != [] {
      var init, x := specs[..|specs| - 1], specs[|specs| - 1];
      FirstsHave(shape, init, id);
      assert specs == init + [x];
      HasOneMore(init, x, id);
      HasOneMore(Firsts(shape, init), x, id);
    }
  }

  lemma HasOneMore(shape: seq<Spec>, x: Spec, id: Id)
    ensures HasId(shape + [x], id) <==> HasId(shape, id) || x.id == id
  {
    var more := shape + [x];
    if HasId(shape, id) {
      var i :| 0 <= i < |shape| && shape[i].id == id;
      assert more[i].id == id;
    }
    assert more[|shape|] == x;
    if HasId(more, id) && x.id != id {
      var i :| 0 <= i < |more| && more[i].id == id;
      assert shape[i].id == id;
    }
  }

  // ----- When the level order holds ----------------------------------------------------

  predicate Before(specs: seq<Spec>, id: Id, j: nat)
    requires j <= |specs|
  {
    exists i :: 0 <= i < j && specs[i].id == id
  }

  /** The parent's own specification, the first of its id, is at a smaller level. */
  ghost predicate Descends(specs: seq<Spec>, j: nat)
    requires j < |specs|
  {
    specs[j].parent.Some? ==>
      exists p :: 0 <= p < |specs| && specs[p].id == specs[j].parent.value && !Before(specs, specs[p].id, p)
                  && LevelOf(specs[p].kind) < LevelOf(specs[j].kind)
  }

  /** The condition on what is asked for. */
  ghost predicate Ordered(specs: seq<Spec>) {
    forall j :: 0 <= j < |specs| && !Before(specs, specs[j].id, j) ==> Descends(specs, j)
  }

  /** The same of nodes that are there: ids apart, each parent present at a smaller level. */
  ghost predicate TreeShape(shape: seq<Spec>) {
    && Apart(shape)
    && (forall i :: 0 <= i < |shape| ==> Placed(shape, shape[i]))
  }

  ghost predicate Placed(shape: seq<Spec>, x: Spec) {
    x.parent.Some? ==> exists p :: 0 <= p < |shape| && shape[p].id == x.parent.value && LevelOf(shape[p].kind) < LevelOf(x.kind)
  }

  lemma TreeIsShape(t: Nodes)
    requires Levelled(t)
    ensures IsTree(t) <==> TreeShape(ShapeOf(t))
  {
    var shape := ShapeOf(t);
    forall i | 0 <= i < |t| ensures ParentIsAbove(t, i) <==> Placed(shape, shape[i]) {
      if ParentIsAbove(t, i) && t[i].parent.Some? {
        var p :| 0 <= p < |t| && t[p].id == t[i].parent.value && t[p].level < t[i].level;
        assert shape[p].id == shape[i].parent.value;
      }
    }
    if TreeShape(shape) {
      forall i, j | 0 <= i < |t| && 0 <= j < |t| && t[i].id == t[j].id ensures i == j {
        assert shape[i].id == shape[j].id;
      }
    }
    if IsTree(t) {
      forall i, j | 0 <= i < j < |t| ensures shape[i].id != shape[j].id {
        assert t[i].id == t[j].id ==> i == j;
      }
    }
  }

  /** The nodes kept are those not asked for before. */
  lemma {:induction false} FirstsAre(specs: seq<Spec>, n: nat, x: Spec)
    requires n <= |specs|
    ensures x in Firsts([], specs[..n]) <==> exists j :: 0 <= j < n && specs[j] == x && !Before(specs, x.id, j)
  {
    if n > 0 {
      var init, y := specs[..n - 1], specs[n - 1];
      FirstsAre(specs, n - 1, x);
      assert specs[..n][..n - 1] == init;
      FirstsHave([], init, y.id);
      assert HasId(init, y.id) <==> Before(specs, y.id, n - 1) by {
        if Before(specs, y.id, n - 1) {
          var i :| 0 <= i < n - 1 && specs[i].id == y.id;
          assert init[i].id == y.id;
        }
      }
    }
  }

  predicate Apart(shape: seq<Spec>) {
    forall i, j :: 0 <= i < j < |shape| ==> shape[i].id != shape[j].id
  }

  lemma {:induction false} FirstsAreApart(shape: seq<Spec>, specs: seq<Spec>)
    requires Apart(shape)
    ensures Apart(Firsts(shape, specs))
  {
    if specs != [] {
      var init := Firsts(shape, specs[..|specs| - 1]);
      FirstsAreApart(shape, specs[..|specs| - 1]);
      assert !HasId(init, specs[|specs| - 1].id) ==> forall i :: 0 <= i < |init| ==> init[i].id != specs[|specs| - 1].id;
    }
  }

  /** What is kept forms a tree with the level order if and only if what was asked for meets the condition. */
  lemma TreeIffOrdered(specs: seq<Spec>)
    ensures TreeShape(Firsts([], specs)) <==> Ordered(specs)
  {
    var shape := Firsts([], specs);
    assert specs[..|specs|] == specs;
    FirstsAreApart([], specs);
    if Ordered(specs) {
      forall i | 0 <= i < |shape| ensures Placed(shape, shape[i]) {
        FirstsAre(specs, |specs|, shape[i]);
        var j :| 0 <= j < |specs| && specs[j] == shape[i] && !Before(specs, shape[i].id, j);
        assert Descends(specs, j);
        if specs[j].parent.Some? {
          var p :| 0 <= p < |specs| && specs[p].id == specs[j].parent.value && !Before(specs, specs[p].id, p)
                   && LevelOf(specs[p].kind) < LevelOf(specs[j].kind);
          FirstsAre(specs, |specs|, specs[p]);
        }
      }
    }
    if TreeShape(shape) {
      forall j | 0 <= j < |specs| && !Before(specs, specs[j].id, j) ensures Descends(specs, j) {
        FirstsAre(specs, |specs|, specs[j]);
        var i :| 0 <= i < |shape| && shape[i] == specs[j];
        assert Placed(shape, shape[i]);
        if specs[j].parent.Some? {
          var p :| 0 <= p < |shape| && shape[p].id == shape[i].parent.value && LevelOf(shape[p].kind) < LevelOf(shape[i].kind);
          FirstsAre(specs, |specs|, shape[p]);
        }
      }
    }
  }

  /** The drawing of a plan is a tree with the level order if and only if what the plan asks for is ordered. */
  lemma DrawingIsTreeIff(plan: seq<Step>)
    ensures IsTree(Run(BLANK, plan).nodes) <==> Ordered(Puts(plan))
  {
    ShapeIs(BLANK, plan);
    assert ShapeOf(BLANK.nodes) == [];
    TreeIsShape(Run(BLANK, plan).nodes);
    TreeIffOrdered(Puts(plan));
  }

  /** One node more keeps the level order exactly if its id is taken or its parent is there at a smaller level. */
  lemma OneNodeKeepsTreeIff(t: Nodes, id: Id, kind: Kind, status: Status, parent: Option<Id>)
    requires IsTree(t)
    ensures IsTree(PutIn(Drawing(t, []), id, kind, status, parent).nodes) <==>
            Present(t, id) || parent.None?
            || (exists p :: 0 <= p < |t| && t[p].id == parent.value && t[p].level < LevelOf(kind))
  {
    if !Present(t, id) {
      NewNodeKeepsTreeIff(t, NewNode(id, kind, Some(status), parent));
    }
  }

  lemma NewNodeKeepsTreeIff(t: Nodes, n: GNode)
    requires IsTree(t) && !Present(t, n.id) && n.level <= LAST_LEVEL
    ensures IsTree(t + [n]) <==>
            n.parent.None? || exists p :: 0 <= p < |t| && t[p].id == n.parent.value && t[p].level < n.level
  {
    var u := t + [n];
    forall i | 0 <= i < |t| ensures ParentIsAbove(u, i) && u[i].id != n.id {
      assert ParentIsAbove(t, i);
      assert t[i].id == n.id ==> Present(t, n.id);
      if t[i].parent.Some? {
        var p :| 0 <= p < |t| && t[p].id == t[i].parent.value && t[p].level < t[i].level;
        assert u[p] == t[p];
      }
    }
    assert ParentIsAbove(u, |t|) ==> IsTree(u);
    if n.parent.Some? {
      if p :| 0 <= p < |t| && t[p].id == n.parent.value && t[p].level < n.level {
        assert u[p] == t[p];
        assert ParentIsAbove(u, |t|);
      } else {
        assert !ParentIsAbove(u, |t|);
      }
    }
  }

  // ----- A condition that is enough ------------------------------------------------------

  /** No id stands for two kinds. */
  predicate OneKindPerId(specs: seq<Spec>) {
    forall i, j :: 0 <= i < |specs| && 0 <= j < |specs| && specs[i].id == specs[j].id ==> specs[i].kind == specs[j].kind
  }

  /** Something in the list is x's parent, at a smaller level. */
  ghost predicate Above(specs: seq<Spec>, x: Spec) {
    x.parent.Some? ==> exists y :: y in specs && y.id == x.parent.value && LevelOf(y.kind) < LevelOf(x.kind)
  }

  /** Each one's parent has been asked for before, or is in the base. */
  ghost predicate Rooted(base: seq<Spec>, specs: seq<Spec>) {
    forall j :: 0 <= j < |specs| ==> Above(base + specs[..j], specs[j])
  }

  lemma OneKindIsOrdered(specs: seq<Spec>)
    requires OneKindPerId(specs) && Rooted([], specs)
    ensures Ordered(specs)
  {
    forall j | 0 <= j < |specs| && !Before(specs, specs[j].id, j) ensures Descends(specs, j) {
      assert Above([] + specs[..j], specs[j]);
      if specs[j].parent.Some? {
        var y :| y in [] + specs[..j] && y.id == specs[j].parent.value && LevelOf(y.kind) < LevelOf(specs[j].kind);
        var i :| 0 <= i < j && specs[i] == y;
        var p := FirstOf(specs, i);
        assert specs[p].kind == specs[i].kind;
      }
    }
  }

  lemma {:induction false} FirstOf(specs: seq<Spec>, i: nat) returns (p: nat)
    requires i < |specs|
    ensures p <= i && specs[p].id == specs[i].id && !Before(specs, specs[p].id, p)
  {
    p := i;
    if Before(specs, specs[i].id, i) {
      var k :| 0 <= k < i && specs[k].id == specs[i].id;
      p := FirstOf(specs, k);
    }
  }

  lemma AboveMore(base: seq<Spec>, more: seq<Spec>, x: Spec)
    requires Above(base, x) && forall y :: y in base ==> y in more
    ensures Above(more, x)
  {
  }

  lemma RootedMore(base: seq<Spec>, more: seq<Spec>, specs: seq<Spec>)
    requires Rooted(base, specs) && forall y :: y in base ==> y in more
    ensures Rooted(more, specs)
  {
    forall j | 0 <= j < |specs| ensures Above(more + specs[..j], specs[j]) {
      AboveMore(base + specs[..j], more + specs[..j], specs[j]);
    }
  }

  lemma RootedOn(base: seq<Spec>, a: seq<Spec>, b: seq<Spec>)
    requires Rooted(base, a) && Rooted(base + a, b)
    ensures Rooted(base, a + b)
  {
    forall j | 0 <= j < |a + b| ensures Above(base + (a + b)[..j], (a + b)[j]) {
      if j < |a| {
        assert (a + b)[..j] == a[..j];
      } else {
        assert (a + b)[..j] == a + b[..j - |a|];
        assert base + (a + b[..j - |a|]) == (base + a) + b[..j - |a|];
      }
    }
  }

  /** All parts rooted in the base alone. */
  lemma {:induction false} PartsAreRooted(base: seq<Spec>, parts: seq<seq<Step>>, n: nat)
    requires n <= |parts| && forall j :: 0 <= j < n ==> Rooted(base, Puts(parts[j]))
    ensures Rooted(base, Puts(Concat(parts, n)))
  {
    hide Rooted, Puts;
    if n == 0 {
      NothingIsRooted(base);
    } else {
      PartsAreRooted(base, parts, n - 1);
      var before := Puts(Concat(parts, n - 1));
      PutsOn(Concat(parts, n - 1), parts[n - 1]);
      RootedMore(base, base + before, Puts(parts[n - 1]));
      RootedOn(base, before, Puts(parts[n - 1]));
    }
  }

  lemma NothingIsRooted(base: seq<Spec>)
    ensures Puts([]) == [] && Rooted(base, [])
  {
  }

  lemma {:induction false} PartIsIn(parts: seq<seq<Step>>, j: nat, n: nat, x: Spec)
    requires j < n <= |parts| && x in Puts(parts[j])
    ensures x in Puts(Concat(parts, n))
  {
    hide Puts;
    PutsOn(Concat(parts, n - 1), parts[n - 1]);
    if j < n - 1 { PartIsIn(parts, j, n - 1, x); }
  }

  // ----- Alerts -----------------------------------------------------------------------------

  /** Own statuses stay, alert statuses never get better. */
  ghost predicate OnlyAlerts(before: Nodes, after: Nodes) {
    |before| <= |after|
    && forall i :: 0 <= i < |before| ==> before[i].status == after[i].status && AlertNoWorse(before[i].alert, after[i].alert)
  }

  lemma {:induction false} MarksTouchNoStatus(d: Drawing, plan: seq<Step>)
    requires forall s :: s in plan ==> s.Mark? || s.Ensure?
    ensures OnlyAlerts(d.nodes, Run(d, plan).nodes)
  {
    if plan != [] {
      var init, s := plan[..|plan| - 1], plan[|plan| - 1];
      MarksTouchNoStatus(d, init);
      var a, b := Run(d, init).nodes, Run(d, plan).nodes;
      assert s.Mark? || s.Ensure?;
      assert OnlyAlerts(a, b);
      forall i | 0 <= i < |d.nodes| ensures d.nodes[i].status == b[i].status && AlertNoWorse(d.nodes[i].alert, b[i].alert) {
        assert a[i].status == b[i].status && AlertNoWorse(a[i].alert, b[i].alert);
      }
    }
  }
}
