/** Whole topologies: one cluster, or a fleet of them, built and finished. */
module TopologyFleet {
  import opened Base
  import opened TopologyStatus
  import opened TopologyForest
  import opened TopologyRollup
  import opened TopologyGraph
  import opened TopologyDrawing
  import opened TopologyPlans
  import opened TopologyOrder
  import opened TopologyBuild

  // ----- One cluster --------------------------------------------------------------

  /** Draws any cluster, whatever its ids: exactly what is planned for it. */
  method DrawCluster(c: ClusterIn) returns (g: Graph)
    ensures fresh(g) && g.Valid() && DrawingOf(g) == Run(BLANK, ClusterPlan(c, None))
  {
    g := new Graph();
    BuildClusterInto(g, c, None);
  }

  method BuildClusterInto(g: Graph, c: ClusterIn, parent: Option<Id>)
    requires g.Valid()
    modifies g
    ensures g.Valid() && DrawingOf(g) == Run(old(DrawingOf(g)), ClusterPlan(c, parent))
  {
    var b := new ClusterBuild(g, c);
    b.Build(parent);
  }

  /** What a finished graph is, given what was drawn: with the level order, every roll-up is the recursive one. */
  ghost predicate Finished(d: Drawing, g: Graph)
    reads g
  {
    && g.nodes == FinalOf(Prepared(d.nodes, d.edges)) && g.edges == d.edges && ShapeOf(g.nodes) == ShapeOf(d.nodes)
    && (IsTree(d.nodes) ==>
          IsTree(Prepared(d.nodes, d.edges)) && AllRolledUp(Prepared(d.nodes, d.edges), g.nodes))
  }

  /** The final pass, on any graph: no id, kind, parent or edge changes. */
  method Finish(g: Graph)
    requires g.Valid()
    modifies g
    ensures g.Valid() && Finished(old(DrawingOf(g)), g)
  {
    ghost var d := DrawingOf(g);
    g.Finalize();
    FinalShape(Prepared(d.nodes, d.edges));
    PreparedShape(d.nodes, d.edges);
  }

  lemma PreparedShape(t: Nodes, edges: seq<Edge>)
    ensures ShapeOf(Prepared(t, edges)) == ShapeOf(t)
  {
  }

  lemma FinalShape(t: Nodes)
    ensures ShapeOf(FinalOf(t)) == ShapeOf(t)
  {
    var order := SortedByLevel(t, |t|);
    forall i | 0 <= i < |t| ensures SpecOf(FinalOf(t)[i]) == SpecOf(t[i]) {
      PassKeepsSpec(t, order, |t|, i);
    }
  }

  lemma {:induction false} PassKeepsSpec(t: Nodes, order: seq<nat>, n: nat, i: nat)
    requires n <= |order| && Within(order, |t|) && i < |t|
    ensures SpecOf(Passed(t, order, n)[i]) == SpecOf(t[i])
  {
    hide CountAll, Combine, KidsAmong, StatusesOf, CountsOf;
    if n > 0 { PassKeepsSpec(t, order, n - 1, i); }
  }

  /** One cluster alone: for every input, and with recursive roll-ups where its specifications are ordered. */
  method BuildClusterTopology(c: ClusterIn) returns (g: Graph)
    ensures fresh(g) && g.Valid() && Finished(Run(BLANK, ClusterPlan(c, None)), g)
    ensures ShapeOf(g.nodes) == Firsts([], ClusterSpecs(c, None))
    ensures Ordered(ClusterSpecs(c, None)) ==> IsTree(Run(BLANK, ClusterPlan(c, None)).nodes)
  {
    g := DrawCluster(c);
    ClusterIsTreeIff(c);
    ShapeIs(BLANK, ClusterPlan(c, None));
    assert ShapeOf(BLANK.nodes) == [];
    Finish(g);
  }

  /** Where no id is asked for twice, the graph has exactly the nodes asked for, each under its parent. */
  lemma DistinctIdsAreAllThere(c: ClusterIn)
    requires Apart(ClusterSpecs(c, None))
    ensures Ordered(ClusterSpecs(c, None)) && Firsts([], ClusterSpecs(c, None)) == ClusterSpecs(c, None)
  {
    hide Ordered, Rooted;
    DistinctAreAll(ClusterSpecs(c, None));
    assert forall i, j :: 0 <= i < j < |ClusterSpecs(c, None)| ==> ClusterSpecs(c, None)[i].id != ClusterSpecs(c, None)[j].id;
    OneKindIsEnough(c);
  }

  // ----- A fleet --------------------------------------------------------------------

  const FLEET: Id := "fleet:root"

  /** A cluster and the site it stands in; a site may come without an id. */
  datatype Member = Member(c: ClusterIn, site: Option<string>)

  function SiteId(m: Member): Id {
    if m.site.Some? && m.site.value != "" then m.site.value else "site:default"
  }

  function MemberParent(m: Member): Id {
    if m.site.Some? then SiteId(m) else FLEET
  }

  /** The sites of the first n members. */
  function Sites(members: seq<Member>, n: nat): set<Id>
    requires n <= |members|
  {
    if n == 0 then {} else Sites(members, n - 1) + if members[n - 1].site.Some? then {SiteId(members[n - 1])} else {}
  }

  /** A site is put with the first of its members. */
  function SitePlan(m: Member, seen: set<Id>): seq<Step> {
    if m.site.Some? && SiteId(m) !in seen then UnderPlan(SiteId(m), Site, Unknown, FLEET, Contains, Ok) else []
  }

  function MemberPlan(m: Member, seen: set<Id>): seq<Step> {
    SitePlan(m, seen) + ClusterPlan(m.c, Some(MemberParent(m)))
  }

  function MemberPlans(members: seq<Member>): (r: seq<seq<Step>>)
    ensures |r| == |members|
  {
    seq(|members|, j requires 0 <= j < |members| => MemberPlan(members[j], Sites(members, j)))
  }

  function FleetPlan(members: seq<Member>): seq<Step> {
    [Put(FLEET, Fleet, Unknown, None)] + All(MemberPlans(members))
  }

  function FleetSpecs(members: seq<Member>): seq<Spec> {
    Puts(FleetPlan(members))
  }

  method DrawFleet(members: seq<Member>) returns (g: Graph)
    ensures fresh(g) && g.Valid() && DrawingOf(g) == Run(BLANK, FleetPlan(members))
  {
    hide Run, MemberPlan, Concat;
    g := new Graph();
    var _ := PutNode(g, FLEET, Fleet, Unknown, None);
    BuildMembers(g, members);
    RunsOn(BLANK, [Put(FLEET, Fleet, Unknown, None)], All(MemberPlans(members)));
  }

  method BuildMembers(g: Graph, members: seq<Member>)
    requires g.Valid()
    modifies g
    ensures g.Valid() && DrawingOf(g) == Run(old(DrawingOf(g)), All(MemberPlans(members)))
  {
    hide Run, MemberPlan, Concat, Graph.Valid;
    ghost var d := DrawingOf(g);
    NoPartYet(d, MemberPlans(members));
    var siteSeen: set<Id> := {};
    for j := 0 to |members|
      invariant g.Valid() && siteSeen == Sites(members, j)
      invariant DrawingOf(g) == Run(d, Concat(MemberPlans(members), j))
    {
      BuildMember(g, members[j], siteSeen);
      if members[j].site.Some? {
        siteSeen := siteSeen + {SiteId(members[j])};
      }
      NextPart(d, MemberPlans(members), j);
    }
  }

  method BuildMember(g: Graph, m: Member, seen: set<Id>)
    requires g.Valid()
    modifies g
    ensures g.Valid() && DrawingOf(g) == Run(old(DrawingOf(g)), MemberPlan(m, seen))
  {
    hide Run, ClusterPlan;
    ghost var d := DrawingOf(g);
    PutSite(g, m, seen);
    BuildClusterInto(g, m.c, Some(MemberParent(m)));
    RunsOn(d, SitePlan(m, seen), ClusterPlan(m.c, Some(MemberParent(m))));
  }

  method PutSite(g: Graph, m: Member, seen: set<Id>)
    requires g.Valid()
    modifies g
    ensures g.Valid() && DrawingOf(g) == Run(old(DrawingOf(g)), SitePlan(m, seen))
  {
    hide Run;
    ghost var d := DrawingOf(g);
    RunsNone(d);
    var sid := SiteId(m);
    if m.site.Some? && sid !in seen {
      var _ := PutNode(g, sid, Site, Unknown, Some(FLEET));
      JoinNodes(g, FLEET, sid, Contains, Ok);
      ghost var put, join := Put(sid, Site, Unknown, Some(FLEET)), Join(Edge(FLEET, sid, Contains, Ok));
      assert [put] + [join] == UnderPlan(sid, Site, Unknown, FLEET, Contains, Ok);
      RunsOn(d, [put], [join]);
    }
  }

  /** Several clusters under one root, with a level of sites where given. */
  method BuildFleetTopology(members: seq<Member>) returns (g: Graph)
    ensures fresh(g) && g.Valid() && Finished(Run(BLANK, FleetPlan(members)), g)
    ensures ShapeOf(g.nodes) == Firsts([], FleetSpecs(members))
    ensures Ordered(FleetSpecs(members)) ==> IsTree(Run(BLANK, FleetPlan(members)).nodes)
  {
    g := DrawFleet(members);
    FleetIsTreeIff(members);
    ShapeIs(BLANK, FleetPlan(members));
    assert ShapeOf(BLANK.nodes) == [];
    Finish(g);
  }

  /** The graph drawn for a fleet has the level order if and only if what it asks for is ordered. */
  lemma FleetIsTreeIff(members: seq<Member>)
    ensures IsTree(Run(BLANK, FleetPlan(members)).nodes) <==> Ordered(FleetSpecs(members))
  {
    DrawingIsTreeIff(FleetPlan(members));
  }

  /** With one kind per id it always has. */
  lemma OneKindIsEnoughForFleets(members: seq<Member>)
    requires OneKindPerId(FleetSpecs(members))
    ensures Ordered(FleetSpecs(members))
  {
    hide Rooted, Ordered, OneKindPerId, Puts, MemberPlan;
    var root := Spec(FLEET, Fleet, None);
    PutsOne(Put(FLEET, Fleet, Unknown, None));
    PutsOn([Put(FLEET, Fleet, Unknown, None)], All(MemberPlans(members)));
    MembersAreRooted(members, |members|);
    OneIsRooted([], root);
    assert [] + [root] == [root];
    RootedOn([], [root], Puts(All(MemberPlans(members))));
    OneKindIsOrdered(FleetSpecs(members));
  }

  ghost predicate SitesOffered(members: seq<Member>, n: nat, base: seq<Spec>)
    requires n <= |members|
  {
    forall id :: id in Sites(members, n) ==> Offers(base, id, Site)
  }

  lemma SitesMore(members: seq<Member>, n: nat, base: seq<Spec>, more: seq<Spec>)
    requires n < |members| && SitesOffered(members, n, base)
    requires members[n].site.Some? ==> Offers(base + more, SiteId(members[n]), Site)
    ensures SitesOffered(members, n + 1, base + more)
  {
    forall id | id in Sites(members, n) ensures Offers(base + more, id, Site) {
      OffersMore(base, more, id, Site);
    }
  }

  lemma {:induction false} MembersAreRooted(members: seq<Member>, n: nat)
    requires n <= |members|
    ensures var base := [Spec(FLEET, Fleet, None)]; var specs := Puts(Concat(MemberPlans(members), n));
      Rooted(base, specs) && SitesOffered(members, n, base + specs)
  {
    hide Rooted, Puts, MemberPlan, SitesOffered, Offers, Sites;
    var base := [Spec(FLEET, Fleet, None)];
    if n == 0 {
      NothingIsRooted(base);
      NoSitesYet(members, base + Puts([]));
    } else {
      MembersAreRooted(members, n - 1);
      var plan, m := Concat(MemberPlans(members), n - 1), members[n - 1];
      var part := MemberPlan(m, Sites(members, n - 1));
      var before := base + Puts(plan);
      assert Concat(MemberPlans(members), n) == plan + part;
      assert base[0] in before;
      SitesMean(members, n - 1, before);
      MemberIsRooted(before, m, Sites(members, n - 1));
      ThenRooted(base, plan, part);
      SitesMore(members, n - 1, before, Puts(part));
    }
  }

  lemma NoSitesYet(members: seq<Member>, base: seq<Spec>)
    ensures SitesOffered(members, 0, base)
  {
  }

  lemma SitesMean(members: seq<Member>, n: nat, base: seq<Spec>)
    requires n <= |members| && SitesOffered(members, n, base)
    ensures forall id :: id in Sites(members, n) ==> Offers(base, id, Site)
  {
  }

  lemma MemberIsRooted(base: seq<Spec>, m: Member, seen: set<Id>)
    requires Spec(FLEET, Fleet, None) in base && forall id :: id in seen ==> Offers(base, id, Site)
    ensures Rooted(base, Puts(MemberPlan(m, seen)))
    ensures m.site.Some? ==> Offers(base + Puts(MemberPlan(m, seen)), SiteId(m), Site)
  {
    hide Rooted, Puts, ClusterPlan;
    assert Offers(base, FLEET, Fleet);
    var site := SitePlan(m, seen);
    NothingIsRooted(base);
    if m.site.Some? && SiteId(m) !in seen {
      var x := Spec(SiteId(m), Site, Some(FLEET));
      PutsUnder(SiteId(m), Site, Unknown, FLEET, Contains, Ok);
      OfferIsAbove(base, FLEET, Fleet, x);
      assert x in base + [x];
    }
    assert m.site.Some? ==> Offers(base + Puts(site), SiteId(m), Site) by {
      assert base + [] == base;
    }
    OffersMore(base, Puts(site), FLEET, Fleet);
    ClusterIsRooted(m.c, Some(MemberParent(m)), if m.site.Some? then Site else Fleet, base + Puts(site));
    ThenRooted(base, site, ClusterPlan(m.c, Some(MemberParent(m))));
    if m.site.Some? {
      OffersMore(base + Puts(site), Puts(ClusterPlan(m.c, Some(MemberParent(m)))), SiteId(m), Site);
    }
  }

  /** Alerts raise alert statuses and touch no status of a node's own. */
  lemma AlertsTouchNoStatus(c: ClusterIn, d: Drawing)
    ensures OnlyAlerts(d.nodes, Run(d, All(AlertPlans(c))).nodes)
  {
    forall s | s in All(AlertPlans(c)) ensures s.Mark? || s.Ensure? {
      var j := PartOf(AlertPlans(c), |c.alerts|, s);
      var alert := c.alerts[j];
      var marks := MarkPlans(if alert.targets == [] then [ClusterGid(c)] else TargetIds(c, alert), alert.severity);
      if s in All(TargetPlans(c, alert)) {
        var k := PartOf(TargetPlans(c, alert), |alert.targets|, s);
      } else {
        var k := PartOf(marks, |marks|, s);
      }
    }
    MarksTouchNoStatus(d, All(AlertPlans(c)));
  }

  lemma {:induction false} PartOf(parts: seq<seq<Step>>, n: nat, s: Step) returns (j: nat)
    requires n <= |parts| && s in Concat(parts, n)
    ensures j < n && s in parts[j]
  {
    j := n - 1;
    if s !in parts[n - 1] { j := PartOf(parts, n - 1, s); }
  }
}
