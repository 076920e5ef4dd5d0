/** Building the graph of one cluster: every builder draws exactly what is planned for its part of the input. */
module TopologyBuild {
  import opened Base
  import opened TopologyStatus
  import opened TopologyRollup
  import opened TopologyGraph
  import opened TopologyDrawing
  import opened TopologyPlans

  ghost function DrawingOf(g: Graph): Drawing
    reads g
  {
    Drawing(g.nodes, g.edges)
  }

  // ----- Single steps -----------------------------------------------------------

  lemma KnownIds(g: Graph, id: Id)
    requires g.Valid()
    ensures id in g.byId <==> Present(g.nodes, id)
  {
    if Present(g.nodes, id) {
      var i :| 0 <= i < |g.nodes| && g.nodes[i].id == id;
    }
  }

  lemma IdsAreApart(g: Graph)
    requires g.Valid()
    ensures DistinctIds(g.nodes)
  {
  }

  method PutNode(g: Graph, id: Id, kind: Kind, status: Status, parent: Option<Id>) returns (i: nat)
    requires g.Valid()
    modifies g
    ensures g.Valid() && DrawingOf(g) == Run(old(DrawingOf(g)), [Put(id, kind, status, parent)])
    ensures i < |g.nodes| && g.nodes[i].id == id
  {
    KnownIds(g, id);
    RunsOne(DrawingOf(g), Put(id, kind, status, parent));
    i := g.AddNode(id, kind, Some(status), parent);
  }

  method JoinNodes(g: Graph, source: Id, target: Id, kind: EdgeKind, status: Status)
    requires g.Valid()
    modifies g`edges, g`edgeKeys
    ensures g.Valid() && DrawingOf(g) == Run(old(DrawingOf(g)), [Join(Edge(source, target, kind, status))])
  {
    KnownIds(g, source);
    KnownIds(g, target);
    RunsOne(DrawingOf(g), Join(Edge(source, target, kind, status)));
    var _ := g.AddEdge(source, target, kind, status);
  }

  class ClusterBuild {
    const g: Graph
    const c: ClusterIn
    var nodeByName: map<string, Id>
    var netByName: map<string, Id>
    var groupById: map<string, Id>
    var vmVolumes: set<string>
    ghost var named: nat // how many nodes are registered by name
    ghost var netted: nat // how many networks
    ghost var grouped: nat // how many storage groups by id
    ghost var listed: nat // of how many VMs the volumes

    constructor (g: Graph, c: ClusterIn)
      requires g.Valid()
      ensures this.g == g && this.c == c && Sound() && Registered(0, 0, 0, 0)
    {
      this.g, this.c := g, c;
      nodeByName, netByName, groupById, vmVolumes := map[], map[], map[], {};
      named, netted, grouped, listed := 0, 0, 0, 0;
    }

    /** The tables hold what has been registered so far. */
    ghost predicate Sound()
      reads this, g
    {
      && g.Valid()
      && named <= |c.nodes| && nodeByName == NodeNames(c, named)
      && netted <= |c.networks| && netByName == NetNames(c, netted)
      && grouped <= |c.groups| && groupById == GroupIds(c, grouped)
      && listed <= |c.vms| && vmVolumes == VmVolumes(c, listed)
    }

    ghost predicate Registered(nodes: nat, networks: nat, groups: nat, vms: nat)
      reads this
    {
      named == nodes && netted == networks && grouped == groups && listed == vms
    }

    /** All nodes, networks and groups are registered. */
    ghost predicate Ready()
      reads this, g
    {
      Sound() && named == |c.nodes| && netted == |c.networks| && grouped == |c.groups|
    }

    // ----- Steps that keep the tables -------------------------------------------------

    method Add(id: Id, kind: Kind, status: Status, parent: Id) returns (i: nat)
      requires Sound()
      modifies g
      ensures Sound() && DrawingOf(g) == Run(old(DrawingOf(g)), [Put(id, kind, status, Some(parent))])
      ensures i < |g.nodes| && g.nodes[i].id == id
    {
      i := PutNode(g, id, kind, status, Some(parent));
    }

    method Link(source: Id, target: Id, kind: EdgeKind, status: Status)
      requires Sound()
      modifies g`edges, g`edgeKeys
      ensures Sound() && DrawingOf(g) == Run(old(DrawingOf(g)), [Join(Edge(source, target, kind, status))])
    {
      JoinNodes(g, source, target, kind, status);
    }

    /** Adds a node with the edge that shows it under its parent. */
    method PutUnder(id: Id, kind: Kind, status: Status, parent: Id, edge: EdgeKind, shown: Status)
      requires Sound()
      modifies g
      ensures Sound() && DrawingOf(g) == Run(old(DrawingOf(g)), UnderPlan(id, kind, status, parent, edge, shown))
    {
      hide Run, Sound;
      ghost var d := DrawingOf(g);
      var _ := Add(id, kind, status, parent);
      Link(parent, id, edge, shown);
      ghost var put, join := Put(id, kind, status, Some(parent)), Join(Edge(parent, id, edge, shown));
      assert [put] + [join] == UnderPlan(id, kind, status, parent, edge, shown);
      RunsOn(d, [put], [join]);
    }

    method RaiseOne(i: nat, status: Status)
      requires Sound() && i < |g.nodes|
      modifies g`nodes
      ensures Sound() && DrawingOf(g) == Run(old(DrawingOf(g)), [Raise(old(g.nodes)[i].id, status)])
      ensures |g.nodes| == |old(g.nodes)| && g.nodes[i].id == old(g.nodes)[i].id
    {
      IdsAreApart(g);
      RunsOne(DrawingOf(g), Raise(g.nodes[i].id, status));
      g.RaiseStatus(i, status);
      assert g.nodes == After(old(DrawingOf(g)), Raise(old(g.nodes)[i].id, status)).nodes;
    }

    /** Raises the alert status of a node; its own status is never touched. */
    method MarkOne(id: Id, severity: Option<Status>)
      requires Sound()
      modifies g`nodes
      ensures Sound() && DrawingOf(g) == Run(old(DrawingOf(g)), [Mark(id, severity)])
    {
      IdsAreApart(g);
      KnownIds(g, id);
      RunsOne(DrawingOf(g), Mark(id, severity));
      if id in g.byId && severity.Some? && NoWorse(Warning, severity.value) {
        var i := g.byId[id];
        var before := if g.nodes[i].alert.Some? then g.nodes[i].alert.value else Unknown;
        g.RaiseAlert(i, Worse(before, severity.value));
      }
      assert g.nodes == After(old(DrawingOf(g)), Mark(id, severity)).nodes;
    }

    /** The host something is on, if it is known. */
    method FindHost(name: string) returns (host: Option<Id>)
      requires Ready()
      ensures host == Host(c, name)
    {
      host := if name in nodeByName then Some(nodeByName[name]) else None;
    }

    method FindNetwork(name: string) returns (net: Option<Id>)
      requires Ready()
      ensures net == Network(c, name)
    {
      net := if name in netByName then Some(netByName[name]) else None;
    }

    method FindGroup(group: Option<string>) returns (found: Option<Id>)
      requires Ready()
      ensures found == Group(c, group)
    {
      found := if group.Some? && group.value in groupById then Some(groupById[group.value]) else None;
    }

    // ----- Infrastructure --------------------------------------------------------

    /** The cluster itself. */
    method BuildUnit(parent: Option<Id>)
      requires Sound()
      modifies g
      ensures Sound() && DrawingOf(g) == Run(old(DrawingOf(g)), UnitPlan(c, parent))
    {
      ghost var d := DrawingOf(g);
      var i := PutNode(g, ClusterGid(c), Cluster, Ok, parent);
      hide Run, Sound;
      ghost var put := [Put(ClusterGid(c), Cluster, Ok, parent)];
      ghost var join: seq<Step> := [];
      RunsNone(DrawingOf(g));
      if parent.Some? {
        Link(parent.value, ClusterGid(c), Contains, Ok);
        join := [Join(Edge(parent.value, ClusterGid(c), Contains, Ok))];
      }
      RunsOn(d, put, join);
      RunsNone(DrawingOf(g));
      ghost var raise: seq<Step> := [];
      if c.syncing {
        RaiseOne(i, Warning);
        raise := [Raise(ClusterGid(c), Warning)];
      }
      RunsOn(d, put + join, raise);
    }

    method RegisterNode(node: NodeIn)
      requires Sound() && named < |c.nodes| && node == c.nodes[named]
      modifies `nodeByName, `named
      ensures Sound() && named == old(named) + 1
    {
      nodeByName := nodeByName[node.name := Gid(c.cid, node.id)];
      named := named + 1;
    }

    method RegisterNetwork(net: NetworkIn)
      requires Sound() && netted < |c.networks| && net == c.networks[netted]
      modifies `netByName, `netted
      ensures Sound() && netted == old(netted) + 1
    {
      netByName := netByName[net.name := Gid(c.cid, net.id)];
      netted := netted + 1;
    }

    method RegisterGroup(group: GroupIn)
      requires Sound() && grouped < |c.groups| && group == c.groups[grouped]
      modifies `groupById, `grouped
      ensures Sound() && grouped == old(grouped) + 1
    {
      groupById := groupById[group.id := Gid(c.cid, group.id)];
      grouped := grouped + 1;
    }

    method BuildNodes()
      requires Sound() && named == 0
      modifies g, `nodeByName, `named
      ensures Sound() && named == |c.nodes|
      ensures DrawingOf(g) == Run(old(DrawingOf(g)), All(NodePlans(c)) + PairPlan(c))
    {
      hide Run, Sound, Concat, UnderPlan;
      ghost var d := DrawingOf(g);
      NoPartYet(d, NodePlans(c));
      for j := 0 to |c.nodes|
        invariant Sound() && named == j
        invariant DrawingOf(g) == Run(d, Concat(NodePlans(c), j))
      {
        var node := c.nodes[j];
        PutUnder(Gid(c.cid, node.id), Node, node.status, ClusterGid(c), Contains, Ok);
        RegisterNode(node);
        NextPart(d, NodePlans(c), j);
      }
      BuildPair(d);
      RunsOn(d, All(NodePlans(c)), PairPlan(c));
    }

    lemma {:induction false} NodeIsNamed(j: nat, n: nat)
      requires j < n <= |c.nodes|
      ensures c.nodes[j].name in NodeNames(c, n)
    {
      if j < n - 1 { NodeIsNamed(j, n - 1); }
    }

    /** A name stands for a node that was put. */
    lemma {:induction false} NamedIsPresent(d: Drawing, name: string, n: nat)
      requires n <= |c.nodes| && name in NodeNames(c, n)
      ensures Present(Run(d, All(NodePlans(c))).nodes, NodeNames(c, n)[name])
    {
      hide Run;
      if name == c.nodes[n - 1].name {
        var s := Put(Gid(c.cid, c.nodes[n - 1].id), Node, c.nodes[n - 1].status, Some(ClusterGid(c)));
        assert s in NodePlans(c)[n - 1];
        StepIsIn(NodePlans(c), n - 1, |c.nodes|, s);
        PutIsPresent(d, All(NodePlans(c)), s);
      } else {
        NamedIsPresent(d, name, n - 1);
      }
    }

    method BuildPair(ghost d: Drawing)
      requires Sound() && named == |c.nodes| && DrawingOf(g) == Run(d, All(NodePlans(c)))
      modifies g`edges, g`edgeKeys
      ensures Sound() && DrawingOf(g) == Run(old(DrawingOf(g)), PairPlan(c))
    {
      ghost var t := DrawingOf(g);
      RunsNone(t);
      if |c.nodes| == 2 {
        NodeIsNamed(0, 2);
        NodeIsNamed(1, 2);
        var a, b := nodeByName[c.nodes[0].name], nodeByName[c.nodes[1].name];
        NamedIsPresent(d, c.nodes[0].name, 2);
        NamedIsPresent(d, c.nodes[1].name, 2);
        LinkPair(a, b);
      }
    }

    method LinkPair(a: Id, b: Id)
      requires Sound() && Present(g.nodes, a) && Present(g.nodes, b)
      modifies g`edges, g`edgeKeys
      ensures Sound() && DrawingOf(g) == Run(old(DrawingOf(g)), [Pair(a, b)])
    {
      IdsAreApart(g);
      KnownIds(g, a);
      KnownIds(g, b);
      StatusInIs(g.nodes, g.byId[a]);
      StatusInIs(g.nodes, g.byId[b]);
      var worst := Worse(g.nodes[g.byId[a]].status, g.nodes[g.byId[b]].status);
      var status := if worst == Ok then Ok else Degraded;
      RunsOne(DrawingOf(g), Pair(a, b));
      RunsOne(DrawingOf(g), Join(Edge(a, b, FtPair, status)));
      Link(a, b, FtPair, status);
    }

    method BuildNetworks()
      requires Sound() && netted == 0
      modifies g, `netByName, `netted
      ensures Sound() && netted == |c.networks|
      ensures DrawingOf(g) == Run(old(DrawingOf(g)), All(NetworkPlans(c)))
    {
      hide Run, Sound, Concat, UnderPlan;
      ghost var d := DrawingOf(g);
      NoPartYet(d, NetworkPlans(c));
      for j := 0 to |c.networks|
        invariant Sound() && netted == j
        invariant DrawingOf(g) == Run(d, Concat(NetworkPlans(c), j))
      {
        var net := c.networks[j];
        PutUnder(Gid(c.cid, net.id), SharedNetwork, net.status, ClusterGid(c), Contains, Ok);
        RegisterNetwork(net);
        NextPart(d, NetworkPlans(c), j);
      }
    }

    method BuildGroups()
      requires Sound() && named == |c.nodes| && netted == |c.networks| && grouped == 0
      modifies g, `groupById, `grouped
      ensures Ready() && DrawingOf(g) == Run(old(DrawingOf(g)), All(GroupPlans(c)))
    {
      hide Run, Sound, Concat, GroupPlan;
      ghost var d := DrawingOf(g);
      NoPartYet(d, GroupPlans(c));
      for j := 0 to |c.groups|
        invariant Sound() && grouped == j
        invariant DrawingOf(g) == Run(d, Concat(GroupPlans(c), j))
      {
        BuildGroup(c.groups[j]);
        RegisterGroup(c.groups[j]);
        NextPart(d, GroupPlans(c), j);
      }
    }

    method BuildGroup(group: GroupIn)
      requires Sound() && named == |c.nodes|
      modifies g
      ensures Sound() && DrawingOf(g) == Run(old(DrawingOf(g)), GroupPlan(c, group))
    {
      hide Run, Sound;
      ghost var d := DrawingOf(g);
      var id := Gid(c.cid, group.id);
      PutUnder(id, StorageGroup, group.status, ClusterGid(c), Contains, Ok);
      BuildDisks(group.disks, id);
      RunsOn(d, UnderPlan(id, StorageGroup, group.status, ClusterGid(c), Contains, Ok), All(DiskPlans(c, group.disks, id)));
    }

    method BuildDisks(disks: seq<DiskIn>, group: Id)
      requires Sound() && named == |c.nodes|
      modifies g
      ensures Sound() && DrawingOf(g) == Run(old(DrawingOf(g)), All(DiskPlans(c, disks, group)))
    {
      hide Run, Sound, Concat, DiskPlan;
      ghost var d := DrawingOf(g);
      NoPartYet(d, DiskPlans(c, disks, group));
      for k := 0 to |disks|
        invariant Sound() && DrawingOf(g) == Run(d, Concat(DiskPlans(c, disks, group), k))
      {
        BuildDisk(disks[k], group);
        NextPart(d, DiskPlans(c, disks, group), k);
      }
    }

    method BuildDisk(disk: DiskIn, group: Id)
      requires Sound() && named == |c.nodes|
      modifies g
      ensures Sound() && DrawingOf(g) == Run(old(DrawingOf(g)), DiskPlan(c, disk, group))
    {
      ghost var d := DrawingOf(g);
      var id, status := Gid(c.cid, disk.id), if disk.normal then Ok else Degraded;
      var host := if disk.node in nodeByName then Some(nodeByName[disk.node]) else None;
      assert host == Host(c, disk.node);
      hide Run, Sound;
      ghost var put: seq<Step>;
      if host.Some? {
        PutUnder(id, Disk, status, host.value, Contains, Ok);
        put := UnderPlan(id, Disk, status, host.value, Contains, Ok);
      } else {
        var _ := Add(id, Disk, status, ClusterGid(c));
        put := [Put(id, Disk, status, Some(ClusterGid(c)))];
      }
      Link(id, group, MemberOf, status);
      RunsOn(d, put, [Join(Edge(id, group, MemberOf, status))]);
    }

    method BuildNics()
      requires Ready()
      modifies g
      ensures Ready() && DrawingOf(g) == Run(old(DrawingOf(g)), All(NicPlans(c)))
    {
      hide Run, Sound, Concat, PortPlans;
      ghost var d := DrawingOf(g);
      NoPartYet(d, NicPlans(c));
      for j := 0 to |c.nodes|
        invariant Ready() && DrawingOf(g) == Run(d, Concat(NicPlans(c), j))
      {
        NodeIsNamed(j, |c.nodes|);
        BuildPorts(c.nodes[j]);
        NextPart(d, NicPlans(c), j);
      }
    }

    method BuildPorts(node: NodeIn)
      requires Ready() && Host(c, node.name).Some?
      modifies g
      ensures Ready() && DrawingOf(g) == Run(old(DrawingOf(g)), All(PortPlans(c, node)))
    {
      hide Run, Sound, Concat, PortPlan;
      ghost var d := DrawingOf(g);
      NoPartYet(d, PortPlans(c, node));
      for k := 0 to |node.links|
        invariant Ready() && DrawingOf(g) == Run(d, Concat(PortPlans(c, node), k))
      {
        BuildPort(node, node.links[k]);
        NextPart(d, PortPlans(c, node), k);
      }
    }

    /** A port under its machine, and its uplink if its network is here. */
    method BuildPort(node: NodeIn, link: LinkIn)
      requires Ready() && Host(c, node.name).Some?
      modifies g
      ensures Ready() && DrawingOf(g) == Run(old(DrawingOf(g)), PortPlan(c, node, link))
    {
      hide Run, Sound;
      ghost var d := DrawingOf(g);
      var id := NicGid(c, node.name, link.name);
      var net: Option<Id> := None;
      if link.network.Some? {
        net := FindNetwork(link.network.value);
      }
      var status := match link.oper
        case Up => Ok
        case Down => if net.Some? then Critical else if link.known then Ok else Unknown
        case Other => Unknown;
      var host := FindHost(node.name);
      PutUnder(id, Nic, status, host.value, Contains, Ok);
      ghost var join: seq<Step> := [];
      RunsNone(DrawingOf(g));
      if net.Some? {
        Link(id, net.value, Uplink, status);
        join := [Join(Edge(id, net.value, Uplink, status))];
      }
      RunsOn(d, UnderPlan(id, Nic, status, host.value, Contains, Ok), join);
    }

    // ----- Workloads -----------------------------------------------------------------

    method FindActive(vm: VmIn) returns (name: string)
      ensures name == ActiveNode(vm)
    {
      if vm.placement != [] {
        return vm.placement[0];
      }
      var k := 0;
      while k < |vm.instances| && !vm.instances[k].enabled
        invariant k <= |vm.instances| && FirstEnabled(vm.instances) == FirstEnabled(vm.instances[k..])
      {
        k := k + 1;
      }
      name := if k < |vm.instances| then vm.instances[k].node else "";
    }

    method BuildVms()
      requires Ready() && listed == 0
      modifies g, `vmVolumes, `listed
      ensures Ready() && listed == |c.vms| && DrawingOf(g) == Run(old(DrawingOf(g)), All(VmPlans(c)))
    {
      hide Run, Sound, Concat, VmPlan;
      ghost var d := DrawingOf(g);
      NoPartYet(d, VmPlans(c));
      for j := 0 to |c.vms|
        invariant Ready() && listed == j && DrawingOf(g) == Run(d, Concat(VmPlans(c), j))
      {
        BuildVm(c.vms[j]);
        RegisterVolumes(c.vms[j]);
        NextPart(d, VmPlans(c), j);
      }
    }

    method BuildVm(vm: VmIn)
      requires Ready()
      modifies g
      ensures Ready() && DrawingOf(g) == Run(old(DrawingOf(g)), VmPlan(c, vm))
    {
      hide Run, Sound, All;
      ghost var d := DrawingOf(g);
      var i := PutVm(vm);
      ghost var plan := [Put(Gid(c.cid, vm.id), Vm, vm.status, Some(VmParent(c, vm)))];
      LinkPlacements(vm);
      RunsOn(d, plan, All(PlacementPlans(c, vm)));
      plan := plan + All(PlacementPlans(c, vm));
      BuildInstances(vm, i);
      RunsOn(d, plan, All(InstancePlans(c, vm)));
      plan := plan + All(InstancePlans(c, vm));
      LinkInterfaces(vm, i);
      RunsOn(d, plan, All(InterfacePlans(c, vm)));
      plan := plan + All(InterfacePlans(c, vm));
      BuildVolumes(vm);
      RunsOn(d, plan, All(VolumePlans(c, vm)));
    }

    /** Under the machine it runs on, if that is known, or under the cluster. */
    method PutVm(vm: VmIn) returns (i: nat)
      requires Ready()
      modifies g
      ensures Ready()
      ensures DrawingOf(g) == Run(old(DrawingOf(g)), [Put(Gid(c.cid, vm.id), Vm, vm.status, Some(VmParent(c, vm)))])
      ensures i < |g.nodes| && g.nodes[i].id == Gid(c.cid, vm.id)
    {
      hide Run, Sound;
      var active := FindActive(vm);
      var host: Option<Id> := None;
      if active != "" {
        host := FindHost(active);
      }
      i := Add(Gid(c.cid, vm.id), Vm, vm.status, if host.Some? then host.value else ClusterGid(c));
    }

    method LinkPlacements(vm: VmIn)
      requires Ready()
      modifies g`edges, g`edgeKeys
      ensures Ready() && DrawingOf(g) == Run(old(DrawingOf(g)), All(PlacementPlans(c, vm)))
    {
      hide Run, Sound, Concat;
      ghost var d := DrawingOf(g);
      NoPartYet(d, PlacementPlans(c, vm));
      for k := 0 to |vm.instances|
        invariant Ready() && DrawingOf(g) == Run(d, Concat(PlacementPlans(c, vm), k))
        invariant g.nodes == old(g.nodes)
      {
        var host := FindHost(vm.instances[k].node);
        RunsNone(DrawingOf(g));
        if host.Some? {
          Link(host.value, Gid(c.cid, vm.id), Placement, if vm.instances[k].enabled then Ok else Degraded);
        }
        NextPart(d, PlacementPlans(c, vm), k);
      }
    }

    method BuildInstances(vm: VmIn, ghost i: nat)
      requires Ready() && i < |g.nodes| && g.nodes[i].id == Gid(c.cid, vm.id)
      modifies g
      ensures Ready() && DrawingOf(g) == Run(old(DrawingOf(g)), All(InstancePlans(c, vm)))
      ensures i < |g.nodes| && g.nodes[i].id == Gid(c.cid, vm.id)
    {
      hide Run, Sound, Concat, InstancePlan;
      ghost var d := DrawingOf(g);
      NoPartYet(d, InstancePlans(c, vm));
      for k := 0 to |vm.instances|
        invariant Ready() && DrawingOf(g) == Run(d, Concat(InstancePlans(c, vm), k))
      {
        BuildInstance(vm, vm.instances[k]);
        NextPart(d, InstancePlans(c, vm), k);
      }
      RunKeepsIds(d, All(InstancePlans(c, vm)), i);
    }

    method BuildInstance(vm: VmIn, inst: InstanceIn)
      requires Ready()
      modifies g
      ensures Ready() && DrawingOf(g) == Run(old(DrawingOf(g)), InstancePlan(c, vm, inst))
    {
      hide Run, Sound;
      ghost var d := DrawingOf(g);
      var id, status := Gid(c.cid, inst.id), if inst.enabled && inst.normal then Ok else Degraded;
      PutUnder(id, LocalVm, status, Gid(c.cid, vm.id), InstanceOf, status);
      LinkToHost(id, inst.node, status);
      RunsOn(d, UnderPlan(id, LocalVm, status, Gid(c.cid, vm.id), InstanceOf, status), ResidePlan(c, id, inst.node, status));
    }

    method LinkToHost(id: Id, node: string, status: Status)
      requires Ready()
      modifies g`edges, g`edgeKeys
      ensures Ready() && DrawingOf(g) == Run(old(DrawingOf(g)), ResidePlan(c, id, node, status))
    {
      hide Run, Sound;
      var host := FindHost(node);
      RunsNone(DrawingOf(g));
      if host.Some? {
        Link(id, host.value, ResidesOn, status);
      }
    }

    method LinkInterfaces(vm: VmIn, i: nat)
      requires Ready() && i < |g.nodes| && g.nodes[i].id == Gid(c.cid, vm.id)
      modifies g
      ensures Ready() && DrawingOf(g) == Run(old(DrawingOf(g)), All(InterfacePlans(c, vm)))
    {
      hide Run, Sound, Concat, InterfacePlan;
      ghost var d := DrawingOf(g);
      NoPartYet(d, InterfacePlans(c, vm));
      for k := 0 to |vm.interfaces|
        invariant Ready() && DrawingOf(g) == Run(d, Concat(InterfacePlans(c, vm), k))
        invariant i < |g.nodes| && g.nodes[i].id == Gid(c.cid, vm.id)
      {
        LinkInterface(vm, i, vm.interfaces[k]);
        NextPart(d, InterfacePlans(c, vm), k);
      }
    }

    method LinkInterface(vm: VmIn, i: nat, port: InterfaceIn)
      requires Ready() && i < |g.nodes| && g.nodes[i].id == Gid(c.cid, vm.id)
      modifies g
      ensures Ready() && DrawingOf(g) == Run(old(DrawingOf(g)), InterfacePlan(c, vm, port))
      ensures i < |g.nodes| && g.nodes[i].id == Gid(c.cid, vm.id)
    {
      hide Run, Sound;
      ghost var d := DrawingOf(g);
      RunsNone(d);
      var net := FindNetwork(port.network);
      if net.Some? {
        var status := if port.net0 && port.net1 then Ok else if port.net0 || port.net1 then Degraded else Critical;
        LinkPort(Gid(c.cid, vm.id), net.value, status);
        ghost var join := [Join(Edge(Gid(c.cid, vm.id), net.value, Vnic, status))];
        RunsNone(DrawingOf(g));
        ghost var raise: seq<Step> := [];
        if status != Ok {
          RaiseOne(i, status);
          raise := [Raise(Gid(c.cid, vm.id), status)];
        }
        RunsOn(d, join, raise);
      }
    }

    method LinkPort(vm: Id, net: Id, status: Status)
      requires Sound()
      modifies g`edges, g`edgeKeys
      ensures Sound() && DrawingOf(g) == Run(old(DrawingOf(g)), [Join(Edge(vm, net, Vnic, status))])
    {
      Link(vm, net, Vnic, status);
    }

    method BuildVolumes(vm: VmIn)
      requires Ready()
      modifies g
      ensures Ready() && DrawingOf(g) == Run(old(DrawingOf(g)), All(VolumePlans(c, vm)))
    {
      hide Run, Sound, Concat;
      ghost var d := DrawingOf(g);
      NoPartYet(d, VolumePlans(c, vm));
      for k := 0 to |vm.volumes|
        invariant Ready() && DrawingOf(g) == Run(d, Concat(VolumePlans(c, vm), k))
      {
        RunsNone(DrawingOf(g));
        if vm.volumes[k].id != "" {
          BuildVolume(vm, vm.volumes[k]);
        }
        NextPart(d, VolumePlans(c, vm), k);
      }
    }

    method BuildVolume(vm: VmIn, vol: VolumeIn)
      requires Ready() && vol.id != ""
      modifies g
      ensures Ready() && DrawingOf(g) == Run(old(DrawingOf(g)), VolumePlan(c, vm, vol))
    {
      hide Run, Sound;
      ghost var d := DrawingOf(g);
      var vmid, id := Gid(c.cid, vm.id), Gid(c.cid, vol.id);
      PutUnder(id, Volume, vol.status, vmid, Attaches, vol.status);
      BuildImages(vol);
      RunsOn(d, UnderPlan(id, Volume, vol.status, vmid, Attaches, vol.status), All(ImagePlans(c, vol)));
    }

    method RegisterVolumes(vm: VmIn)
      requires Sound() && listed < |c.vms| && vm == c.vms[listed]
      modifies `vmVolumes, `listed
      ensures Sound() && listed == old(listed) + 1
    {
      hide NodeNames, NetNames, GroupIds, Graph.Valid;
      for k := 0 to |vm.volumes|
        modifies `vmVolumes
        invariant vmVolumes == old(vmVolumes) + VolumeIds(vm.volumes, k)
      {
        if vm.volumes[k].id != "" {
          vmVolumes := vmVolumes + {vm.volumes[k].id};
        }
      }
      listed := listed + 1;
    }

    method BuildImages(vol: VolumeIn)
      requires Ready()
      modifies g
      ensures Ready() && DrawingOf(g) == Run(old(DrawingOf(g)), All(ImagePlans(c, vol)))
    {
      hide Run, Sound, Concat, ImagePlan;
      ghost var d := DrawingOf(g);
      NoPartYet(d, ImagePlans(c, vol));
      for k := 0 to |vol.images|
        invariant Ready() && DrawingOf(g) == Run(d, Concat(ImagePlans(c, vol), k))
      {
        BuildImage(vol, vol.images[k]);
        NextPart(d, ImagePlans(c, vol), k);
      }
    }

    method BuildImage(vol: VolumeIn, image: ImageIn)
      requires Ready()
      modifies g
      ensures Ready() && DrawingOf(g) == Run(old(DrawingOf(g)), ImagePlan(c, vol, image))
    {
      hide Run, Sound;
      ghost var d := DrawingOf(g);
      var volid, id := Gid(c.cid, vol.id), Gid(c.cid, image.id);
      var status := if image.enabled then Ok else Degraded;
      var shown := if image.enabled && c.syncing then Warning else status;
      PutUnder(id, DiskImage, status, volid, Mirror, shown);
      LinkToHost(id, image.node, status);
      RunsOn(d, UnderPlan(id, DiskImage, status, volid, Mirror, shown), ResidePlan(c, id, image.node, status));
    }

    // ----- Storage on its own, and alerts --------------------------------------------------

    method BuildStandalone()
      requires Ready() && listed == |c.vms|
      modifies g
      ensures Ready() && DrawingOf(g) == Run(old(DrawingOf(g)), All(StandalonePlans(c)))
    {
      hide Run, Sound, Concat, StandalonePlan;
      ghost var d := DrawingOf(g);
      NoPartYet(d, StandalonePlans(c));
      for j := 0 to |c.volumes|
        invariant Ready() && DrawingOf(g) == Run(d, Concat(StandalonePlans(c), j))
      {
        BuildStandaloneVolume(c.volumes[j]);
        NextPart(d, StandalonePlans(c), j);
      }
    }

    /** Under its storage group, if known; a volume of some VM is only linked. */
    method BuildStandaloneVolume(vol: StandaloneIn)
      requires Ready() && listed == |c.vms|
      modifies g
      ensures Ready() && DrawingOf(g) == Run(old(DrawingOf(g)), StandalonePlan(c, vol))
    {
      ghost var d := DrawingOf(g);
      var id := Gid(c.cid, vol.id);
      var known := vol.id in vmVolumes;
      assert known <==> vol.id in VmVolumes(c, |c.vms|);
      hide Run, Sound;
      var group := FindGroup(vol.group);
      ghost var put: seq<Step> := [];
      RunsNone(d);
      if !known {
        var parent := if group.Some? then group.value else ClusterGid(c);
        var _ := Add(id, Volume, Ok, parent);
        put := [Put(id, Volume, Ok, Some(parent))];
      }
      RunsNone(DrawingOf(g));
      LinkToGroup(id, group);
      RunsOn(d, put, if group.Some? then [Join(Edge(id, group.value, StoredOn, Ok))] else []);
    }

    method LinkToGroup(id: Id, group: Option<Id>)
      requires Sound()
      modifies g`edges, g`edgeKeys
      ensures Sound()
      ensures DrawingOf(g) == Run(old(DrawingOf(g)), if group.Some? then [Join(Edge(id, group.value, StoredOn, Ok))] else [])
    {
      RunsNone(DrawingOf(g));
      if group.Some? {
        Link(id, group.value, StoredOn, Ok);
      }
    }

    method BuildContainers()
      requires Ready()
      modifies g
      ensures Ready() && DrawingOf(g) == Run(old(DrawingOf(g)), All(ContainerPlans(c)))
    {
      hide Run, Sound, Concat, ContainerPlan;
      ghost var d := DrawingOf(g);
      NoPartYet(d, ContainerPlans(c));
      for j := 0 to |c.containers|
        invariant Ready() && DrawingOf(g) == Run(d, Concat(ContainerPlans(c), j))
      {
        BuildContainer(c.containers[j]);
        NextPart(d, ContainerPlans(c), j);
      }
    }

    method BuildContainer(ic: ContainerIn)
      requires Ready()
      modifies g
      ensures Ready() && DrawingOf(g) == Run(old(DrawingOf(g)), ContainerPlan(c, ic))
    {
      hide Run, Sound;
      ghost var d := DrawingOf(g);
      var id := Gid(c.cid, ic.id);
      var group := FindGroup(ic.group);
      var parent := if group.Some? then group.value else ClusterGid(c);
      var _ := Add(id, ImageContainer, Ok, parent);
      ghost var put := [Put(id, ImageContainer, Ok, Some(parent))];
      if ic.backs.Some? {
        Link(id, ic.backs.value, Backs, Ok);
        RunsOn(d, put, [Join(Edge(id, ic.backs.value, Backs, Ok))]);
      } else {
        LinkToGroup(id, group);
        RunsOn(d, put, if group.Some? then [Join(Edge(id, group.value, StoredOn, Ok))] else []);
      }
    }

    /** Quorum servers are known from alerts only. */
    method EnsureQuorum(address: string)
      requires Sound()
      modifies g
      ensures Sound() && DrawingOf(g) == Run(old(DrawingOf(g)), [Ensure(QuorumGid(c, address), ClusterGid(c))])
    {
      ghost var d := DrawingOf(g);
      var id := QuorumGid(c, address);
      KnownIds(g, id);
      RunsOne(d, Ensure(id, ClusterGid(c)));
      if id !in g.byId {
        RunsOne(d, Put(id, Quorum, Unknown, Some(ClusterGid(c))));
        RunsOne(Run(d, [Put(id, Quorum, Unknown, Some(ClusterGid(c)))]), Join(Edge(ClusterGid(c), id, QuorumLink, Unknown)));
        var _ := Add(id, Quorum, Unknown, ClusterGid(c));
        Link(ClusterGid(c), id, QuorumLink, Unknown);
      }
    }

    method ApplyAlerts()
      requires Sound()
      modifies g
      ensures Sound() && DrawingOf(g) == Run(old(DrawingOf(g)), All(AlertPlans(c)))
    {
      hide Run, Sound, Concat, AlertPlan;
      ghost var d := DrawingOf(g);
      NoPartYet(d, AlertPlans(c));
      for j := 0 to |c.alerts|
        invariant Sound() && DrawingOf(g) == Run(d, Concat(AlertPlans(c), j))
      {
        ApplyAlert(c.alerts[j]);
        NextPart(d, AlertPlans(c), j);
      }
    }

    /** An alert reaches the nodes it names, or the cluster if it names none. */
    method ApplyAlert(alert: AlertIn)
      requires Sound()
      modifies g
      ensures Sound() && DrawingOf(g) == Run(old(DrawingOf(g)), AlertPlan(c, alert))
    {
      hide Run, Sound;
      ghost var d := DrawingOf(g);
      var resolved := ResolveTargets(alert);
      if resolved == [] {
        resolved := [ClusterGid(c)];
      }
      MarkAll(resolved, alert.severity);
      RunsOn(d, All(TargetPlans(c, alert)), All(MarkPlans(resolved, alert.severity)));
    }

    method ResolveTargets(alert: AlertIn) returns (resolved: seq<Id>)
      requires Sound()
      modifies g
      ensures Sound() && resolved == TargetIds(c, alert)
      ensures DrawingOf(g) == Run(old(DrawingOf(g)), All(TargetPlans(c, alert)))
    {
      hide Run, Sound, Concat;
      ghost var d := DrawingOf(g);
      NoPartYet(d, TargetPlans(c, alert));
      resolved := [];
      for k := 0 to |alert.targets|
        invariant Sound() && DrawingOf(g) == Run(d, Concat(TargetPlans(c, alert), k))
        invariant resolved == TargetIds(c, alert)[..k]
      {
        RunsNone(DrawingOf(g));
        match alert.targets[k] {
          case Named(name) =>
            resolved := resolved + [name];
          case QuorumAt(address) =>
            EnsureQuorum(address);
            resolved := resolved + [QuorumGid(c, address)];
        }
        NextPart(d, TargetPlans(c, alert), k);
      }
    }

    method MarkAll(ids: seq<Id>, severity: Option<Status>)
      requires Sound()
      modifies g`nodes
      ensures Sound() && DrawingOf(g) == Run(old(DrawingOf(g)), All(MarkPlans(ids, severity)))
    {
      hide Run, Sound, Concat;
      ghost var d := DrawingOf(g);
      NoPartYet(d, MarkPlans(ids, severity));
      for k := 0 to |ids|
        invariant Sound() && DrawingOf(g) == Run(d, Concat(MarkPlans(ids, severity), k))
      {
        MarkOne(ids[k], severity);
        NextPart(d, MarkPlans(ids, severity), k);
      }
    }

    // ----- The whole cluster -----------------------------------------------------------------

    /** Part by part; what is drawn depends on the input alone. */
    method Build(parent: Option<Id>)
      requires Sound() && Registered(0, 0, 0, 0)
      modifies g, this
      ensures Sound() && DrawingOf(g) == Run(old(DrawingOf(g)), ClusterPlan(c, parent))
    {
      hide Run, Sound;
      ghost var d := DrawingOf(g);
      BuildUnit(parent);
      BuildInfrastructure();
      RunsOn(d, UnitPlan(c, parent), InfrastructurePlan(c));
      BuildWorkloads();
      RunsOn(d, UnitPlan(c, parent) + InfrastructurePlan(c), WorkloadPlan(c));
    }

    method BuildInfrastructure()
      requires Sound() && Registered(0, 0, 0, 0)
      modifies g, this
      ensures Ready() && listed == 0 && DrawingOf(g) == Run(old(DrawingOf(g)), InfrastructurePlan(c))
    {
      hide Run, Sound, All;
      ghost var d := DrawingOf(g);
      BuildNodes();
      ghost var plan := All(NodePlans(c)) + PairPlan(c);
      BuildNetworks();
      RunsOn(d, plan, All(NetworkPlans(c)));
      plan := plan + All(NetworkPlans(c));
      BuildGroups();
      RunsOn(d, plan, All(GroupPlans(c)));
      plan := plan + All(GroupPlans(c));
      BuildNics();
      RunsOn(d, plan, All(NicPlans(c)));
    }

    method BuildWorkloads()
      requires Ready() && listed == 0
      modifies g, this
      ensures Sound() && DrawingOf(g) == Run(old(DrawingOf(g)), WorkloadPlan(c))
    {
      hide Run, Sound, All;
      ghost var d := DrawingOf(g);
      BuildVms();
      ghost var plan := All(VmPlans(c));
      BuildStandalone();
      RunsOn(d, plan, All(StandalonePlans(c)));
      plan := plan + All(StandalonePlans(c));
      BuildContainers();
      RunsOn(d, plan, All(ContainerPlans(c)));
      plan := plan + All(ContainerPlans(c));
      ApplyAlerts();
      RunsOn(d, plan, All(AlertPlans(c)));
    }
  }
}
