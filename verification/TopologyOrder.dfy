/**
  What a cluster's plan asks for: which node under which, and that every parent is asked for first, at a
  smaller level. With one kind per id, that is all the final pass needs.
 */
module TopologyOrder {
  import opened Base
  import opened TopologyStatus
  import opened TopologyRollup
  import opened TopologyGraph
  import opened TopologyDrawing
  import opened TopologyPlans

  /** The nodes a cluster asks for, in order. */
  function ClusterSpecs(c: ClusterIn, parent: Option<Id>): seq<Spec> {
    Puts(ClusterPlan(c, parent))
  }

  // ----- The nodes of each part ---------------------------------------------------

  lemma PutsOne(s: Step)
    ensures Puts([s]) == PutsOf(s) && Puts([]) == []
  {
    assert [s][..0] == [];
  }

  lemma PutsUnder(id: Id, kind: Kind, status: Status, parent: Id, edge: EdgeKind, shown: Status)
    ensures Puts(UnderPlan(id, kind, status, parent, edge, shown)) == [Spec(id, kind, Some(parent))]
  {
    var put, join := Put(id, kind, status, Some(parent)), Join(Edge(parent, id, edge, shown));
    assert [put] + [join] == UnderPlan(id, kind, status, parent, edge, shown);
    PutsOn([put], [join]);
    PutsOne(put);
    PutsOne(join);
  }

  /** Joining, raising and marking ask for nothing. */
  lemma {:induction false} NothingPut(plan: seq<Step>)
    requires forall s :: s in plan ==> PutsOf(s) == []
    ensures Puts(plan) == []
  {
    if plan != [] {
      NothingPut(plan[..|plan| - 1]);
      assert plan[|plan| - 1] in plan;
    }
  }

  lemma {:induction false} NothingPutByParts(parts: seq<seq<Step>>, n: nat)
    requires n <= |parts| && forall j :: 0 <= j < n ==> Puts(parts[j]) == []
    ensures Puts(Concat(parts, n)) == []
  {
    if n > 0 {
      NothingPutByParts(parts, n - 1);
      PutsOn(Concat(parts, n - 1), parts[n - 1]);
    }
  }

  lemma UnitPuts(c: ClusterIn, parent: Option<Id>)
    ensures Puts(UnitPlan(c, parent)) == [Spec(ClusterGid(c), Cluster, parent)]
  {
    var put := [Put(ClusterGid(c), Cluster, Ok, parent)];
    var join := if parent.Some? then [Join(Edge(parent.value, ClusterGid(c), Contains, Ok))] else [];
    var raise := if c.syncing then [Raise(ClusterGid(c), Warning)] else [];
    PutsOn(put + join, raise);
    PutsOn(put, join);
    PutsOne(put[0]);
    NothingPut(join);
    NothingPut(raise);
  }

  lemma DiskPuts(c: ClusterIn, disk: DiskIn, group: Id)
    ensures Puts(DiskPlan(c, disk, group)) == [Spec(Gid(c.cid, disk.id), Disk, Some(HostOrCluster(c, disk.node)))]
  {
    var id, status := Gid(c.cid, disk.id), if disk.normal then Ok else Degraded;
    var join := [Join(Edge(id, group, MemberOf, status))];
    NothingPut(join);
    match Host(c, disk.node) {
      case Some(host) =>
        PutsUnder(id, Disk, status, host, Contains, Ok);
        PutsOn(UnderPlan(id, Disk, status, host, Contains, Ok), join);
      case None =>
        PutsOne(Put(id, Disk, status, Some(ClusterGid(c))));
        PutsOn([Put(id, Disk, status, Some(ClusterGid(c)))], join);
    }
  }

  lemma PortPuts(c: ClusterIn, node: NodeIn, link: LinkIn)
    ensures Puts(PortPlan(c, node, link)) == [Spec(NicGid(c, node.name, link.name), Nic, Some(HostOrCluster(c, node.name)))]
  {
    var id, net := NicGid(c, node.name, link.name), Attachment(c, link);
    var status := PortStatus(link, net.Some?);
    var join := if net.Some? then [Join(Edge(id, net.value, Uplink, status))] else [];
    PutsUnder(id, Nic, status, HostOrCluster(c, node.name), Contains, Ok);
    NothingPut(join);
    PutsOn(UnderPlan(id, Nic, status, HostOrCluster(c, node.name), Contains, Ok), join);
  }

  lemma InstancePuts(c: ClusterIn, vm: VmIn, inst: InstanceIn)
    ensures Puts(InstancePlan(c, vm, inst)) == [Spec(Gid(c.cid, inst.id), LocalVm, Some(Gid(c.cid, vm.id)))]
  {
    var id, status := Gid(c.cid, inst.id), if inst.enabled && inst.normal then Ok else Degraded;
    PutsUnder(id, LocalVm, status, Gid(c.cid, vm.id), InstanceOf, status);
    NothingPut(ResidePlan(c, id, inst.node, status));
    PutsOn(UnderPlan(id, LocalVm, status, Gid(c.cid, vm.id), InstanceOf, status), ResidePlan(c, id, inst.node, status));
  }

  lemma ImagePuts(c: ClusterIn, vol: VolumeIn, image: ImageIn)
    ensures Puts(ImagePlan(c, vol, image)) == [Spec(Gid(c.cid, image.id), DiskImage, Some(Gid(c.cid, vol.id)))]
  {
    var id, status := Gid(c.cid, image.id), if image.enabled then Ok else Degraded;
    var shown := if image.enabled && c.syncing then Warning else status;
    PutsUnder(id, DiskImage, status, Gid(c.cid, vol.id), Mirror, shown);
    NothingPut(ResidePlan(c, id, image.node, status));
    PutsOn(UnderPlan(id, DiskImage, status, Gid(c.cid, vol.id), Mirror, shown), ResidePlan(c, id, image.node, status));
  }

  lemma InterfacesPutNothing(c: ClusterIn, vm: VmIn)
    ensures Puts(All(PlacementPlans(c, vm))) == [] && Puts(All(InterfacePlans(c, vm))) == []
  {
    forall j | 0 <= j < |vm.instances| ensures Puts(PlacementPlans(c, vm)[j]) == [] {
      NothingPut(PlacementPlans(c, vm)[j]);
    }
    forall j | 0 <= j < |vm.interfaces| ensures Puts(InterfacePlans(c, vm)[j]) == [] {
      NothingPut(InterfacePlans(c, vm)[j]);
    }
    NothingPutByParts(PlacementPlans(c, vm), |vm.instances|);
    NothingPutByParts(InterfacePlans(c, vm), |vm.interfaces|);
  }

  lemma StandalonePuts(c: ClusterIn, vol: StandaloneIn)
    ensures Puts(StandalonePlan(c, vol)) ==
              if vol.id in VmVolumes(c, |c.vms|) then []
              else [Spec(Gid(c.cid, vol.id), Volume, Some(GroupOrCluster(c, vol.group)))]
  {
    var id, group := Gid(c.cid, vol.id), Group(c, vol.group);
    var put := if vol.id in VmVolumes(c, |c.vms|) then [] else [Put(id, Volume, Ok, Some(GroupOrCluster(c, vol.group)))];
    var join := if group.Some? then [Join(Edge(id, group.value, StoredOn, Ok))] else [];
    PutsOne(Put(id, Volume, Ok, Some(GroupOrCluster(c, vol.group))));
    NothingPut(join);
    PutsOn(put, join);
  }

  lemma ContainerPuts(c: ClusterIn, ic: ContainerIn)
    ensures Puts(ContainerPlan(c, ic)) == [Spec(Gid(c.cid, ic.id), ImageContainer, Some(GroupOrCluster(c, ic.group)))]
  {
    var id, group := Gid(c.cid, ic.id), Group(c, ic.group);
    var put := Put(id, ImageContainer, Ok, Some(GroupOrCluster(c, ic.group)));
    var join := if ic.backs.Some? then [Join(Edge(id, ic.backs.value, Backs, Ok))]
                else if group.Some? then [Join(Edge(id, group.value, StoredOn, Ok))] else [];
    PutsOne(put);
    NothingPut(join);
    PutsOn([put], join);
  }

  // ----- Every parent is asked for first -----------------------------------------------

  ghost predicate Offers(base: seq<Spec>, id: Id, kind: Kind) {
    exists x :: x in base && x.id == id && x.kind == kind
  }

  /** The cluster, its machines and its groups are in the base. */
  ghost predicate Grounded(c: ClusterIn, base: seq<Spec>) {
    && Offers(base, ClusterGid(c), Cluster)
    && (forall n :: n in NodeNames(c, |c.nodes|) ==> Offers(base, NodeNames(c, |c.nodes|)[n], Node))
    && (forall n :: n in GroupIds(c, |c.groups|) ==> Offers(base, GroupIds(c, |c.groups|)[n], StorageGroup))
  }

  ghost predicate HasNodes(c: ClusterIn, base: seq<Spec>) {
    && Offers(base, ClusterGid(c), Cluster)
    && (forall n :: n in NodeNames(c, |c.nodes|) ==> Offers(base, NodeNames(c, |c.nodes|)[n], Node))
  }

  lemma OneIsRooted(base: seq<Spec>, x: Spec)
    requires Above(base, x)
    ensures Rooted(base, [x])
  {
    assert base + [x][..0] == base;
  }

  lemma OfferIsAbove(base: seq<Spec>, id: Id, kind: Kind, x: Spec)
    requires Offers(base, id, kind) && x.parent == Some(id) && LevelOf(kind) < LevelOf(x.kind)
    ensures Above(base, x) && Rooted(base, [x])
  {
    var y :| y in base && y.id == id && y.kind == kind;
    OneIsRooted(base, x);
  }

  lemma HostIsAbove(c: ClusterIn, base: seq<Spec>, name: string, x: Spec)
    requires HasNodes(c, base) && x.parent == Some(HostOrCluster(c, name)) && LevelOf(Node) < LevelOf(x.kind)
    ensures Rooted(base, [x])
  {
    if Host(c, name).Some? {
      OfferIsAbove(base, Host(c, name).value, Node, x);
    } else {
      OfferIsAbove(base, ClusterGid(c), Cluster, x);
    }
  }

  lemma GroupIsAbove(c: ClusterIn, base: seq<Spec>, group: Option<string>, x: Spec)
    requires Grounded(c, base) && x.parent == Some(GroupOrCluster(c, group)) && LevelOf(StorageGroup) < LevelOf(x.kind)
    ensures Rooted(base, [x])
  {
    if Group(c, group).Some? {
      OfferIsAbove(base, Group(c, group).value, StorageGroup, x);
    } else {
      OfferIsAbove(base, ClusterGid(c), Cluster, x);
    }
  }

  lemma OffersMore(base: seq<Spec>, more: seq<Spec>, id: Id, kind: Kind)
    requires Offers(base, id, kind)
    ensures Offers(base + more, id, kind)
  {
    var x :| x in base && x.id == id && x.kind == kind;
    assert x in base + more;
  }

  lemma GroundedMore(c: ClusterIn, base: seq<Spec>, more: seq<Spec>)
    ensures HasNodes(c, base) ==> HasNodes(c, base + more)
    ensures Grounded(c, base) ==> Grounded(c, base + more)
  {
    forall id, kind | Offers(base, id, kind) ensures Offers(base + more, id, kind) {
      OffersMore(base, more, id, kind);
    }
  }

  lemma NodesAreRooted(c: ClusterIn, base: seq<Spec>)
    requires Offers(base, ClusterGid(c), Cluster)
    ensures Rooted(base, Puts(All(NodePlans(c))))
    ensures HasNodes(c, base + Puts(All(NodePlans(c))))
  {
    hide Rooted, Puts;
    var parts := NodePlans(c);
    forall j | 0 <= j < |parts| ensures Rooted(base, Puts(parts[j])) {
      var node := c.nodes[j];
      PutsUnder(Gid(c.cid, node.id), Node, node.status, ClusterGid(c), Contains, Ok);
      OfferIsAbove(base, ClusterGid(c), Cluster, Spec(Gid(c.cid, node.id), Node, Some(ClusterGid(c))));
    }
    PartsAreRooted(base, parts, |parts|);
    OffersMore(base, Puts(All(parts)), ClusterGid(c), Cluster);
    forall n | n in NodeNames(c, |c.nodes|) ensures Offers(base + Puts(All(parts)), NodeNames(c, |c.nodes|)[n], Node) {
      NamedIsPut(c, base, n, |c.nodes|);
    }
  }

  lemma {:induction false} NamedIsPut(c: ClusterIn, base: seq<Spec>, name: string, n: nat)
    requires n <= |c.nodes| && name in NodeNames(c, n)
    ensures Offers(base + Puts(All(NodePlans(c))), NodeNames(c, n)[name], Node)
  {
    hide Puts;
    var node := c.nodes[n - 1];
    if name == node.name {
      var x := Spec(Gid(c.cid, node.id), Node, Some(ClusterGid(c)));
      PutsUnder(Gid(c.cid, node.id), Node, node.status, ClusterGid(c), Contains, Ok);
      PartIsIn(NodePlans(c), n - 1, |c.nodes|, x);
      assert x in base + Puts(All(NodePlans(c)));
    } else {
      NamedIsPut(c, base, name, n - 1);
    }
  }

  lemma NetworksAreRooted(c: ClusterIn, base: seq<Spec>)
    requires Offers(base, ClusterGid(c), Cluster)
    ensures Rooted(base, Puts(All(NetworkPlans(c))))
  {
    hide Rooted, Puts;
    var parts := NetworkPlans(c);
    forall j | 0 <= j < |parts| ensures Rooted(base, Puts(parts[j])) {
      var net := c.networks[j];
      PutsUnder(Gid(c.cid, net.id), SharedNetwork, net.status, ClusterGid(c), Contains, Ok);
      OfferIsAbove(base, ClusterGid(c), Cluster, Spec(Gid(c.cid, net.id), SharedNetwork, Some(ClusterGid(c))));
    }
    PartsAreRooted(base, parts, |parts|);
  }

  lemma GroupsAreRooted(c: ClusterIn, base: seq<Spec>)
    requires HasNodes(c, base)
    ensures Rooted(base, Puts(All(GroupPlans(c))))
    ensures Grounded(c, base + Puts(All(GroupPlans(c))))
  {
    hide Rooted, Puts, GroupPlan, HasNodes;
    var parts := GroupPlans(c);
    forall j | 0 <= j < |parts| ensures Rooted(base, Puts(parts[j])) {
      GroupIsRooted(c, base, c.groups[j]);
    }
    PartsAreRooted(base, parts, |parts|);
    GroundedMore(c, base, Puts(All(parts)));
    forall n | n in GroupIds(c, |c.groups|) ensures Offers(base + Puts(All(parts)), GroupIds(c, |c.groups|)[n], StorageGroup) {
      GroupIsPut(c, base, n, |c.groups|);
    }
    HasNodesMeans(c, base + Puts(All(parts)));
  }

  lemma HasNodesMeans(c: ClusterIn, base: seq<Spec>)
    ensures HasNodes(c, base) ==> Offers(base, ClusterGid(c), Cluster)
    ensures HasNodes(c, base) ==> forall n :: n in NodeNames(c, |c.nodes|) ==> Offers(base, NodeNames(c, |c.nodes|)[n], Node)
    ensures Grounded(c, base) ==> HasNodes(c, base)
  {
  }

  lemma GroupPuts(c: ClusterIn, group: GroupIn)
    ensures Puts(GroupPlan(c, group)) ==
              [Spec(Gid(c.cid, group.id), StorageGroup, Some(ClusterGid(c)))]
              + Puts(All(DiskPlans(c, group.disks, Gid(c.cid, group.id))))
  {
    hide Puts;
    PutsUnder(Gid(c.cid, group.id), StorageGroup, group.status, ClusterGid(c), Contains, Ok);
    PutsOn(UnderPlan(Gid(c.cid, group.id), StorageGroup, group.status, ClusterGid(c), Contains, Ok),
           All(DiskPlans(c, group.disks, Gid(c.cid, group.id))));
  }

  lemma GroupIsRooted(c: ClusterIn, base: seq<Spec>, group: GroupIn)
    requires HasNodes(c, base)
    ensures Rooted(base, Puts(GroupPlan(c, group)))
  {
    hide Rooted, Puts, HasNodes, GroupPlan;
    HasNodesMeans(c, base);
    var gid := Gid(c.cid, group.id);
    var self := [Spec(gid, StorageGroup, Some(ClusterGid(c)))];
    GroupPuts(c, group);
    OfferIsAbove(base, ClusterGid(c), Cluster, self[0]);
    GroundedMore(c, base, self);
    var parts := DiskPlans(c, group.disks, gid);
    forall j | 0 <= j < |parts| ensures Rooted(base + self, Puts(parts[j])) {
      DiskPuts(c, group.disks[j], gid);
      HostIsAbove(c, base + self, group.disks[j].node,
                  Spec(Gid(c.cid, group.disks[j].id), Disk, Some(HostOrCluster(c, group.disks[j].node))));
    }
    PartsAreRooted(base + self, parts, |parts|);
    RootedOn(base, self, Puts(All(parts)));
  }

  lemma {:induction false} GroupIsPut(c: ClusterIn, base: seq<Spec>, name: string, n: nat)
    requires n <= |c.groups| && name in GroupIds(c, n)
    ensures Offers(base + Puts(All(GroupPlans(c))), GroupIds(c, n)[name], StorageGroup)
  {
    hide Puts, GroupPlan;
    var group := c.groups[n - 1];
    if name == group.id {
      var x := Spec(Gid(c.cid, group.id), StorageGroup, Some(ClusterGid(c)));
      GroupPuts(c, group);
      PartIsIn(GroupPlans(c), n - 1, |c.groups|, x);
      assert x in base + Puts(All(GroupPlans(c)));
    } else {
      GroupIsPut(c, base, name, n - 1);
    }
  }

  lemma NicsAreRooted(c: ClusterIn, base: seq<Spec>)
    requires HasNodes(c, base)
    ensures Rooted(base, Puts(All(NicPlans(c))))
  {
    hide Rooted, Puts, HasNodes;
    var parts := NicPlans(c);
    forall j | 0 <= j < |parts| ensures Rooted(base, Puts(parts[j])) {
      var node := c.nodes[j];
      var ports := PortPlans(c, node);
      forall k | 0 <= k < |ports| ensures Rooted(base, Puts(ports[k])) {
        PortPuts(c, node, node.links[k]);
        HostIsAbove(c, base, node.name, Spec(NicGid(c, node.name, node.links[k].name), Nic, Some(HostOrCluster(c, node.name))));
      }
      PartsAreRooted(base, ports, |ports|);
    }
    PartsAreRooted(base, parts, |parts|);
  }

  lemma VmsAreRooted(c: ClusterIn, base: seq<Spec>)
    requires HasNodes(c, base)
    ensures Rooted(base, Puts(All(VmPlans(c))))
  {
    hide Rooted, Puts, HasNodes, VmPlan;
    var parts := VmPlans(c);
    forall j | 0 <= j < |parts| ensures Rooted(base, Puts(parts[j])) {
      VmIsRooted(c, base, c.vms[j]);
    }
    PartsAreRooted(base, parts, |parts|);
  }

  lemma VmPuts(c: ClusterIn, vm: VmIn)
    ensures Puts(VmPlan(c, vm)) ==
              [Spec(Gid(c.cid, vm.id), Vm, Some(VmParent(c, vm)))] + Puts(All(InstancePlans(c, vm))) + Puts(All(VolumePlans(c, vm)))
  {
    hide Puts, All;
    var put := Put(Gid(c.cid, vm.id), Vm, vm.status, Some(VmParent(c, vm)));
    var a, b := All(PlacementPlans(c, vm)), All(InstancePlans(c, vm));
    var i, v := All(InterfacePlans(c, vm)), All(VolumePlans(c, vm));
    PutsOne(put);
    InterfacesPutNothing(c, vm);
    PutsOn([put], a);
    PutsOn([put] + a, b);
    PutsOn([put] + a + b, i);
    PutsOn([put] + a + b + i, v);
  }

  lemma VmIsRooted(c: ClusterIn, base: seq<Spec>, vm: VmIn)
    requires HasNodes(c, base)
    ensures Rooted(base, Puts(VmPlan(c, vm)))
  {
    hide Rooted, Puts, HasNodes, VmPlan, All;
    HasNodesMeans(c, base);
    var vmid := Gid(c.cid, vm.id);
    var self := [Spec(vmid, Vm, Some(VmParent(c, vm)))];
    VmPuts(c, vm);
    if ActiveNode(vm) == "" {
      OfferIsAbove(base, ClusterGid(c), Cluster, self[0]);
    } else {
      HostIsAbove(c, base, ActiveNode(vm), self[0]);
    }
    assert self[0] in base + self;
    assert Offers(base + self, vmid, Vm);
    InstancesAreRooted(c, base + self, vm);
    var instances := Puts(All(InstancePlans(c, vm)));
    RootedOn(base, self, instances);
    OffersMore(base + self, instances, vmid, Vm);
    assert base + self + instances == base + (self + instances);
    VolumesAreRooted(c, base + (self + instances), vm);
    RootedOn(base, self + instances, Puts(All(VolumePlans(c, vm))));
  }

  lemma InstancesAreRooted(c: ClusterIn, base: seq<Spec>, vm: VmIn)
    requires Offers(base, Gid(c.cid, vm.id), Vm)
    ensures Rooted(base, Puts(All(InstancePlans(c, vm))))
  {
    hide Rooted, Puts;
    var parts := InstancePlans(c, vm);
    forall j | 0 <= j < |parts| ensures Rooted(base, Puts(parts[j])) {
      InstancePuts(c, vm, vm.instances[j]);
      OfferIsAbove(base, Gid(c.cid, vm.id), Vm, Spec(Gid(c.cid, vm.instances[j].id), LocalVm, Some(Gid(c.cid, vm.id))));
    }
    PartsAreRooted(base, parts, |parts|);
  }

  lemma VolumesAreRooted(c: ClusterIn, base: seq<Spec>, vm: VmIn)
    requires Offers(base, Gid(c.cid, vm.id), Vm)
    ensures Rooted(base, Puts(All(VolumePlans(c, vm))))
  {
    hide Rooted, Puts, VolumePlan;
    var parts := VolumePlans(c, vm);
    forall j | 0 <= j < |parts| ensures Rooted(base, Puts(parts[j])) {
      VolumeIsRooted(c, base, vm, vm.volumes[j]);
    }
    PartsAreRooted(base, parts, |parts|);
  }

  lemma VolumeIsRooted(c: ClusterIn, base: seq<Spec>, vm: VmIn, vol: VolumeIn)
    requires Offers(base, Gid(c.cid, vm.id), Vm)
    ensures Rooted(base, Puts(VolumePlan(c, vm, vol)))
  {
    hide Rooted, Puts, Above;
    if vol.id == "" {
      NothingIsRooted(base);
    } else {
      var vmid, id := Gid(c.cid, vm.id), Gid(c.cid, vol.id);
      var self := [Spec(id, Volume, Some(vmid))];
      var parts := ImagePlans(c, vol);
      PutsUnder(id, Volume, vol.status, vmid, Attaches, vol.status);
      PutsOn(UnderPlan(id, Volume, vol.status, vmid, Attaches, vol.status), All(parts));
      OfferIsAbove(base, vmid, Vm, self[0]);
      assert self[0] in base + self;
      forall k | 0 <= k < |parts| ensures Rooted(base + self, Puts(parts[k])) {
        ImagePuts(c, vol, vol.images[k]);
        OfferIsAbove(base + self, id, Volume, Spec(Gid(c.cid, vol.images[k].id), DiskImage, Some(id)));
      }
      PartsAreRooted(base + self, parts, |parts|);
      RootedOn(base, self, Puts(All(parts)));
    }
  }

  lemma StorageIsRooted(c: ClusterIn, base: seq<Spec>)
    requires Grounded(c, base)
    ensures Rooted(base, Puts(All(StandalonePlans(c)))) && Rooted(base, Puts(All(ContainerPlans(c))))
  {
    hide Rooted, Puts, Grounded;
    NothingIsRooted(base);
    forall j | 0 <= j < |c.volumes| ensures Rooted(base, Puts(StandalonePlans(c)[j])) {
      var vol := c.volumes[j];
      StandalonePuts(c, vol);
      GroupIsAbove(c, base, vol.group, Spec(Gid(c.cid, vol.id), Volume, Some(GroupOrCluster(c, vol.group))));
    }
    forall j | 0 <= j < |c.containers| ensures Rooted(base, Puts(ContainerPlans(c)[j])) {
      var ic := c.containers[j];
      ContainerPuts(c, ic);
      GroupIsAbove(c, base, ic.group, Spec(Gid(c.cid, ic.id), ImageContainer, Some(GroupOrCluster(c, ic.group))));
    }
    PartsAreRooted(base, StandalonePlans(c), |c.volumes|);
    PartsAreRooted(base, ContainerPlans(c), |c.containers|);
  }

  lemma AlertsAreRooted(c: ClusterIn, base: seq<Spec>)
    requires Offers(base, ClusterGid(c), Cluster)
    ensures Rooted(base, Puts(All(AlertPlans(c))))
  {
    hide Rooted, Puts, AlertPlan;
    forall j | 0 <= j < |c.alerts| ensures Rooted(base, Puts(AlertPlans(c)[j])) {
      AlertIsRooted(c, base, c.alerts[j]);
    }
    PartsAreRooted(base, AlertPlans(c), |c.alerts|);
  }

  lemma AlertIsRooted(c: ClusterIn, base: seq<Spec>, alert: AlertIn)
    requires Offers(base, ClusterGid(c), Cluster)
    ensures Rooted(base, Puts(AlertPlan(c, alert)))
  {
    hide Rooted, Puts;
    var targets := TargetPlans(c, alert);
    var marks := MarkPlans(if alert.targets == [] then [ClusterGid(c)] else TargetIds(c, alert), alert.severity);
    NothingIsRooted(base);
    forall k | 0 <= k < |targets| ensures Rooted(base, Puts(targets[k])) {
      if alert.targets[k].QuorumAt? {
        var id := QuorumGid(c, alert.targets[k].address);
        PutsOne(Ensure(id, ClusterGid(c)));
        OfferIsAbove(base, ClusterGid(c), Cluster, Spec(id, Quorum, Some(ClusterGid(c))));
      }
    }
    PartsAreRooted(base, targets, |targets|);
    forall k | 0 <= k < |marks| ensures Puts(marks[k]) == [] {
      NothingPut(marks[k]);
    }
    NothingPutByParts(marks, |marks|);
    PutsOn(All(targets), All(marks));
    assert Puts(All(targets)) + [] == Puts(All(targets));
  }

  // ----- The whole cluster ----------------------------------------------------------------

  /** One part more. */
  lemma ThenRooted(base: seq<Spec>, plan: seq<Step>, part: seq<Step>)
    requires Rooted(base, Puts(plan)) && Rooted(base + Puts(plan), Puts(part))
    ensures Rooted(base, Puts(plan + part))
    ensures base + Puts(plan + part) == base + Puts(plan) + Puts(part)
  {
    hide Rooted, Puts;
    PutsOn(plan, part);
    RootedOn(base, Puts(plan), Puts(part));
  }

  lemma InfrastructureIsRooted(c: ClusterIn, base: seq<Spec>)
    requires Offers(base, ClusterGid(c), Cluster)
    ensures Rooted(base, Puts(InfrastructurePlan(c))) && Grounded(c, base + Puts(InfrastructurePlan(c)))
  {
    hide Rooted, Puts, All, HasNodes, Grounded;
    var plan := All(NodePlans(c));
    NodesAreRooted(c, base);
    NothingPut(PairPlan(c));
    NothingIsRooted(base + Puts(plan));
    ThenRooted(base, plan, PairPlan(c));
    plan := plan + PairPlan(c);
    assert base + Puts(plan) == base + Puts(All(NodePlans(c)));
    HasNodesMeans(c, base + Puts(plan));
    NetworksAreRooted(c, base + Puts(plan));
    ThenRooted(base, plan, All(NetworkPlans(c)));
    GroundedMore(c, base + Puts(plan), Puts(All(NetworkPlans(c))));
    plan := plan + All(NetworkPlans(c));
    GroupsAreRooted(c, base + Puts(plan));
    ThenRooted(base, plan, All(GroupPlans(c)));
    plan := plan + All(GroupPlans(c));
    HasNodesMeans(c, base + Puts(plan));
    NicsAreRooted(c, base + Puts(plan));
    ThenRooted(base, plan, All(NicPlans(c)));
    GroundedMore(c, base + Puts(plan), Puts(All(NicPlans(c))));
  }

  lemma WorkloadIsRooted(c: ClusterIn, base: seq<Spec>)
    requires Grounded(c, base)
    ensures Rooted(base, Puts(WorkloadPlan(c)))
  {
    hide Rooted, Puts, All, HasNodes, Grounded;
    HasNodesMeans(c, base);
    var plan := All(VmPlans(c));
    VmsAreRooted(c, base);
    GroundedMore(c, base, Puts(plan));
    StorageIsRooted(c, base + Puts(plan));
    ThenRooted(base, plan, All(StandalonePlans(c)));
    GroundedMore(c, base + Puts(plan), Puts(All(StandalonePlans(c))));
    plan := plan + All(StandalonePlans(c));
    StorageIsRooted(c, base + Puts(plan));
    ThenRooted(base, plan, All(ContainerPlans(c)));
    GroundedMore(c, base + Puts(plan), Puts(All(ContainerPlans(c))));
    plan := plan + All(ContainerPlans(c));
    HasNodesMeans(c, base + Puts(plan));
    AlertsAreRooted(c, base + Puts(plan));
    ThenRooted(base, plan, All(AlertPlans(c)));
  }

  /** Every node a cluster asks for comes behind its parent, which is at a smaller level. */
  lemma ClusterIsRooted(c: ClusterIn, parent: Option<Id>, pk: Kind, base: seq<Spec>)
    requires parent.Some? ==> Offers(base, parent.value, pk) && LevelOf(pk) < LevelOf(Cluster)
    ensures Rooted(base, ClusterSpecs(c, parent))
  {
    hide Rooted, Puts, Grounded;
    var self := Spec(ClusterGid(c), Cluster, parent);
    UnitPuts(c, parent);
    if parent.Some? {
      OfferIsAbove(base, parent.value, pk, self);
    } else {
      OneIsRooted(base, self);
    }
    assert self in base + [self];
    var plan := UnitPlan(c, parent);
    InfrastructureIsRooted(c, base + Puts(plan));
    ThenRooted(base, plan, InfrastructurePlan(c));
    plan := plan + InfrastructurePlan(c);
    WorkloadIsRooted(c, base + Puts(plan));
    ThenRooted(base, plan, WorkloadPlan(c));
  }

  // ----- When a cluster's graph has the level order ------------------------------------------

  /** With one kind per id it always has. */
  lemma OneKindIsEnough(c: ClusterIn)
    requires OneKindPerId(ClusterSpecs(c, None))
    ensures Ordered(ClusterSpecs(c, None))
  {
    hide Rooted, Ordered, OneKindPerId;
    ClusterIsRooted(c, None, Fleet, []);
    OneKindIsOrdered(ClusterSpecs(c, None));
  }

  /** The graph drawn for a cluster has the level order if and only if what it asks for is ordered. */
  lemma ClusterIsTreeIff(c: ClusterIn)
    ensures IsTree(Run(BLANK, ClusterPlan(c, None)).nodes) <==> Ordered(ClusterSpecs(c, None))
  {
    DrawingIsTreeIff(ClusterPlan(c, None));
  }

  // ----- A cluster without it ------------------------------------------------------------------

  const IMAGE: ImageIn := ImageIn("x", "", true)
  const FIRST_VM: VmIn := VmIn("a", Ok, [], [], [], [VolumeIn("v", Ok, [IMAGE])])
  const SECOND_VM: VmIn := VmIn("x", Ok, [], [InstanceIn("y", "", true, true)], [], [])
  /** The second VM has the id of the first one's disk image. */
  const CLASH: ClusterIn := ClusterIn("c", "u", false, [], [], [], [FIRST_VM, SECOND_VM], [], [], [])

  lemma OnePart(part: seq<Step>)
    ensures Puts(All([part])) == Puts(part) && Puts(All([])) == []
  {
    assert Concat([part], 1) == Concat([part], 0) + part == part;
  }

  lemma TwoParts(a: seq<Step>, b: seq<Step>)
    ensures Puts(All([a, b])) == Puts(a) + Puts(b)
  {
    assert Concat([a, b], 1) == Concat([a, b], 0) + a == a;
    assert Concat([a, b], 2) == Concat([a, b], 1) + b == a + b;
    PutsOn(a, b);
  }

  lemma ClashSpecs()
    ensures ClusterSpecs(CLASH, None) ==
              [Spec("c/u", Cluster, None), Spec("c/a", Vm, Some("c/u")), Spec("c/v", Volume, Some("c/a")),
               Spec("c/x", DiskImage, Some("c/v")), Spec("c/x", Vm, Some("c/u")), Spec("c/y", LocalVm, Some("c/x"))]
  {
    hide Puts, All;
    var c := CLASH;
    assert Gid("c", "u") == "c/u" && Gid("c", "a") == "c/a" && Gid("c", "v") == "c/v";
    assert Gid("c", "x") == "c/x" && Gid("c", "y") == "c/y";
    UnitPuts(c, None);
    OnePart([]);
    NothingPut([]);
    assert InfrastructurePlan(c) == All([]) + [] + All([]) + All([]) + All([]);
    NothingTwice(All([]));
    ClashVms();
    assert VmPlans(c) == [VmPlan(c, FIRST_VM), VmPlan(c, SECOND_VM)];
    TwoParts(VmPlan(c, FIRST_VM), VmPlan(c, SECOND_VM));
    PutsOn(All(VmPlans(c)), All([]));
    PutsOn(All(VmPlans(c)) + All([]), All([]));
    PutsOn(All(VmPlans(c)) + All([]) + All([]), All([]));
    PutsOn(UnitPlan(c, None), InfrastructurePlan(c));
    PutsOn(UnitPlan(c, None) + InfrastructurePlan(c), WorkloadPlan(c));
  }

  lemma NothingTwice(plan: seq<Step>)
    requires Puts(plan) == []
    ensures Puts(plan + [] + plan + plan + plan) == []
  {
    PutsOn(plan + [] + plan + plan, plan);
    PutsOn(plan + [] + plan, plan);
    PutsOn(plan + [], plan);
    assert plan + [] == plan;
  }

  lemma ClashVms()
    ensures Puts(VmPlan(CLASH, FIRST_VM)) ==
              [Spec("c/a", Vm, Some("c/u")), Spec("c/v", Volume, Some("c/a")), Spec("c/x", DiskImage, Some("c/v"))]
    ensures Puts(VmPlan(CLASH, SECOND_VM)) == [Spec("c/x", Vm, Some("c/u")), Spec("c/y", LocalVm, Some("c/x"))]
  {
    hide Puts, All;
    var c := CLASH;
    assert Gid("c", "u") == "c/u" && Gid("c", "a") == "c/a" && Gid("c", "v") == "c/v";
    assert Gid("c", "x") == "c/x" && Gid("c", "y") == "c/y";
    var vol := VolumeIn("v", Ok, [IMAGE]);
    VmPuts(c, FIRST_VM);
    VmPuts(c, SECOND_VM);
    assert VmParent(c, FIRST_VM) == "c/u" == VmParent(c, SECOND_VM);
    InstancePuts(c, SECOND_VM, SECOND_VM.instances[0]);
    assert InstancePlans(c, SECOND_VM) == [InstancePlan(c, SECOND_VM, SECOND_VM.instances[0])];
    OnePart(InstancePlan(c, SECOND_VM, SECOND_VM.instances[0]));
    assert VolumePlans(c, SECOND_VM) == [] == InstancePlans(c, FIRST_VM);
    assert VolumePlans(c, FIRST_VM) == [VolumePlan(c, FIRST_VM, vol)];
    OnePart(VolumePlan(c, FIRST_VM, vol));
    ImagePuts(c, vol, IMAGE);
    assert ImagePlans(c, vol) == [ImagePlan(c, vol, IMAGE)];
    OnePart(ImagePlan(c, vol, IMAGE));
    PutsUnder("c/v", Volume, Ok, "c/a", Attaches, Ok);
    PutsOn(UnderPlan("c/v", Volume, Ok, "c/a", Attaches, Ok), All(ImagePlans(c, vol)));
  }

  lemma DeeperFirst(specs: seq<Spec>, p: nat, j: nat)
    requires p < j < |specs| && specs[j].parent == Some(specs[p].id) && LevelOf(specs[p].kind) >= LevelOf(specs[j].kind)
    requires (forall i :: 0 <= i < p ==> specs[i].id != specs[p].id) && forall i :: 0 <= i < j ==> specs[i].id != specs[j].id
    ensures !Ordered(specs)
  {
    assert forall q :: p < q < |specs| && specs[q].id == specs[p].id ==> Before(specs, specs[q].id, q);
    assert !Before(specs, specs[j].id, j) && !Descends(specs, j);
  }

  /** Its instance ends up under a disk image, which is deeper: the builder's graph has no level order. */
  lemma SharedIdBreaksOrder()
    ensures !IsTree(Run(BLANK, ClusterPlan(CLASH, None)).nodes)
  {
    hide Run, ClusterPlan, ClusterSpecs, Ordered, IsTree;
    ClusterIsTreeIff(CLASH);
    ClashSpecs();
    assert "c/y"[2] != "c/u"[2] && "c/y"[2] != "c/a"[2] && "c/y"[2] != "c/v"[2] && "c/y"[2] != "c/x"[2];
    assert "c/x"[2] != "c/u"[2] && "c/x"[2] != "c/a"[2] && "c/x"[2] != "c/v"[2];
    DeeperFirst(ClusterSpecs(CLASH, None), 3, 5);
  }
}
