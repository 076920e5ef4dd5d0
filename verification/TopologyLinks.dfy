/**
  Every edge planned for a cluster has both its ends asked for before it, but for those of image containers,
  which name the volume they back by matching texts. So the edges drawn are the planned ones.
 */
module TopologyLinks {
  import opened Base
  import opened TopologyStatus
  import opened TopologyRollup
  import opened TopologyGraph
  import opened TopologyDrawing
  import opened TopologyEdges
  import opened TopologyPlans
  import opened TopologyOrder

  /** The ends of what a step joins are there. */
  predicate Fits(specs: seq<Spec>, s: Step) {
    match s
    case Join(e) => e.kind.Backs? || (HasId(specs, e.source) && HasId(specs, e.target))
    case Pair(a, b) => HasId(specs, a) && HasId(specs, b)
    case Ensure(_, cluster) => HasId(specs, cluster)
    case _ => true
  }

  ghost predicate Linked(base: seq<Spec>, plan: seq<Step>) {
    forall j :: 0 <= j < |plan| ==> Fits(base + Puts(plan[..j]), plan[j])
  }

  // ----- Putting plans together --------------------------------------------------

  lemma FitsMore(specs: seq<Spec>, more: seq<Spec>, s: Step)
    requires Fits(specs, s) && forall x :: x in specs ==> x in more
    ensures Fits(more, s)
  {
    forall id | HasId(specs, id) ensures HasId(more, id) {
      var i :| 0 <= i < |specs| && specs[i].id == id;
      InHasId(more, specs[i]);
    }
  }

  lemma InHasId(specs: seq<Spec>, x: Spec)
    requires x in specs
    ensures HasId(specs, x.id)
  {
  }

  lemma LinkedMore(base: seq<Spec>, more: seq<Spec>, plan: seq<Step>)
    requires Linked(base, plan) && forall x :: x in base ==> x in more
    ensures Linked(more, plan)
  {
    hide Fits, Puts;
    forall j | 0 <= j < |plan| ensures Fits(more + Puts(plan[..j]), plan[j]) {
      FitsMore(base + Puts(plan[..j]), more + Puts(plan[..j]), plan[j]);
    }
  }

  lemma ThenLinked(base: seq<Spec>, a: seq<Step>, b: seq<Step>)
    requires Linked(base, a) && Linked(base + Puts(a), b)
    ensures Linked(base, a + b) && base + Puts(a + b) == base + Puts(a) + Puts(b)
  {
    hide Fits, Puts;
    PutsOn(a, b);
    forall j | 0 <= j < |a + b| ensures Fits(base + Puts((a + b)[..j]), (a + b)[j]) {
      if j < |a| {
        assert (a + b)[..j] == a[..j];
      } else {
        assert (a + b)[..j] == a + b[..j - |a|];
        PutsOn(a, b[..j - |a|]);
        assert base + (Puts(a) + Puts(b[..j - |a|])) == (base + Puts(a)) + Puts(b[..j - |a|]);
      }
    }
  }

  /** A plan linked in the base alone, behind another one. */
  lemma AlsoLinked(base: seq<Spec>, a: seq<Step>, b: seq<Step>)
    requires Linked(base, a) && Linked(base, b)
    ensures Linked(base, a + b)
  {
    LinkedMore(base, base + Puts(a), b);
    ThenLinked(base, a, b);
  }

  lemma {:induction false} PartsAreLinked(base: seq<Spec>, parts: seq<seq<Step>>, n: nat)
    requires n <= |parts| && forall j :: 0 <= j < n ==> Linked(base, parts[j])
    ensures Linked(base, Concat(parts, n))
  {
    hide Linked;
    if n == 0 {
      NothingIsLinked(base);
    } else {
      PartsAreLinked(base, parts, n - 1);
      AlsoLinked(base, Concat(parts, n - 1), parts[n - 1]);
    }
  }

  lemma NothingIsLinked(base: seq<Spec>)
    ensures Linked(base, [])
  {
  }

  lemma OneIsLinked(base: seq<Spec>, s: Step)
    requires Fits(base, s)
    ensures Linked(base, [s])
  {
    assert [s][..0] == [] && base + Puts([]) == base;
  }

  lemma JoinIsLinked(base: seq<Spec>, e: Edge)
    requires e.kind.Backs? || (HasId(base, e.source) && HasId(base, e.target))
    ensures Linked(base, [Join(e)])
  {
    OneIsLinked(base, Join(e));
  }

  lemma HasIdMore(base: seq<Spec>, more: seq<Spec>, id: Id)
    requires HasId(base, id) || HasId(more, id)
    ensures HasId(base + more, id)
  {
    HasIdIn(base, more, id);
  }

  lemma UnderIsLinked(base: seq<Spec>, id: Id, kind: Kind, status: Status, parent: Id, edge: EdgeKind, shown: Status)
    requires HasId(base, parent)
    ensures Linked(base, UnderPlan(id, kind, status, parent, edge, shown))
    ensures HasId(base + Puts(UnderPlan(id, kind, status, parent, edge, shown)), id)
  {
    hide Puts, Linked, HasId;
    var put, join := Put(id, kind, status, Some(parent)), Join(Edge(parent, id, edge, shown));
    var x := Spec(id, kind, Some(parent));
    PutsOne(put);
    OneIsLinked(base, put);
    InHasId([x], x);
    HasIdMore(base, [x], id);
    HasIdMore(base, [x], parent);
    JoinIsLinked(base + Puts([put]), join.edge);
    ThenLinked(base, [put], [join]);
    assert [put] + [join] == UnderPlan(id, kind, status, parent, edge, shown);
    PutsUnder(id, kind, status, parent, edge, shown);
  }

  // ----- What is known ---------------------------------------------------------------

  ghost predicate KnowsHosts(c: ClusterIn, base: seq<Spec>) {
    && HasId(base, ClusterGid(c))
    && forall n :: n in NodeNames(c, |c.nodes|) ==> HasId(base, NodeNames(c, |c.nodes|)[n])
  }

  ghost predicate KnowsNets(c: ClusterIn, base: seq<Spec>) {
    forall n :: n in NetNames(c, |c.networks|) ==> HasId(base, NetNames(c, |c.networks|)[n])
  }

  ghost predicate KnowsGroups(c: ClusterIn, base: seq<Spec>) {
    forall n :: n in GroupIds(c, |c.groups|) ==> HasId(base, GroupIds(c, |c.groups|)[n])
  }

  ghost predicate KnowsVolumes(c: ClusterIn, base: seq<Spec>) {
    forall raw :: raw in VmVolumes(c, |c.vms|) ==> HasId(base, Gid(c.cid, raw))
  }

  lemma KnowsMore(c: ClusterIn, base: seq<Spec>, more: seq<Spec>)
    ensures HasId(base, ClusterGid(c)) ==> HasId(base + more, ClusterGid(c))
    ensures KnowsHosts(c, base) ==> KnowsHosts(c, base + more)
    ensures KnowsNets(c, base) ==> KnowsNets(c, base + more)
    ensures KnowsGroups(c, base) ==> KnowsGroups(c, base + more)
    ensures KnowsVolumes(c, base) ==> KnowsVolumes(c, base + more)
  {
    hide HasId;
    forall id | HasId(base, id) ensures HasId(base + more, id) {
      HasIdMore(base, more, id);
    }
  }

  lemma KnowsCluster(c: ClusterIn, base: seq<Spec>)
    requires KnowsHosts(c, base)
    ensures HasId(base, ClusterGid(c))
    ensures forall name :: Host(c, name).Some? ==> HasId(base, Host(c, name).value)
    ensures forall name :: HasId(base, HostOrCluster(c, name))
  {
  }

  lemma OffersHasId(base: seq<Spec>, id: Id, kind: Kind)
    requires Offers(base, id, kind)
    ensures HasId(base, id)
  {
    var x :| x in base && x.id == id && x.kind == kind;
    InHasId(base, x);
  }

  // ----- Infrastructure ------------------------------------------------------------------

  lemma UnitIsLinked(c: ClusterIn, parent: Option<Id>, base: seq<Spec>)
    requires parent.Some? ==> HasId(base, parent.value)
    ensures Linked(base, UnitPlan(c, parent)) && HasId(base + Puts(UnitPlan(c, parent)), ClusterGid(c))
  {
    hide Puts, Linked, HasId;
    var put := [Put(ClusterGid(c), Cluster, Ok, parent)];
    var join := if parent.Some? then [Join(Edge(parent.value, ClusterGid(c), Contains, Ok))] else [];
    var raise := if c.syncing then [Raise(ClusterGid(c), Warning)] else [];
    var self := Spec(ClusterGid(c), Cluster, parent);
    PutsOne(put[0]);
    UnitPuts(c, parent);
    InHasId([self], self);
    HasIdMore(base, [self], ClusterGid(c));
    OneIsLinked(base, put[0]);
    NothingIsLinked(base + Puts(put));
    if parent.Some? {
      HasIdMore(base, [self], parent.value);
      JoinIsLinked(base + Puts(put), join[0].edge);
    }
    ThenLinked(base, put, join);
    NothingIsLinked(base + Puts(put + join));
    OneIsLinked(base + Puts(put + join), Raise(ClusterGid(c), Warning));
    ThenLinked(base, put + join, raise);
  }

  lemma NodesAreLinked(c: ClusterIn, base: seq<Spec>)
    requires HasId(base, ClusterGid(c))
    ensures Linked(base, All(NodePlans(c))) && KnowsHosts(c, base + Puts(All(NodePlans(c))))
  {
    hide Puts, Linked, HasId;
    forall j | 0 <= j < |c.nodes| ensures Linked(base, NodePlans(c)[j]) {
      UnderIsLinked(base, Gid(c.cid, c.nodes[j].id), Node, c.nodes[j].status, ClusterGid(c), Contains, Ok);
    }
    PartsAreLinked(base, NodePlans(c), |c.nodes|);
    HasIdMore(base, Puts(All(NodePlans(c))), ClusterGid(c));
    forall n | n in NodeNames(c, |c.nodes|) ensures HasId(base + Puts(All(NodePlans(c))), NodeNames(c, |c.nodes|)[n]) {
      NamedIsPut(c, base, n, |c.nodes|);
      OffersHasId(base + Puts(All(NodePlans(c))), NodeNames(c, |c.nodes|)[n], Node);
    }
  }

  lemma PairIsLinked(c: ClusterIn, base: seq<Spec>)
    requires KnowsHosts(c, base)
    ensures Linked(base, PairPlan(c)) && Puts(PairPlan(c)) == []
  {
    KnowsCluster(c, base);
    NothingPut(PairPlan(c));
    NothingIsLinked(base);
    if PairPlan(c) != [] { OneIsLinked(base, PairPlan(c)[0]); }
  }

  lemma NetworksAreLinked(c: ClusterIn, base: seq<Spec>)
    requires HasId(base, ClusterGid(c))
    ensures Linked(base, All(NetworkPlans(c))) && KnowsNets(c, base + Puts(All(NetworkPlans(c))))
  {
    hide Puts, Linked, HasId;
    forall j | 0 <= j < |c.networks| ensures Linked(base, NetworkPlans(c)[j]) {
      UnderIsLinked(base, Gid(c.cid, c.networks[j].id), SharedNetwork, c.networks[j].status, ClusterGid(c), Contains, Ok);
    }
    PartsAreLinked(base, NetworkPlans(c), |c.networks|);
    forall n | n in NetNames(c, |c.networks|) ensures HasId(base + Puts(All(NetworkPlans(c))), NetNames(c, |c.networks|)[n]) {
      NetIsPut(c, n, |c.networks|);
      HasIdMore(base, Puts(All(NetworkPlans(c))), NetNames(c, |c.networks|)[n]);
    }
  }

  lemma {:induction false} NetIsPut(c: ClusterIn, name: string, n: nat)
    requires n <= |c.networks| && name in NetNames(c, n)
    ensures HasId(Puts(All(NetworkPlans(c))), NetNames(c, n)[name])
  {
    hide Puts, HasId;
    var net := c.networks[n - 1];
    if name == net.name {
      var x := Spec(Gid(c.cid, net.id), SharedNetwork, Some(ClusterGid(c)));
      PutsUnder(Gid(c.cid, net.id), SharedNetwork, net.status, ClusterGid(c), Contains, Ok);
      PartIsIn(NetworkPlans(c), n - 1, |c.networks|, x);
      InHasId(Puts(All(NetworkPlans(c))), x);
    } else {
      NetIsPut(c, name, n - 1);
    }
  }

  lemma DiskIsLinked(c: ClusterIn, base: seq<Spec>, disk: DiskIn, group: Id)
    requires KnowsHosts(c, base) && HasId(base, group)
    ensures Linked(base, DiskPlan(c, disk, group))
  {
    hide Puts, Linked, HasId, KnowsHosts;
    KnowsCluster(c, base);
    var id, status := Gid(c.cid, disk.id), if disk.normal then Ok else Degraded;
    var put := match Host(c, disk.node)
      case Some(host) => UnderPlan(id, Disk, status, host, Contains, Ok)
      case None => [Put(id, Disk, status, Some(ClusterGid(c)))];
    match Host(c, disk.node) {
      case Some(host) =>
        UnderIsLinked(base, id, Disk, status, host, Contains, Ok);
      case None =>
        var x := Spec(id, Disk, Some(ClusterGid(c)));
        OneIsLinked(base, put[0]);
        PutsOne(put[0]);
        InHasId([x], x);
        HasIdMore(base, [x], id);
    }
    HasIdMore(base, Puts(put), group);
    JoinIsLinked(base + Puts(put), Edge(id, group, MemberOf, status));
    ThenLinked(base, put, [Join(Edge(id, group, MemberOf, status))]);
  }

  lemma GroupsAreLinked(c: ClusterIn, base: seq<Spec>)
    requires KnowsHosts(c, base)
    ensures Linked(base, All(GroupPlans(c))) && KnowsGroups(c, base + Puts(All(GroupPlans(c))))
  {
    hide Puts, Linked, HasId, KnowsHosts, GroupPlan;
    forall j | 0 <= j < |c.groups| ensures Linked(base, GroupPlans(c)[j]) {
      GroupIsLinked(c, base, c.groups[j]);
    }
    PartsAreLinked(base, GroupPlans(c), |c.groups|);
    forall n | n in GroupIds(c, |c.groups|) ensures HasId(base + Puts(All(GroupPlans(c))), GroupIds(c, |c.groups|)[n]) {
      GroupIsPut(c, base, n, |c.groups|);
      OffersHasId(base + Puts(All(GroupPlans(c))), GroupIds(c, |c.groups|)[n], StorageGroup);
    }
  }

  lemma GroupIsLinked(c: ClusterIn, base: seq<Spec>, group: GroupIn)
    requires KnowsHosts(c, base)
    ensures Linked(base, GroupPlan(c, group))
  {
    hide Puts, Linked, HasId, KnowsHosts;
    KnowsCluster(c, base);
    var id := Gid(c.cid, group.id);
    var under := UnderPlan(id, StorageGroup, group.status, ClusterGid(c), Contains, Ok);
    UnderIsLinked(base, id, StorageGroup, group.status, ClusterGid(c), Contains, Ok);
    KnowsMore(c, base, Puts(under));
    forall k | 0 <= k < |group.disks| ensures Linked(base + Puts(under), DiskPlans(c, group.disks, id)[k]) {
      DiskIsLinked(c, base + Puts(under), group.disks[k], id);
    }
    PartsAreLinked(base + Puts(under), DiskPlans(c, group.disks, id), |group.disks|);
    ThenLinked(base, under, All(DiskPlans(c, group.disks, id)));
  }

  lemma NicsAreLinked(c: ClusterIn, base: seq<Spec>)
    requires KnowsHosts(c, base) && KnowsNets(c, base)
    ensures Linked(base, All(NicPlans(c)))
  {
    hide Puts, Linked, HasId, KnowsHosts, KnowsNets, PortPlan;
    forall j | 0 <= j < |c.nodes| ensures Linked(base, NicPlans(c)[j]) {
      forall k | 0 <= k < |c.nodes[j].links| ensures Linked(base, PortPlans(c, c.nodes[j])[k]) {
        PortIsLinked(c, base, c.nodes[j], c.nodes[j].links[k]);
      }
      PartsAreLinked(base, PortPlans(c, c.nodes[j]), |c.nodes[j].links|);
    }
    PartsAreLinked(base, NicPlans(c), |c.nodes|);
  }

  lemma PortIsLinked(c: ClusterIn, base: seq<Spec>, node: NodeIn, link: LinkIn)
    requires KnowsHosts(c, base) && KnowsNets(c, base)
    ensures Linked(base, PortPlan(c, node, link))
  {
    KnowsCluster(c, base);
    var id, net := NicGid(c, node.name, link.name), Attachment(c, link);
    var status := PortStatus(link, net.Some?);
    assert net.Some? ==> HasId(base, net.value);
    hide Puts, Linked, HasId, KnowsHosts, KnowsNets;
    var under := UnderPlan(id, Nic, status, HostOrCluster(c, node.name), Contains, Ok);
    var join := if net.Some? then [Join(Edge(id, net.value, Uplink, status))] else [];
    UnderIsLinked(base, id, Nic, status, HostOrCluster(c, node.name), Contains, Ok);
    NothingIsLinked(base + Puts(under));
    if net.Some? {
      HasIdMore(base, Puts(under), net.value);
      JoinIsLinked(base + Puts(under), Edge(id, net.value, Uplink, status));
    }
    ThenLinked(base, under, join);
  }

  // ----- Workloads -------------------------------------------------------------------------

  lemma ResideIsLinked(c: ClusterIn, base: seq<Spec>, id: Id, node: string, status: Status)
    requires KnowsHosts(c, base) && HasId(base, id)
    ensures Linked(base, ResidePlan(c, id, node, status))
  {
    KnowsCluster(c, base);
    NothingIsLinked(base);
    if Host(c, node).Some? { JoinIsLinked(base, Edge(id, Host(c, node).value, ResidesOn, status)); }
  }

  lemma PlacementsAreLinked(c: ClusterIn, base: seq<Spec>, vm: VmIn)
    requires KnowsHosts(c, base) && HasId(base, Gid(c.cid, vm.id))
    ensures Linked(base, All(PlacementPlans(c, vm)))
  {
    KnowsCluster(c, base);
    hide Linked, HasId, KnowsHosts;
    forall k | 0 <= k < |vm.instances| ensures Linked(base, PlacementPlans(c, vm)[k]) {
      var inst := vm.instances[k];
      NothingIsLinked(base);
      if Host(c, inst.node).Some? {
        JoinIsLinked(base, Edge(Host(c, inst.node).value, Gid(c.cid, vm.id), Placement, if inst.enabled then Ok else Degraded));
      }
    }
    PartsAreLinked(base, PlacementPlans(c, vm), |vm.instances|);
  }

  lemma InstancesAreLinked(c: ClusterIn, base: seq<Spec>, vm: VmIn)
    requires KnowsHosts(c, base) && HasId(base, Gid(c.cid, vm.id))
    ensures Linked(base, All(InstancePlans(c, vm)))
  {
    hide Puts, Linked, HasId, KnowsHosts;
    forall k | 0 <= k < |vm.instances| ensures Linked(base, InstancePlans(c, vm)[k]) {
      var inst := vm.instances[k];
      var id, status := Gid(c.cid, inst.id), if inst.enabled && inst.normal then Ok else Degraded;
      var under := UnderPlan(id, LocalVm, status, Gid(c.cid, vm.id), InstanceOf, status);
      UnderIsLinked(base, id, LocalVm, status, Gid(c.cid, vm.id), InstanceOf, status);
      KnowsMore(c, base, Puts(under));
      ResideIsLinked(c, base + Puts(under), id, inst.node, status);
      ThenLinked(base, under, ResidePlan(c, id, inst.node, status));
    }
    PartsAreLinked(base, InstancePlans(c, vm), |vm.instances|);
  }

  lemma InterfacesAreLinked(c: ClusterIn, base: seq<Spec>, vm: VmIn)
    requires KnowsNets(c, base) && HasId(base, Gid(c.cid, vm.id))
    ensures Linked(base, All(InterfacePlans(c, vm)))
  {
    hide Puts, Linked, InterfacePlan;
    forall k | 0 <= k < |vm.interfaces| ensures Linked(base, InterfacePlans(c, vm)[k]) {
      InterfaceIsLinked(c, base, vm, vm.interfaces[k]);
    }
    PartsAreLinked(base, InterfacePlans(c, vm), |vm.interfaces|);
  }

  lemma InterfaceIsLinked(c: ClusterIn, base: seq<Spec>, vm: VmIn, port: InterfaceIn)
    requires KnowsNets(c, base) && HasId(base, Gid(c.cid, vm.id))
    ensures Linked(base, InterfacePlan(c, vm, port))
  {
    NothingIsLinked(base);
    var net, vmid := Network(c, port.network), Gid(c.cid, vm.id);
    if net.Some? {
      var status := if port.net0 && port.net1 then Ok else if port.net0 || port.net1 then Degraded else Critical;
      JoinIsLinked(base, Edge(vmid, net.value, Vnic, status));
      OneIsLinked(base, Raise(vmid, status));
      AlsoLinked(base, [Join(Edge(vmid, net.value, Vnic, status))], if status != Ok then [Raise(vmid, status)] else []);
    }
  }

  lemma VolumesAreLinked(c: ClusterIn, base: seq<Spec>, vm: VmIn)
    requires KnowsHosts(c, base) && HasId(base, Gid(c.cid, vm.id))
    ensures Linked(base, All(VolumePlans(c, vm)))
  {
    hide Puts, Linked, HasId, KnowsHosts, VolumePlan;
    forall k | 0 <= k < |vm.volumes| ensures Linked(base, VolumePlans(c, vm)[k]) {
      VolumeIsLinked(c, base, vm, vm.volumes[k]);
    }
    PartsAreLinked(base, VolumePlans(c, vm), |vm.volumes|);
  }

  lemma VolumeIsLinked(c: ClusterIn, base: seq<Spec>, vm: VmIn, vol: VolumeIn)
    requires KnowsHosts(c, base) && HasId(base, Gid(c.cid, vm.id))
    ensures Linked(base, VolumePlan(c, vm, vol))
  {
    hide Puts, Linked, HasId, KnowsHosts, ImagePlan;
    NothingIsLinked(base);
    if vol.id != "" {
      var id, vmid := Gid(c.cid, vol.id), Gid(c.cid, vm.id);
      var under := UnderPlan(id, Volume, vol.status, vmid, Attaches, vol.status);
      UnderIsLinked(base, id, Volume, vol.status, vmid, Attaches, vol.status);
      KnowsMore(c, base, Puts(under));
      forall k | 0 <= k < |vol.images| ensures Linked(base + Puts(under), ImagePlans(c, vol)[k]) {
        ImageIsLinked(c, base + Puts(under), vol, vol.images[k]);
      }
      PartsAreLinked(base + Puts(under), ImagePlans(c, vol), |vol.images|);
      ThenLinked(base, under, All(ImagePlans(c, vol)));
    }
  }

  lemma ImageIsLinked(c: ClusterIn, base: seq<Spec>, vol: VolumeIn, image: ImageIn)
    requires KnowsHosts(c, base) && HasId(base, Gid(c.cid, vol.id))
    ensures Linked(base, ImagePlan(c, vol, image))
  {
    hide Puts, Linked, HasId, KnowsHosts;
    var id, status := Gid(c.cid, image.id), if image.enabled then Ok else Degraded;
    var shown := if image.enabled && c.syncing then Warning else status;
    var under := UnderPlan(id, DiskImage, status, Gid(c.cid, vol.id), Mirror, shown);
    UnderIsLinked(base, id, DiskImage, status, Gid(c.cid, vol.id), Mirror, shown);
    KnowsMore(c, base, Puts(under));
    ResideIsLinked(c, base + Puts(under), id, image.node, status);
    ThenLinked(base, under, ResidePlan(c, id, image.node, status));
  }

  lemma VmIsLinked(c: ClusterIn, base: seq<Spec>, vm: VmIn)
    requires KnowsHosts(c, base) && KnowsNets(c, base)
    ensures Linked(base, VmPlan(c, vm))
  {
    hide Puts, Linked, HasId, KnowsHosts, KnowsNets, All;
    var put := Put(Gid(c.cid, vm.id), Vm, vm.status, Some(VmParent(c, vm)));
    var x := Spec(Gid(c.cid, vm.id), Vm, Some(VmParent(c, vm)));
    PutsOne(put);
    OneIsLinked(base, put);
    InHasId([x], x);
    HasIdMore(base, [x], x.id);
    var now := base + Puts([put]);
    KnowsMore(c, base, Puts([put]));
    PlacementsAreLinked(c, now, vm);
    InstancesAreLinked(c, now, vm);
    InterfacesAreLinked(c, now, vm);
    VolumesAreLinked(c, now, vm);
    var a, b := All(PlacementPlans(c, vm)), All(InstancePlans(c, vm));
    var i, v := All(InterfacePlans(c, vm)), All(VolumePlans(c, vm));
    AlsoLinked(now, a, b);
    AlsoLinked(now, a + b, i);
    AlsoLinked(now, a + b + i, v);
    ThenLinked(base, [put], a + b + i + v);
    assert [put] + (a + b + i + v) == [put] + a + b + i + v;
  }

  lemma VmsAreLinked(c: ClusterIn, base: seq<Spec>)
    requires KnowsHosts(c, base) && KnowsNets(c, base)
    ensures Linked(base, All(VmPlans(c))) && KnowsVolumes(c, base + Puts(All(VmPlans(c))))
  {
    hide Puts, Linked, HasId, KnowsHosts, KnowsNets, VmPlan;
    forall j | 0 <= j < |c.vms| ensures Linked(base, VmPlans(c)[j]) {
      VmIsLinked(c, base, c.vms[j]);
    }
    PartsAreLinked(base, VmPlans(c), |c.vms|);
    forall raw | raw in VmVolumes(c, |c.vms|) ensures HasId(base + Puts(All(VmPlans(c))), Gid(c.cid, raw)) {
      VmVolumeIsPut(c, raw, |c.vms|);
      HasIdMore(base, Puts(All(VmPlans(c))), Gid(c.cid, raw));
    }
  }

  lemma {:induction false} VmVolumeIsPut(c: ClusterIn, raw: string, n: nat)
    requires n <= |c.vms| && raw in VmVolumes(c, n)
    ensures HasId(Puts(All(VmPlans(c))), Gid(c.cid, raw))
  {
    hide Puts, HasId, VmPlan, All;
    var vm := c.vms[n - 1];
    if raw in VolumeIds(vm.volumes, |vm.volumes|) {
      var x := VolumeIsPut(c, vm, raw, |vm.volumes|);
      VmPuts(c, vm);
      assert x in Puts(VmPlans(c)[n - 1]);
      PartIsIn(VmPlans(c), n - 1, |c.vms|, x);
      AllIs(VmPlans(c));
      InHasId(Puts(All(VmPlans(c))), x);
    } else {
      VmVolumeIsPut(c, raw, n - 1);
    }
  }

  lemma AllIs(parts: seq<seq<Step>>)
    ensures All(parts) == Concat(parts, |parts|)
  {
  }

  lemma {:induction false} VolumeIsPut(c: ClusterIn, vm: VmIn, raw: string, n: nat) returns (x: Spec)
    requires n <= |vm.volumes| && raw in VolumeIds(vm.volumes, n)
    ensures x in Puts(All(VolumePlans(c, vm))) && x.id == Gid(c.cid, raw)
  {
    hide Puts, VolumePlan;
    var vol := vm.volumes[n - 1];
    if vol.id != "" && raw == vol.id {
      x := VolumeSpec(c, vm, vol);
      PartIsIn(VolumePlans(c, vm), n - 1, |vm.volumes|, x);
    } else {
      x := VolumeIsPut(c, vm, raw, n - 1);
    }
  }

  lemma VolumeSpec(c: ClusterIn, vm: VmIn, vol: VolumeIn) returns (x: Spec)
    requires vol.id != ""
    ensures x in Puts(VolumePlan(c, vm, vol)) && x.id == Gid(c.cid, vol.id)
  {
    hide Puts;
    var id, vmid := Gid(c.cid, vol.id), Gid(c.cid, vm.id);
    x := Spec(id, Volume, Some(vmid));
    PutsUnder(id, Volume, vol.status, vmid, Attaches, vol.status);
    PutsOn(UnderPlan(id, Volume, vol.status, vmid, Attaches, vol.status), All(ImagePlans(c, vol)));
  }

  lemma StandaloneIsLinked(c: ClusterIn, base: seq<Spec>, vol: StandaloneIn)
    requires KnowsGroups(c, base) && KnowsVolumes(c, base)
    ensures Linked(base, StandalonePlan(c, vol))
  {
    var id, group := Gid(c.cid, vol.id), Group(c, vol.group);
    var known := vol.id in VmVolumes(c, |c.vms|);
    assert known ==> HasId(base, id);
    assert group.Some? ==> HasId(base, group.value);
    hide Puts, Linked, HasId, KnowsGroups, KnowsVolumes;
    var put := if known then [] else [Put(id, Volume, Ok, Some(GroupOrCluster(c, vol.group)))];
    var join := if group.Some? then [Join(Edge(id, group.value, StoredOn, Ok))] else [];
    NothingIsLinked(base);
    NothingPut([]);
    if !known {
      var x := Spec(id, Volume, Some(GroupOrCluster(c, vol.group)));
      OneIsLinked(base, put[0]);
      PutsOne(put[0]);
      InHasId([x], x);
    }
    HasIdMore(base, Puts(put), id);
    NothingIsLinked(base + Puts(put));
    if group.Some? {
      HasIdMore(base, Puts(put), group.value);
      JoinIsLinked(base + Puts(put), Edge(id, group.value, StoredOn, Ok));
    }
    ThenLinked(base, put, join);
  }

  lemma ContainerIsLinked(c: ClusterIn, base: seq<Spec>, ic: ContainerIn)
    requires KnowsGroups(c, base)
    ensures Linked(base, ContainerPlan(c, ic))
  {
    var id, group := Gid(c.cid, ic.id), Group(c, ic.group);
    assert group.Some? ==> HasId(base, group.value);
    hide Puts, Linked, HasId, KnowsGroups;
    var put := [Put(id, ImageContainer, Ok, Some(GroupOrCluster(c, ic.group)))];
    var x := Spec(id, ImageContainer, Some(GroupOrCluster(c, ic.group)));
    OneIsLinked(base, put[0]);
    PutsOne(put[0]);
    InHasId([x], x);
    HasIdMore(base, [x], id);
    NothingIsLinked(base + Puts(put));
    if ic.backs.Some? {
      JoinIsLinked(base + Puts(put), Edge(id, ic.backs.value, Backs, Ok));
      ThenLinked(base, put, [Join(Edge(id, ic.backs.value, Backs, Ok))]);
    } else if group.Some? {
      HasIdMore(base, Puts(put), group.value);
      JoinIsLinked(base + Puts(put), Edge(id, group.value, StoredOn, Ok));
      ThenLinked(base, put, [Join(Edge(id, group.value, StoredOn, Ok))]);
    } else {
      ThenLinked(base, put, []);
    }
  }

  lemma AlertsAreLinked(c: ClusterIn, base: seq<Spec>)
    requires HasId(base, ClusterGid(c))
    ensures Linked(base, All(AlertPlans(c)))
  {
    hide Puts, Linked, HasId;
    NothingIsLinked(base);
    forall j | 0 <= j < |c.alerts| ensures Linked(base, AlertPlans(c)[j]) {
      var alert := c.alerts[j];
      var marks := MarkPlans(if alert.targets == [] then [ClusterGid(c)] else TargetIds(c, alert), alert.severity);
      forall k | 0 <= k < |alert.targets| ensures Linked(base, TargetPlans(c, alert)[k]) {
        if alert.targets[k].QuorumAt? { OneIsLinked(base, TargetPlans(c, alert)[k][0]); }
      }
      forall k | 0 <= k < |marks| ensures Linked(base, marks[k]) {
        OneIsLinked(base, marks[k][0]);
      }
      PartsAreLinked(base, TargetPlans(c, alert), |alert.targets|);
      PartsAreLinked(base, marks, |marks|);
      AlsoLinked(base, All(TargetPlans(c, alert)), All(marks));
    }
    PartsAreLinked(base, AlertPlans(c), |c.alerts|);
  }

  // ----- The whole cluster -------------------------------------------------------------------

  lemma InfrastructureIsLinked(c: ClusterIn, base: seq<Spec>)
    requires HasId(base, ClusterGid(c))
    ensures Linked(base, InfrastructurePlan(c))
    ensures var now := base + Puts(InfrastructurePlan(c)); KnowsHosts(c, now) && KnowsNets(c, now) && KnowsGroups(c, now)
  {
    hide Puts, Linked, HasId, All, KnowsHosts, KnowsNets, KnowsGroups, KnowsVolumes;
    var plan := All(NodePlans(c));
    NodesAreLinked(c, base);
    PairIsLinked(c, base + Puts(plan));
    ThenLinked(base, plan, PairPlan(c));
    KnowsMore(c, base + Puts(plan), Puts(PairPlan(c)));
    plan := plan + PairPlan(c);
    KnowsCluster(c, base + Puts(plan));
    NetworksAreLinked(c, base + Puts(plan));
    ThenLinked(base, plan, All(NetworkPlans(c)));
    KnowsMore(c, base + Puts(plan), Puts(All(NetworkPlans(c))));
    plan := plan + All(NetworkPlans(c));
    GroupsAreLinked(c, base + Puts(plan));
    ThenLinked(base, plan, All(GroupPlans(c)));
    KnowsMore(c, base + Puts(plan), Puts(All(GroupPlans(c))));
    plan := plan + All(GroupPlans(c));
    NicsAreLinked(c, base + Puts(plan));
    ThenLinked(base, plan, All(NicPlans(c)));
    KnowsMore(c, base + Puts(plan), Puts(All(NicPlans(c))));
  }

  lemma StorageIsLinked(c: ClusterIn, base: seq<Spec>)
    requires KnowsGroups(c, base) && KnowsVolumes(c, base)
    ensures Linked(base, All(StandalonePlans(c))) && Linked(base, All(ContainerPlans(c)))
  {
    hide Linked, KnowsGroups, KnowsVolumes, StandalonePlan, ContainerPlan;
    forall j | 0 <= j < |c.volumes| ensures Linked(base, StandalonePlans(c)[j]) {
      StandaloneIsLinked(c, base, c.volumes[j]);
    }
    forall j | 0 <= j < |c.containers| ensures Linked(base, ContainerPlans(c)[j]) {
      ContainerIsLinked(c, base, c.containers[j]);
    }
    PartsAreLinked(base, StandalonePlans(c), |c.volumes|);
    PartsAreLinked(base, ContainerPlans(c), |c.containers|);
  }

  lemma WorkloadIsLinked(c: ClusterIn, base: seq<Spec>)
    requires KnowsHosts(c, base) && KnowsNets(c, base) && KnowsGroups(c, base)
    ensures Linked(base, WorkloadPlan(c))
  {
    hide Puts, Linked, HasId, All, KnowsHosts, KnowsNets, KnowsGroups, KnowsVolumes;
    var vms := All(VmPlans(c));
    VmsAreLinked(c, base);
    KnowsMore(c, base, Puts(vms));
    var now := base + Puts(vms);
    StorageIsLinked(c, now);
    KnowsCluster(c, now);
    AlertsAreLinked(c, now);
    var s, k, a := All(StandalonePlans(c)), All(ContainerPlans(c)), All(AlertPlans(c));
    AlsoLinked(now, s, k);
    AlsoLinked(now, s + k, a);
    ThenLinked(base, vms, s + k + a);
    assert vms + (s + k + a) == vms + s + k + a;
  }

  lemma ClusterIsLinked(c: ClusterIn, parent: Option<Id>, base: seq<Spec>)
    requires parent.Some? ==> HasId(base, parent.value)
    ensures Linked(base, ClusterPlan(c, parent))
  {
    hide Puts, Linked, HasId, KnowsHosts, KnowsNets, KnowsGroups;
    var unit := UnitPlan(c, parent);
    UnitIsLinked(c, parent, base);
    InfrastructureIsLinked(c, base + Puts(unit));
    ThenLinked(base, unit, InfrastructurePlan(c));
    WorkloadIsLinked(c, base + Puts(unit + InfrastructurePlan(c)));
    ThenLinked(base, unit + InfrastructurePlan(c), WorkloadPlan(c));
  }

  /**
    Of a cluster's planned edges all are drawn, whatever the ids, each key once; an edge of a container to
    the volume it backs exactly if that had been asked for. No other edge is.
   */
  lemma ClusterEdgesAre(c: ClusterIn, key: TopologyEdges.Key)
    ensures var plan := ClusterPlan(c, None);
      HasKey(Run(BLANK, plan).edges, key) <==>
        exists j :: 0 <= j < |plan| && Tries(plan, j, key) && (key.2.Backs? ==> EndsThere(plan, j, key))
  {
    hide Run, ClusterPlan, Linked;
    var plan := ClusterPlan(c, None);
    KeysAre(plan, key);
    ClusterIsLinked(c, None, []);
    forall j | 0 <= j < |plan|
      ensures Succeeds(plan, j, key) <==> Tries(plan, j, key) && (key.2.Backs? ==> EndsThere(plan, j, key))
    {
      if Tries(plan, j, key) && !key.2.Backs? { LinkedHasEnds(plan, j, key); }
    }
  }

  /** The step and its ends. */
  lemma LinkedHasEnds(plan: seq<Step>, j: nat, key: TopologyEdges.Key)
    requires Linked([], plan) && j < |plan| && Tries(plan, j, key) && !key.2.Backs?
    ensures EndsThere(plan, j, key)
  {
    hide Puts, HasId;
    assert Fits([] + Puts(plan[..j]), plan[j]);
    assert [] + Puts(plan[..j]) == Puts(plan[..j]);
    OneStep(plan, j);
    HasIdIn(Puts(plan[..j]), PutsOf(plan[j]), key.0);
    HasIdIn(Puts(plan[..j]), PutsOf(plan[j]), key.1);
    if plan[j].Ensure? { InHasId(PutsOf(plan[j]), PutsOf(plan[j])[0]); }
  }
}
