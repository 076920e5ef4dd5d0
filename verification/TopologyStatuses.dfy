/** The statuses of a cluster's parts, read off its input. */
module TopologyStatuses {
  import opened Base
  import opened TopologyStatus
  import opened TopologyRollup
  import opened TopologyGraph
  import opened TopologyDrawing
  import opened TopologyEdges
  import opened TopologyPlans

  // ----- Steps of a plan ----------------------------------------------------------------

  lemma {:induction false} InPart(parts: seq<seq<Step>>, n: nat, j: nat, s: Step)
    requires j < n <= |parts| && s in parts[j]
    ensures s in Concat(parts, n)
  {
    if j < n - 1 { InPart(parts, n - 1, j, s); }
  }

  predicate About(s: Step, id: Id) {
    match s
    case Put(i, _, _, _) => i == id
    case Ensure(i, _) => i == id
    case Raise(i, _) => i == id
    case _ => false
  }

  /** Nothing else in the plan is about this node. */
  predicate Alone(plan: seq<Step>, s: Step) {
    s.Put? && s in plan && forall x :: x in plan && About(x, s.id) ==> x == s
  }

  lemma {:induction false} PlannedAlone(plan: seq<Step>, s: Step)
    requires s.Put? && forall x :: x in plan && About(x, s.id) ==> x == s
    ensures PlannedFor(plan, s.id) == if s in plan then [s.status] else []
  {
    if plan != [] {
      var init, last := plan[..|plan| - 1], plan[|plan| - 1];
      assert plan == init + [last];
      PlannedAlone(init, s);
      if last != s { assert !About(last, s.id); }
    }
  }

  /** A node that only one step is about has exactly the status planned for it. */
  lemma AloneHasItsStatus(plan: seq<Step>, s: Step)
    requires Alone(plan, s)
    ensures exists i :: 0 <= i < |Run(BLANK, plan).nodes| && Run(BLANK, plan).nodes[i].id == s.id
    ensures forall i :: 0 <= i < |Run(BLANK, plan).nodes| && Run(BLANK, plan).nodes[i].id == s.id ==>
              Run(BLANK, plan).nodes[i].status == s.status
  {
    hide Run;
    PlannedAlone(plan, s);
    StatusIsWorst(plan);
    assert Present(Run(BLANK, plan).nodes, s.id);
  }

  // ----- Names ----------------------------------------------------------------------------

  predicate NamedNetwork(c: ClusterIn, name: string, k: int) {
    0 <= k < |c.networks| && c.networks[k].name == name && forall l :: k < l < |c.networks| ==> c.networks[l].name != name
  }

  predicate NamedNode(c: ClusterIn, name: string, k: int) {
    0 <= k < |c.nodes| && c.nodes[k].name == name && forall l :: k < l < |c.nodes| ==> c.nodes[l].name != name
  }

  lemma {:induction false} NetNamesAre(c: ClusterIn, n: nat, name: string)
    requires n <= |c.networks|
    ensures name !in NetNames(c, n) ==> forall k :: 0 <= k < n ==> c.networks[k].name != name
    ensures name in NetNames(c, n) ==>
              exists k :: 0 <= k < n && c.networks[k].name == name && NetNames(c, n)[name] == c.cid + "/" + c.networks[k].id
                          && forall l :: k < l < n ==> c.networks[l].name != name
  {
    if n > 0 { NetNamesAre(c, n - 1, name); }
  }

  lemma {:induction false} NodeNamesAre(c: ClusterIn, n: nat, name: string)
    requires n <= |c.nodes|
    ensures name !in NodeNames(c, n) ==> forall k :: 0 <= k < n ==> c.nodes[k].name != name
    ensures name in NodeNames(c, n) ==>
              exists k :: 0 <= k < n && c.nodes[k].name == name && NodeNames(c, n)[name] == c.cid + "/" + c.nodes[k].id
                          && forall l :: k < l < n ==> c.nodes[l].name != name
  {
    if n > 0 { NodeNamesAre(c, n - 1, name); }
  }

  /** A network is known by its name exactly if one is listed under it; the last one counts. */
  lemma NetworksAreKnown(c: ClusterIn, name: string)
    ensures Network(c, name).Some? <==> exists k :: NamedNetwork(c, name, k)
    ensures forall k :: NamedNetwork(c, name, k) ==> Network(c, name) == Some(c.cid + "/" + c.networks[k].id)
  {
    NetNamesAre(c, |c.networks|, name);
    if Network(c, name).Some? {
      var k :| 0 <= k < |c.networks| && c.networks[k].name == name && Network(c, name).value == c.cid + "/" + c.networks[k].id
               && forall l :: k < l < |c.networks| ==> c.networks[l].name != name;
      assert NamedNetwork(c, name, k);
      forall m | NamedNetwork(c, name, m) ensures m == k {
      }
    }
  }

  /** The same for a host. */
  lemma HostsAreKnown(c: ClusterIn, name: string)
    ensures Host(c, name).Some? <==> exists k :: NamedNode(c, name, k)
    ensures forall k :: NamedNode(c, name, k) ==> Host(c, name) == Some(c.cid + "/" + c.nodes[k].id)
  {
    NodeNamesAre(c, |c.nodes|, name);
    if Host(c, name).Some? {
      var k :| 0 <= k < |c.nodes| && c.nodes[k].name == name && Host(c, name).value == c.cid + "/" + c.nodes[k].id
               && forall l :: k < l < |c.nodes| ==> c.nodes[l].name != name;
      assert NamedNode(c, name, k);
      forall m | NamedNode(c, name, m) ensures m == k {
      }
    }
  }

  // ----- Parts of a cluster ------------------------------------------------------------------

  lemma PlannedPart(c: ClusterIn, parent: Option<Id>, part: seq<seq<Step>>, j: nat, s: Step)
    requires j < |part| && s in part[j]
    requires part == NicPlans(c) || part == VmPlans(c) || part == GroupPlans(c)
    ensures s in ClusterPlan(c, parent)
  {
    hide NicPlans, VmPlans, GroupPlans, Concat;
    InPart(part, |part|, j, s);
  }

  /**
    Port l of node n. It is ok if it is up, or down where it is known to belong to no network listed here;
    critical if it is down and its network is listed; otherwise unknown. A listed network gets an uplink
    edge of the same status.
   */
  lemma PortsAre(c: ClusterIn, parent: Option<Id>, n: nat, l: nat)
    requires n < |c.nodes| && l < |c.nodes[n].links|
    ensures var node, link, plan := c.nodes[n], c.nodes[n].links[l], ClusterPlan(c, parent);
      var listed := link.network.Some? && exists k :: NamedNetwork(c, link.network.value, k);
      var status := match link.oper
                    case Up => Ok
                    case Down => if listed then Critical else if link.known then Ok else Unknown
                    case Other => Unknown;
      var id := c.cid + "/" + ("nic:" + node.name + ":" + link.name);
      && (exists host :: Put(id, Nic, status, Some(host)) in plan)
      && (listed ==> exists k :: NamedNetwork(c, link.network.value, k)
                                 && Join(Edge(id, c.cid + "/" + c.networks[k].id, Uplink, status)) in plan)
  {
    hide ClusterPlan, HostOrCluster, Concat, Network;
    var node, link := c.nodes[n], c.nodes[n].links[l];
    if link.network.Some? { NetworksAreKnown(c, link.network.value); }
    var steps := PortPlan(c, node, link);
    forall s | s in steps ensures s in ClusterPlan(c, parent) {
      assert s in PortPlans(c, node)[l];
      InPart(PortPlans(c, node), |node.links|, l, s);
      PlannedPart(c, parent, NicPlans(c), n, s);
    }
    var status := PortStatus(link, Attachment(c, link).Some?);
    assert Put(NicGid(c, node.name, link.name), Nic, status, Some(HostOrCluster(c, node.name))) in steps;
    if k :| link.network.Some? && NamedNetwork(c, link.network.value, k) {
      assert Join(Edge(NicGid(c, node.name, link.name), Attachment(c, link).value, Uplink, status)) in steps;
    }
  }

  /** Disk d of group g: ok exactly if it is normal, otherwise degraded; the group's edge says the same. */
  lemma DisksAre(c: ClusterIn, parent: Option<Id>, g: nat, d: nat)
    requires g < |c.groups| && d < |c.groups[g].disks|
    ensures var group, disk, plan := c.groups[g], c.groups[g].disks[d], ClusterPlan(c, parent);
      var id, status := c.cid + "/" + disk.id, if disk.normal then Ok else Degraded;
      && (exists host :: Put(id, Disk, status, Some(host)) in plan)
      && Join(Edge(id, c.cid + "/" + group.id, MemberOf, status)) in plan
  {
    hide ClusterPlan, Host, Concat;
    var group, disk := c.groups[g], c.groups[g].disks[d];
    var steps := DiskPlan(c, disk, Gid(c.cid, group.id));
    forall s | s in steps ensures s in ClusterPlan(c, parent) {
      assert s in DiskPlans(c, group.disks, Gid(c.cid, group.id))[d];
      InPart(DiskPlans(c, group.disks, Gid(c.cid, group.id)), |group.disks|, d, s);
      PlannedPart(c, parent, GroupPlans(c), g, s);
    }
    var status := if disk.normal then Ok else Degraded;
    assert exists host :: Put(Gid(c.cid, disk.id), Disk, status, Some(host)) in steps by {
      if Host(c, disk.node).Some? {
        assert Put(Gid(c.cid, disk.id), Disk, status, Some(Host(c, disk.node).value)) in steps;
      } else {
        assert Put(Gid(c.cid, disk.id), Disk, status, Some(ClusterGid(c))) in steps;
      }
    }
  }

  lemma VmSteps(c: ClusterIn, parent: Option<Id>, v: nat, part: seq<seq<Step>>, j: nat, s: Step)
    requires v < |c.vms| && j < |part| && s in part[j]
    requires var vm := c.vms[v];
      part == InstancePlans(c, vm) || part == InterfacePlans(c, vm) || part == VolumePlans(c, vm)
    ensures s in ClusterPlan(c, parent)
  {
    hide ClusterPlan, InstancePlans, InterfacePlans, VolumePlans, PlacementPlans, VmParent, Concat;
    InPart(part, |part|, j, s);
    assert s in VmPlans(c)[v];
    PlannedPart(c, parent, VmPlans(c), v, s);
  }

  /** Instance j of VM v: ok exactly if it is enabled and normal, otherwise degraded. */
  lemma InstancesAre(c: ClusterIn, parent: Option<Id>, v: nat, j: nat)
    requires v < |c.vms| && j < |c.vms[v].instances|
    ensures var vm, inst, plan := c.vms[v], c.vms[v].instances[j], ClusterPlan(c, parent);
      var id, up, status := c.cid + "/" + inst.id, c.cid + "/" + vm.id, if inst.enabled && inst.normal then Ok else Degraded;
      Put(id, LocalVm, status, Some(up)) in plan && Join(Edge(up, id, InstanceOf, status)) in plan
  {
    hide ClusterPlan, ResidePlan, Concat;
    forall s | s in InstancePlan(c, c.vms[v], c.vms[v].instances[j]) ensures s in ClusterPlan(c, parent) {
      VmSteps(c, parent, v, InstancePlans(c, c.vms[v]), j, s);
    }
  }

  /**
    Virtual port j of VM v on a listed network: ok on both sides, degraded on one, critical on none. Its
    edge says so, and a broken one makes the VM's own status worse.
   */
  lemma InterfacesAre(c: ClusterIn, parent: Option<Id>, v: nat, j: nat, k: int)
    requires v < |c.vms| && j < |c.vms[v].interfaces| && NamedNetwork(c, c.vms[v].interfaces[j].network, k)
    ensures var vm, port, plan := c.vms[v], c.vms[v].interfaces[j], ClusterPlan(c, parent);
      var status := match (port.net0, port.net1)
                    case (true, true) => Ok
                    case (false, false) => Critical
                    case _ => Degraded;
      && Join(Edge(c.cid + "/" + vm.id, c.cid + "/" + c.networks[k].id, Vnic, status)) in plan
      && (status != Ok ==> Raise(c.cid + "/" + vm.id, status) in plan)
  {
    hide ClusterPlan, Concat, Network, NamedNetwork;
    NetworksAreKnown(c, c.vms[v].interfaces[j].network);
    forall s | s in InterfacePlan(c, c.vms[v], c.vms[v].interfaces[j]) ensures s in ClusterPlan(c, parent) {
      VmSteps(c, parent, v, InterfacePlans(c, c.vms[v]), j, s);
    }
  }

  /**
    Image j of an identified volume w of VM v: ok exactly if it is enabled, otherwise degraded. The mirror edge
    says the same, but is a warning for an enabled image while the cluster is synchronising.
   */
  lemma ImagesAre(c: ClusterIn, parent: Option<Id>, v: nat, w: nat, j: nat)
    requires v < |c.vms| && w < |c.vms[v].volumes| && c.vms[v].volumes[w].id != "" && j < |c.vms[v].volumes[w].images|
    ensures var vol, image, plan := c.vms[v].volumes[w], c.vms[v].volumes[w].images[j], ClusterPlan(c, parent);
      var id, up := c.cid + "/" + image.id, c.cid + "/" + vol.id;
      && Put(id, DiskImage, if image.enabled then Ok else Degraded, Some(up)) in plan
      && Join(Edge(up, id, Mirror, if !image.enabled then Degraded else if c.syncing then Warning else Ok)) in plan
  {
    hide ClusterPlan, ResidePlan, Concat;
    var vol := c.vms[v].volumes[w];
    forall s | s in ImagePlan(c, vol, vol.images[j]) ensures s in ClusterPlan(c, parent) {
      assert s in ImagePlans(c, vol)[j];
      InPart(ImagePlans(c, vol), |vol.images|, j, s);
      VmSteps(c, parent, v, VolumePlans(c, c.vms[v]), w, s);
    }
  }
}
