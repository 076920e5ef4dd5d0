/** What the builders are given, and what is to be drawn for it: which node under which, and which edges. */
module TopologyPlans {
  import opened Base
  import opened TopologyStatus
  import opened TopologyRollup
  import opened TopologyGraph
  import opened TopologyDrawing

  // ----- Input, after parsing --------------------------------------------------

  datatype Oper = Up | Down | Other

  /** A physical port; `known`: whether some definite source says what network it belongs to, if any. */
  datatype LinkIn = LinkIn(name: string, oper: Oper, network: Option<string>, known: bool)
  datatype NodeIn = NodeIn(id: string, name: string, status: Status, links: seq<LinkIn>)
  datatype NetworkIn = NetworkIn(id: string, name: string, status: Status)
  datatype DiskIn = DiskIn(id: string, node: string, normal: bool)
  datatype GroupIn = GroupIn(id: string, status: Status, disks: seq<DiskIn>)
  datatype InstanceIn = InstanceIn(id: string, node: string, enabled: bool, normal: bool)
  datatype InterfaceIn = InterfaceIn(network: string, net0: bool, net1: bool)
  datatype ImageIn = ImageIn(id: string, node: string, enabled: bool)
  datatype VolumeIn = VolumeIn(id: string, status: Status, images: seq<ImageIn>)
  datatype VmIn = VmIn(id: string, status: Status, placement: seq<string>, instances: seq<InstanceIn>,
                       interfaces: seq<InterfaceIn>, volumes: seq<VolumeIn>)
  datatype StandaloneIn = StandaloneIn(id: string, group: Option<string>)
  datatype ContainerIn = ContainerIn(id: string, group: Option<string>, backs: Option<Id>)
  datatype Target = Named(id: Id) | QuorumAt(address: string)
  datatype AlertIn = AlertIn(targets: seq<Target>, severity: Option<Status>)

  datatype ClusterIn = ClusterIn(cid: string, unit: string, syncing: bool, nodes: seq<NodeIn>, networks: seq<NetworkIn>,
                                 groups: seq<GroupIn>, vms: seq<VmIn>, volumes: seq<StandaloneIn>,
                                 containers: seq<ContainerIn>, alerts: seq<AlertIn>)

  function Gid(cid: string, raw: string): Id {
    cid + "/" + raw
  }

  function ClusterGid(c: ClusterIn): Id {
    Gid(c.cid, c.unit)
  }

  // ----- Names ---------------------------------------------------------------------

  /** The node registered last under a name. */
  function NodeNames(c: ClusterIn, n: nat): map<string, Id>
    requires n <= |c.nodes|
  {
    if n == 0 then map[] else NodeNames(c, n - 1)[c.nodes[n - 1].name := Gid(c.cid, c.nodes[n - 1].id)]
  }

  function GroupIds(c: ClusterIn, n: nat): map<string, Id>
    requires n <= |c.groups|
  {
    if n == 0 then map[] else GroupIds(c, n - 1)[c.groups[n - 1].id := Gid(c.cid, c.groups[n - 1].id)]
  }

  function NetNames(c: ClusterIn, n: nat): map<string, Id>
    requires n <= |c.networks|
  {
    if n == 0 then map[] else NetNames(c, n - 1)[c.networks[n - 1].name := Gid(c.cid, c.networks[n - 1].id)]
  }

  function Host(c: ClusterIn, name: string): Option<Id> {
    var names := NodeNames(c, |c.nodes|);
    if name in names then Some(names[name]) else None
  }

  function HostOrCluster(c: ClusterIn, name: string): Id {
    if Host(c, name).Some? then Host(c, name).value else ClusterGid(c)
  }

  function Network(c: ClusterIn, name: string): Option<Id> {
    var names := NetNames(c, |c.networks|);
    if name in names then Some(names[name]) else None
  }

  function Group(c: ClusterIn, group: Option<string>): Option<Id> {
    var ids := GroupIds(c, |c.groups|);
    if group.Some? && group.value in ids then Some(ids[group.value]) else None
  }

  function GroupOrCluster(c: ClusterIn, group: Option<string>): Id {
    if Group(c, group).Some? then Group(c, group).value else ClusterGid(c)
  }

  /** The host a VM is shown under: the first of its placement, or its first enabled instance. */
  function ActiveNode(vm: VmIn): string {
    if vm.placement != [] then vm.placement[0] else FirstEnabled(vm.instances)
  }

  function FirstEnabled(instances: seq<InstanceIn>): string {
    if instances == [] then "" else if instances[0].enabled then instances[0].node else FirstEnabled(instances[1..])
  }

  function VmParent(c: ClusterIn, vm: VmIn): Id {
    if ActiveNode(vm) == "" then ClusterGid(c) else HostOrCluster(c, ActiveNode(vm))
  }

  // ----- Infrastructure ------------------------------------------------------------

  function UnitPlan(c: ClusterIn, parent: Option<Id>): seq<Step> {
    [Put(ClusterGid(c), Cluster, Ok, parent)]
    + (if parent.Some? then [Join(Edge(parent.value, ClusterGid(c), Contains, Ok))] else [])
    + (if c.syncing then [Raise(ClusterGid(c), Warning)] else [])
  }

  /** A node with the edge that shows it under its parent. */
  function UnderPlan(id: Id, kind: Kind, status: Status, parent: Id, edge: EdgeKind, shown: Status): seq<Step> {
    [Put(id, kind, status, Some(parent)), Join(Edge(parent, id, edge, shown))]
  }

  function NodePlan(c: ClusterIn, node: NodeIn): seq<Step> {
    UnderPlan(Gid(c.cid, node.id), Node, node.status, ClusterGid(c), Contains, Ok)
  }

  function NodePlans(c: ClusterIn): (r: seq<seq<Step>>)
    ensures |r| == |c.nodes|
  {
    seq(|c.nodes|, j requires 0 <= j < |c.nodes| => NodePlan(c, c.nodes[j]))
  }

  /** Two nodes make a fault tolerant pair. */
  function PairPlan(c: ClusterIn): seq<Step> {
    if |c.nodes| == 2 && Host(c, c.nodes[0].name).Some? && Host(c, c.nodes[1].name).Some?
    then [Pair(Host(c, c.nodes[0].name).value, Host(c, c.nodes[1].name).value)] else []
  }

  function NetworkPlan(c: ClusterIn, net: NetworkIn): seq<Step> {
    UnderPlan(Gid(c.cid, net.id), SharedNetwork, net.status, ClusterGid(c), Contains, Ok)
  }

  function NetworkPlans(c: ClusterIn): (r: seq<seq<Step>>)
    ensures |r| == |c.networks|
  {
    seq(|c.networks|, j requires 0 <= j < |c.networks| => NetworkPlan(c, c.networks[j]))
  }

  /** Under its host, or under the cluster without an edge; a member of its group either way. */
  function DiskPlan(c: ClusterIn, disk: DiskIn, group: Id): seq<Step> {
    var id, status := Gid(c.cid, disk.id), if disk.normal then Ok else Degraded;
    (match Host(c, disk.node)
     case Some(host) => UnderPlan(id, Disk, status, host, Contains, Ok)
     case None => [Put(id, Disk, status, Some(ClusterGid(c)))])
    + [Join(Edge(id, group, MemberOf, status))]
  }

  function DiskPlans(c: ClusterIn, disks: seq<DiskIn>, group: Id): (r: seq<seq<Step>>)
    ensures |r| == |disks|
  {
    seq(|disks|, j requires 0 <= j < |disks| => DiskPlan(c, disks[j], group))
  }

  function GroupPlan(c: ClusterIn, group: GroupIn): seq<Step> {
    UnderPlan(Gid(c.cid, group.id), StorageGroup, group.status, ClusterGid(c), Contains, Ok)
    + All(DiskPlans(c, group.disks, Gid(c.cid, group.id)))
  }

  function GroupPlans(c: ClusterIn): (r: seq<seq<Step>>)
    ensures |r| == |c.groups|
  {
    seq(|c.groups|, j requires 0 <= j < |c.groups| => GroupPlan(c, c.groups[j]))
  }

  function NicGid(c: ClusterIn, node: string, port: string): Id {
    Gid(c.cid, "nic:" + node + ":" + port)
  }

  function Attachment(c: ClusterIn, link: LinkIn): Option<Id> {
    if link.network.Some? then Network(c, link.network.value) else None
  }

  /** A port that is down is critical only where its network is known to be here. */
  function PortStatus(link: LinkIn, attached: bool): Status {
    match link.oper
    case Up => Ok
    case Down => if attached then Critical else if link.known then Ok else Unknown
    case Other => Unknown
  }

  function PortPlan(c: ClusterIn, node: NodeIn, link: LinkIn): seq<Step> {
    var id, net := NicGid(c, node.name, link.name), Attachment(c, link);
    var status := PortStatus(link, net.Some?);
    UnderPlan(id, Nic, status, HostOrCluster(c, node.name), Contains, Ok)
    + (if net.Some? then [Join(Edge(id, net.value, Uplink, status))] else [])
  }

  function PortPlans(c: ClusterIn, node: NodeIn): (r: seq<seq<Step>>)
    ensures |r| == |node.links|
  {
    seq(|node.links|, j requires 0 <= j < |node.links| => PortPlan(c, node, node.links[j]))
  }

  function NicPlans(c: ClusterIn): (r: seq<seq<Step>>)
    ensures |r| == |c.nodes|
  {
    seq(|c.nodes|, j requires 0 <= j < |c.nodes| => All(PortPlans(c, c.nodes[j])))
  }

  // ----- Workloads -----------------------------------------------------------------

  function PlacementPlans(c: ClusterIn, vm: VmIn): (r: seq<seq<Step>>)
    ensures |r| == |vm.instances|
  {
    seq(|vm.instances|, j requires 0 <= j < |vm.instances| =>
      match Host(c, vm.instances[j].node)
      case Some(host) => [Join(Edge(host, Gid(c.cid, vm.id), Placement, if vm.instances[j].enabled then Ok else Degraded))]
      case None => [])
  }

  function ResidePlan(c: ClusterIn, id: Id, node: string, status: Status): seq<Step> {
    match Host(c, node)
    case Some(host) => [Join(Edge(id, host, ResidesOn, status))]
    case None => []
  }

  function InstancePlan(c: ClusterIn, vm: VmIn, inst: InstanceIn): seq<Step> {
    var id, status := Gid(c.cid, inst.id), if inst.enabled && inst.normal then Ok else Degraded;
    UnderPlan(id, LocalVm, status, Gid(c.cid, vm.id), InstanceOf, status) + ResidePlan(c, id, inst.node, status)
  }

  function InstancePlans(c: ClusterIn, vm: VmIn): (r: seq<seq<Step>>)
    ensures |r| == |vm.instances|
  {
    seq(|vm.instances|, j requires 0 <= j < |vm.instances| => InstancePlan(c, vm, vm.instances[j]))
  }

  /** A broken virtual port makes the VM's own status worse. */
  function InterfacePlan(c: ClusterIn, vm: VmIn, port: InterfaceIn): seq<Step> {
    match Network(c, port.network)
    case None => []
    case Some(net) =>
      var status := if port.net0 && port.net1 then Ok else if port.net0 || port.net1 then Degraded else Critical;
      [Join(Edge(Gid(c.cid, vm.id), net, Vnic, status))]
      + if status != Ok then [Raise(Gid(c.cid, vm.id), status)] else []
  }

  function InterfacePlans(c: ClusterIn, vm: VmIn): (r: seq<seq<Step>>)
    ensures |r| == |vm.interfaces|
  {
    seq(|vm.interfaces|, j requires 0 <= j < |vm.interfaces| => InterfacePlan(c, vm, vm.interfaces[j]))
  }

  function ImagePlan(c: ClusterIn, vol: VolumeIn, image: ImageIn): seq<Step> {
    var id, status := Gid(c.cid, image.id), if image.enabled then Ok else Degraded;
    UnderPlan(id, DiskImage, status, Gid(c.cid, vol.id), Mirror, if image.enabled && c.syncing then Warning else status)
    + ResidePlan(c, id, image.node, status)
  }

  function ImagePlans(c: ClusterIn, vol: VolumeIn): (r: seq<seq<Step>>)
    ensures |r| == |vol.images|
  {
    seq(|vol.images|, j requires 0 <= j < |vol.images| => ImagePlan(c, vol, vol.images[j]))
  }

  /** A volume without an id is a removable device and no node. */
  function VolumePlan(c: ClusterIn, vm: VmIn, vol: VolumeIn): seq<Step> {
    if vol.id == "" then []
    else UnderPlan(Gid(c.cid, vol.id), Volume, vol.status, Gid(c.cid, vm.id), Attaches, vol.status) + All(ImagePlans(c, vol))
  }

  function VolumePlans(c: ClusterIn, vm: VmIn): (r: seq<seq<Step>>)
    ensures |r| == |vm.volumes|
  {
    seq(|vm.volumes|, j requires 0 <= j < |vm.volumes| => VolumePlan(c, vm, vm.volumes[j]))
  }

  function VmPlan(c: ClusterIn, vm: VmIn): seq<Step> {
    [Put(Gid(c.cid, vm.id), Vm, vm.status, Some(VmParent(c, vm)))]
    + All(PlacementPlans(c, vm)) + All(InstancePlans(c, vm)) + All(InterfacePlans(c, vm)) + All(VolumePlans(c, vm))
  }

  function VmPlans(c: ClusterIn): (r: seq<seq<Step>>)
    ensures |r| == |c.vms|
  {
    seq(|c.vms|, j requires 0 <= j < |c.vms| => VmPlan(c, c.vms[j]))
  }

  // ----- Storage on its own, and alerts ------------------------------------------------

  /** The raw ids of the volumes of the first n VMs. */
  function VmVolumes(c: ClusterIn, n: nat): set<string>
    requires n <= |c.vms|
  {
    if n == 0 then {} else VmVolumes(c, n - 1) + VolumeIds(c.vms[n - 1].volumes, |c.vms[n - 1].volumes|)
  }

  function VolumeIds(volumes: seq<VolumeIn>, n: nat): set<string>
    requires n <= |volumes|
  {
    if n == 0 then {}
    else if volumes[n - 1].id == "" then VolumeIds(volumes, n - 1)
    else VolumeIds(volumes, n - 1) + {volumes[n - 1].id}
  }

  /** Volumes listed on their own; those of VMs are there already and only joined to their group. */
  function StandalonePlan(c: ClusterIn, vol: StandaloneIn): seq<Step> {
    var id, group := Gid(c.cid, vol.id), Group(c, vol.group);
    (if vol.id in VmVolumes(c, |c.vms|) then [] else [Put(id, Volume, Ok, Some(GroupOrCluster(c, vol.group)))])
    + (if group.Some? then [Join(Edge(id, group.value, StoredOn, Ok))] else [])
  }

  function StandalonePlans(c: ClusterIn): (r: seq<seq<Step>>)
    ensures |r| == |c.volumes|
  {
    seq(|c.volumes|, j requires 0 <= j < |c.volumes| => StandalonePlan(c, c.volumes[j]))
  }

  function ContainerPlan(c: ClusterIn, ic: ContainerIn): seq<Step> {
    var id, group := Gid(c.cid, ic.id), Group(c, ic.group);
    [Put(id, ImageContainer, Ok, Some(GroupOrCluster(c, ic.group)))]
    + (if ic.backs.Some? then [Join(Edge(id, ic.backs.value, Backs, Ok))]
       else if group.Some? then [Join(Edge(id, group.value, StoredOn, Ok))] else [])
  }

  function ContainerPlans(c: ClusterIn): (r: seq<seq<Step>>)
    ensures |r| == |c.containers|
  {
    seq(|c.containers|, j requires 0 <= j < |c.containers| => ContainerPlan(c, c.containers[j]))
  }

  function QuorumGid(c: ClusterIn, address: string): Id {
    Gid(c.cid, "quorum:" + address)
  }

  function TargetId(c: ClusterIn, target: Target): Id {
    match target case Named(id) => id case QuorumAt(address) => QuorumGid(c, address)
  }

  function TargetIds(c: ClusterIn, alert: AlertIn): (r: seq<Id>)
    ensures |r| == |alert.targets|
  {
    seq(|alert.targets|, j requires 0 <= j < |alert.targets| => TargetId(c, alert.targets[j]))
  }

  /** Quorum servers are known from alerts only. */
  function TargetPlans(c: ClusterIn, alert: AlertIn): (r: seq<seq<Step>>)
    ensures |r| == |alert.targets|
  {
    seq(|alert.targets|, j requires 0 <= j < |alert.targets| =>
      if alert.targets[j].QuorumAt? then [Ensure(QuorumGid(c, alert.targets[j].address), ClusterGid(c))] else [])
  }

  function MarkPlans(ids: seq<Id>, severity: Option<Status>): (r: seq<seq<Step>>)
    ensures |r| == |ids|
  {
    seq(|ids|, j requires 0 <= j < |ids| => [Mark(ids[j], severity)])
  }

  /** An alert reaches the nodes it names, or the cluster if it names none. */
  function AlertPlan(c: ClusterIn, alert: AlertIn): seq<Step> {
    All(TargetPlans(c, alert))
    + All(MarkPlans(if alert.targets == [] then [ClusterGid(c)] else TargetIds(c, alert), alert.severity))
  }

  function AlertPlans(c: ClusterIn): (r: seq<seq<Step>>)
    ensures |r| == |c.alerts|
  {
    seq(|c.alerts|, j requires 0 <= j < |c.alerts| => AlertPlan(c, c.alerts[j]))
  }

  // ----- Everything --------------------------------------------------------------------

  function InfrastructurePlan(c: ClusterIn): seq<Step> {
    All(NodePlans(c)) + PairPlan(c) + All(NetworkPlans(c)) + All(GroupPlans(c)) + All(NicPlans(c))
  }

  function WorkloadPlan(c: ClusterIn): seq<Step> {
    All(VmPlans(c)) + All(StandalonePlans(c)) + All(ContainerPlans(c)) + All(AlertPlans(c))
  }

  /** Everything one cluster contributes, in the order it is built. */
  function ClusterPlan(c: ClusterIn, parent: Option<Id>): seq<Step> {
    UnitPlan(c, parent) + InfrastructurePlan(c) + WorkloadPlan(c)
  }
}
