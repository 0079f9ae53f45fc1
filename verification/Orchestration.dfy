/**
 The compiler from VM group request specs to orchestration parameters: ports, subnets, security
 groups, router interfaces and floating IPs that refer to one another by name.
 */
module Orchestration {
  import opened Seqs
  import opened Options

  datatype NodeType =
    | PlatformVM | SharedRootLB | DedicatedRootLB
    | AppVM
    | PlatformK8sMaster | K8sMaster
    | DockerNode | PlatformK8sPrimaryNode | PlatformK8sSecondaryNode | K8sNode
    | Unexpected

  datatype NetworkType =
    | Unset
    | InternalPrivate | InternalSharedLb
    | ExternalPrimary
    | AdditionalRootLb | AdditionalClusterNode | AdditionalPlatform

  /** VMRequestSpec, as far as resources depend on it. */
  datatype VMRequest = VMRequest(
    name: string,
    nodeType: NodeType,
    connectToExternalNet: bool,
    createPortsOnly: bool,
    connectToSubnet: string,
    additionalNetworks: map<string, NetworkType>)

  /** VMGroupRequestSpec. */
  datatype GroupRequest = GroupRequest(
    vms: seq<VMRequest>,
    newSubnetName: string,
    newSecgrpName: string,
    skipDefaultSecGrp: bool,
    antiAffinity: bool)

  datatype Router = NoRouter | NoConfigRouter | ManagedRouter

  /** The cloudlet's properties and the provider's answers. */
  datatype Env = Env(
    dnsServers: nat,
    cloudletSecGrp: string,
    secGrpLookupOk: bool,
    netspecOk: bool,
    floatingIpNet: string,
    router: Router,
    accessPortsOk: bool,
    sshKeyOk: bool,
    attachPortDuringCreate: bool,
    useSecgrpForInternalSubnet: bool,
    internalNet: string,
    externalNet: string,
    additionalNetsOk: string -> bool,
    nameSanitize: string -> string,
    idSanitize: string -> string)

  datatype Ref = Ref(name: string, id: string, preexisting: bool)

  datatype FixedIP = FixedIP(lastOctet: nat, subnet: Ref)

  datatype Port = Port(
    name: string,
    id: string,
    subnetId: string,
    networkName: string,
    netType: NetworkType,
    skipAttachVM: bool,
    fixedIPs: seq<FixedIP>,
    securityGroups: seq<Ref>,
    external: bool)

  datatype FloatingIP = FloatingIP(name: string, port: Ref)

  /** PortResourceReference: how a VM refers to a port, with the subnet id by which providers look up the network. */
  datatype PortRef = PortRef(name: string, id: string, subnetId: string, preexisting: bool)

  datatype VM = VM(name: string, ports: seq<PortRef>, fixedIPs: seq<FixedIP>)

  datatype Subnet = Subnet(name: string, id: string)

  /** VMGroupOrchestrationParams. Security groups have no id but their name. */
  datatype Group = Group(
    subnets: seq<Subnet>,
    ports: seq<Port>,
    routerPorts: seq<Ref>,
    vms: seq<VM>,
    floatingIPs: seq<FloatingIP>,
    securityGroups: seq<string>)

  // ---------------------------------------------------------------------------------------------
  // One VM
  // ---------------------------------------------------------------------------------------------

  predicate IsLB(t: NodeType) { t.PlatformVM? || t.SharedRootLB? || t.DedicatedRootLB? }
  predicate IsMaster(t: NodeType) { t.PlatformK8sMaster? || t.K8sMaster? }
  predicate IsNode(t: NodeType)
  {
    t.DockerNode? || t.PlatformK8sPrimaryNode? || t.PlatformK8sSecondaryNode? || t.K8sNode?
  }

  /** connectsToSharedRootLB. */
  predicate ConnectsToSharedRootLB(spec: GroupRequest) {
    exists i :: 0 <= i < |spec.vms| && spec.vms[i].nodeType.SharedRootLB? && spec.vms[i].createPortsOnly
  }

  method DetectSharedRootLB(spec: GroupRequest) returns (found: bool)
    ensures found <==> ConnectsToSharedRootLB(spec)
  {
    for i := 0 to |spec.vms|
      invariant forall k :: 0 <= k < i ==> !(spec.vms[k].nodeType.SharedRootLB? && spec.vms[k].createPortsOnly)
    {
      if spec.vms[i].nodeType.SharedRootLB? && spec.vms[i].createPortsOnly {
        return true;
      }
    }
    return false;
  }

  predicate RouterInUse(env: Env, spec: GroupRequest) {
    env.router.ManagedRouter? && spec.newSubnetName != ""
  }

  function PortName(vm: string, net: string): string {
    vm + "-" + net + "-port"
  }

  /** The port takes the next of the group's running octets. */
  predicate TakesOctet(vm: VMRequest) {
    vm.connectToSubnet != "" && (vm.nodeType.AppVM? || IsNode(vm.nodeType))
  }

  predicate HasInternalPort(env: Env, spec: GroupRequest, vm: VMRequest) {
    vm.connectToSubnet != "" && (if IsLB(vm.nodeType) then !RouterInUse(env, spec) else !vm.nodeType.Unexpected?)
  }

  /** The fixed last octet of a role, or the running one. */
  function Octet(vm: VMRequest, next: nat): nat {
    if IsLB(vm.nodeType) then 1 else if IsMaster(vm.nodeType) then 10 else next
  }

  function CloudletGroupRef(env: Env): Ref {
    Ref(env.cloudletSecGrp, env.cloudletSecGrp, true)
  }

  function NewGroupRef(spec: GroupRequest): Ref {
    Ref(spec.newSecgrpName, spec.newSecgrpName, false)
  }

  /** The groups of an internal port: those of its role, and the cloudlet's again when a router is in use. */
  function InternalGroups(env: Env, spec: GroupRequest, vm: VMRequest): seq<Ref> {
    var onRole :=
      if (IsMaster(vm.nodeType) || IsNode(vm.nodeType)) && env.useSecgrpForInternalSubnet then
        [CloudletGroupRef(env)] + (if spec.newSecgrpName != "" then [NewGroupRef(spec)] else [])
      else [];
    onRole + (if RouterInUse(env, spec) && env.cloudletSecGrp != "" then [CloudletGroupRef(env)] else [])
  }

  /** The new subnet, sanitized as a name; none for a load balancer whose port is attached later. */
  function InternalSubnetId(env: Env, spec: GroupRequest, vm: VMRequest): string {
    if IsLB(vm.nodeType) && !env.attachPortDuringCreate then "" else env.nameSanitize(spec.newSubnetName)
  }

  /** Lines 798-941: the VM's port on its internal subnet. */
  function InternalPort(env: Env, spec: GroupRequest, vm: VMRequest, next: nat): Port {
    var name := PortName(vm.name, vm.connectToSubnet);
    var preexisting := vm.connectToSubnet != "" && spec.newSubnetName != vm.connectToSubnet;
    Port(name,
      if IsNode(vm.nodeType) then env.idSanitize(name) else env.nameSanitize(name),
      InternalSubnetId(env, spec, vm),
      env.internalNet,
      if ConnectsToSharedRootLB(spec) then InternalSharedLb else InternalPrivate,
      IsLB(vm.nodeType) && !env.attachPortDuringCreate,
      [FixedIP(Octet(vm, next), Ref(vm.connectToSubnet, vm.connectToSubnet, preexisting))],
      InternalGroups(env, spec, vm),
      false)
  }

  /** What the switch on the VM's type rejects. */
  function TypeError(vm: VMRequest): Option<string> {
    if IsMaster(vm.nodeType) && vm.connectToSubnet == ""
      then Some("k8s master not specified to be connected to internal network")
    else if IsNode(vm.nodeType) && vm.connectToSubnet == ""
      then Some("k8s node not specified to be connected to internal network")
    else if vm.nodeType.Unexpected? then Some("unexpected VM type")
    else None
  }

  /** The external networks of the VM; an additional network may override the primary one. */
  function ExtNets(env: Env, vm: VMRequest): map<string, NetworkType> {
    (if vm.connectToExternalNet then map[env.externalNet := ExternalPrimary] else map[]) + vm.additionalNetworks
  }

  /** Lines 957-1011: one external port. */
  function ExternalPort(env: Env, spec: GroupRequest, vm: VMRequest, net: string, netType: NetworkType): Port {
    var name := PortName(vm.name, net);
    var useCloudletSecgrp := spec.newSecgrpName == "" && netType != ExternalPrimary;
    Port(name,
      if env.floatingIpNet != "" then env.nameSanitize(name) else env.idSanitize(name),
      "",
      if env.floatingIpNet != "" then env.floatingIpNet else net,
      netType,
      false,
      [],
      (if spec.newSecgrpName != "" then [NewGroupRef(spec)] else [])
        + (if useCloudletSecgrp || !spec.skipDefaultSecGrp then [CloudletGroupRef(env)] else []),
      true)
  }

  /** Everything made for one VM; `order` is the order in which its external networks came up. */
  datatype Unit = Unit(ports: seq<Port>, order: seq<string>, floatingIPs: seq<FloatingIP>)

  function OwnCount(env: Env, spec: GroupRequest, vm: VMRequest): nat {
    if HasInternalPort(env, spec, vm) then 1 else 0
  }

  /** The unit holds the internal port, if any, first, then one port per external network, in any order. */
  ghost predicate UnitFor(env: Env, spec: GroupRequest, vm: VMRequest, next: nat, u: Unit) {
    var own := OwnCount(env, spec, vm);
    && own <= |u.ports|
    && (own == 1 ==> u.ports[0] == InternalPort(env, spec, vm, next))
    && ExternalUnit(env, spec, vm, ExtNets(env, vm).Keys, u.order, u.ports[own..], u.floatingIPs)
  }

  /** The port made for a network of the VM. */
  predicate IsPortOf(env: Env, spec: GroupRequest, vm: VMRequest, net: string, p: Port) {
    net in ExtNets(env, vm) && p == ExternalPort(env, spec, vm, net, ExtNets(env, vm)[net])
  }

  /** The ports are those of the networks in `order`, which lists `nets`, once each. */
  ghost predicate PortsInOrder(env: Env, spec: GroupRequest, vm: VMRequest, nets: set<string>, order: seq<string>,
      ports: seq<Port>)
  {
    && |order| == |ports|
    && NoDup(order) && Elems(order) == nets
    && (forall i :: 0 <= i < |ports| ==> IsPortOf(env, spec, vm, order[i], ports[i]))
  }

  /** Each external port has its floating IP, if they are used. */
  predicate FloatingFor(env: Env, ports: seq<Port>, fips: seq<FloatingIP>) {
    && |fips| == (if env.floatingIpNet != "" then |ports| else 0)
    && (forall i :: 0 <= i < |fips| ==>
      fips[i] == FloatingIP(ports[i].name + "-fip", Ref(ports[i].name, ports[i].id, false)))
  }

  /** A primary network needs a security group for the group. */
  predicate NetsAllowed(env: Env, spec: GroupRequest, vm: VMRequest, nets: set<string>) {
    spec.newSecgrpName == "" ==> forall n :: n in nets && n in ExtNets(env, vm) ==>
      ExtNets(env, vm)[n] != ExternalPrimary
  }

  /** One port for each of the given external networks. */
  ghost predicate ExternalUnit(env: Env, spec: GroupRequest, vm: VMRequest, nets: set<string>, order: seq<string>,
      ports: seq<Port>, fips: seq<FloatingIP>)
  {
    && PortsInOrder(env, spec, vm, nets, order, ports)
    && FloatingFor(env, ports, fips)
    && NetsAllowed(env, spec, vm, nets)
  }

  // ---------------------------------------------------------------------------------------------
  // The group
  // ---------------------------------------------------------------------------------------------

  /** How many of the first n VMs take a running octet. */
  function Takers(vms: seq<VMRequest>, n: nat): nat
    requires n <= |vms|
  {
    if n == 0 then 0 else Takers(vms, n - 1) + (if TakesOctet(vms[n - 1]) then 1 else 0)
  }

  const FIRST_OCTET: nat := 101

  function RouterPortName(spec: GroupRequest): string {
    spec.newSubnetName + "-rtr-port"
  }

  /** Lines 697-712. */
  function RouterPort(env: Env, spec: GroupRequest): Port {
    Port(RouterPortName(spec), env.idSanitize(RouterPortName(spec)), env.idSanitize(spec.newSubnetName),
      env.internalNet, Unset, false,
      [FixedIP(1, Ref(spec.newSubnetName, spec.newSubnetName, false))], [CloudletGroupRef(env)], false)
  }

  /** The VM's own parameters: it is attached to the ports of its unit that are not attached later. */
  function BuildVM(env: Env, vm: VMRequest, ports: seq<Port>): VM {
    VM(env.nameSanitize(vm.name), Attached(ports), AttachedIPs(ports))
  }

  function PortRefOf(p: Port): PortRef {
    PortRef(p.name, p.id, p.subnetId, false)
  }

  function Attached(ports: seq<Port>): seq<PortRef> {
    if ports == [] then []
    else
      var p := ports[|ports| - 1];
      Attached(ports[..|ports| - 1]) + (if p.skipAttachVM then [] else [PortRefOf(p)])
  }

  function AttachedIPs(ports: seq<Port>): seq<FixedIP> {
    if ports == [] then []
    else
      var p := ports[|ports| - 1];
      AttachedIPs(ports[..|ports| - 1]) + (if p.skipAttachVM then [] else p.fixedIPs)
  }

  /** The group's parameters before the first VM. */
  function Start(env: Env, spec: GroupRequest): Group {
    Group(
      if spec.newSubnetName != "" then [Subnet(spec.newSubnetName, env.idSanitize(spec.newSubnetName))] else [],
      if RouterInUse(env, spec) then [RouterPort(env, spec)] else [],
      if RouterInUse(env, spec) then [Ref(RouterPortName(spec), RouterPortName(spec), false)] else [],
      [], [],
      if spec.newSecgrpName != "" then [spec.newSecgrpName] else [])
  }

  /** The group with one more VM's resources. */
  function AddUnit(env: Env, g: Group, vm: VMRequest, u: Unit): Group {
    g.(ports := g.ports + u.ports,
       floatingIPs := g.floatingIPs + u.floatingIPs,
       vms := g.vms + (if vm.createPortsOnly then [] else [BuildVM(env, vm, u.ports)]))
  }

  /** The parameters assembled from the first n units. */
  function Assemble(env: Env, spec: GroupRequest, units: seq<Unit>, n: nat): Group
    requires n <= |units| <= |spec.vms|
  {
    if n == 0 then Start(env, spec) else AddUnit(env, Assemble(env, spec, units, n - 1), spec.vms[n - 1], units[n - 1])
  }

  /** Each VM got its unit, with the octet that follows from the VMs before it. */
  ghost predicate UnitsFor(env: Env, spec: GroupRequest, units: seq<Unit>) {
    && |units| <= |spec.vms|
    && forall i {:trigger units[i]} :: 0 <= i < |units| ==>
      UnitFor(env, spec, spec.vms[i], FIRST_OCTET + Takers(spec.vms, i), units[i])
  }

  method ExternalPorts(env: Env, spec: GroupRequest, vm: VMRequest) returns (r: Result<Unit>)
    ensures r.Ok? ==> ExternalUnit(env, spec, vm, ExtNets(env, vm).Keys, r.value.order, r.value.ports,
      r.value.floatingIPs)
    ensures r.Err? <==> !NetsAllowed(env, spec, vm, ExtNets(env, vm).Keys)
  {
    var extNets := ExtNets(env, vm);
    var ports: seq<Port>, order: seq<string>, fips: seq<FloatingIP> := [], [], [];
    var rest := extNets.Keys;
    NoNets(env, spec, vm);
    while rest != {}
      invariant Elems(order) + rest == extNets.Keys && Elems(order) !! rest
      invariant ExternalUnit(env, spec, vm, Elems(order), order, ports, fips)
      decreases rest
    {
      var netName :| netName in rest;
      var netType := extNets[netName];
      if spec.newSecgrpName == "" && netType == ExternalPrimary {
        return Err("primary external network specified with no security group");
      }
      var p := ExternalPort(env, spec, vm, netName, netType);
      OneMoreNet(env, spec, vm, order, ports, fips, netName);
      ports, order := ports + [p], order + [netName];
      if env.floatingIpNet != "" {
        fips := fips + [FloatingIP(p.name + "-fip", Ref(p.name, p.id, false))];
      }
      rest := rest - {netName};
    }
    assert Elems(order) == extNets.Keys;
    r := Ok(Unit(ports, order, fips));
  }

  lemma NoNets(env: Env, spec: GroupRequest, vm: VMRequest)
    ensures Elems<string>([]) == {}
    ensures ExternalUnit(env, spec, vm, Elems([]), [], [], [])
  {
  }

  lemma OneMoreNet(env: Env, spec: GroupRequest, vm: VMRequest, order: seq<string>, ports: seq<Port>,
      fips: seq<FloatingIP>, net: string)
    requires ExternalUnit(env, spec, vm, Elems(order), order, ports, fips) && net !in Elems(order)
      && net in ExtNets(env, vm)
    requires spec.newSecgrpName == "" ==> ExtNets(env, vm)[net] != ExternalPrimary
    ensures var p := ExternalPort(env, spec, vm, net, ExtNets(env, vm)[net]);
      ExternalUnit(env, spec, vm, Elems(order + [net]), order + [net], ports + [p],
        if env.floatingIpNet != "" then fips + [FloatingIP(p.name + "-fip", Ref(p.name, p.id, false))] else fips)
    ensures Elems(order + [net]) == Elems(order) + {net}
  {
    AppendNew(order, net);
  }

  /** The body of the loop over VMs: all resources of one VM, or why it cannot be had. */
  method DefineVM(env: Env, spec: GroupRequest, vm: VMRequest, next: nat) returns (r: Result<Unit>)
    ensures r.Ok? ==> UnitFor(env, spec, vm, next, r.value)
    ensures r.Err? <==> Rejected(env, spec, vm)
  {
    var wrong := TypeError(vm);
    if wrong.Some? {
      return Err(wrong.value);
    }
    var newPorts := [];
    if HasInternalPort(env, spec, vm) {
      newPorts := [InternalPort(env, spec, vm, next)];
    }
    if vm.additionalNetworks != map[] {
      if !env.additionalNetsOk(vm.name) {
        return Err("additional networks not valid");
      }
    }
    var ext := ExternalPorts(env, spec, vm);
    if ext.Err? {
      return ext;
    }
    var u := Unit(newPorts + ext.value.ports, ext.value.order, ext.value.floatingIPs);
    assert u.ports[|newPorts|..] == ext.value.ports;
    r := Ok(u);
  }

  /** Lines 1078-1083: the ports that are attached at creation, and their addresses. */
  method DefineOrchVM(env: Env, vm: VMRequest, newPorts: seq<Port>) returns (newVM: VM)
    ensures newVM == BuildVM(env, vm, newPorts)
  {
    var ports: seq<PortRef>, ips: seq<FixedIP> := [], [];
    for i := 0 to |newPorts|
      invariant ports == Attached(newPorts[..i]) && ips == AttachedIPs(newPorts[..i])
    {
      var p := newPorts[i];
      PrefixStep(newPorts, i);
      assert newPorts[..i + 1][..i] == newPorts[..i];
      if !p.skipAttachVM {
        ports := ports + [PortRef(p.name, p.id, p.subnetId, false)];
        ips := ips + p.fixedIPs;
      }
    }
    assert newPorts[..|newPorts|] == newPorts;
    newVM := VM(env.nameSanitize(vm.name), ports, ips);
  }

  /** Lines 648-778: what makes the whole request fail before the first VM is looked at. */
  function SpecError(env: Env, spec: GroupRequest): Option<string> {
    if env.dnsServers > 2 then Some("Too many DNS servers specified")
    else if spec.antiAffinity && |spec.vms| < 2 then Some("Anti affinity cannot be specified with less than 2 VMs")
    else if !spec.skipDefaultSecGrp && !env.secGrpLookupOk then Some("security group lookup failed")
    else if !env.netspecOk then Some("bad network scheme")
    else if spec.newSecgrpName != "" && !env.accessPortsOk then Some("bad access ports")
    else if !env.sshKeyOk then Some("no SSH key")
    else None
  }

  /** Why one VM cannot be had. */
  ghost predicate Rejected(env: Env, spec: GroupRequest, vm: VMRequest) {
    || TypeError(vm) != None
    || (vm.additionalNetworks != map[] && !env.additionalNetsOk(vm.name))
    || !NetsAllowed(env, spec, vm, ExtNets(env, vm).Keys)
  }

  /**
   getVMGroupOrchestrationParamsFromGroupSpec: the units of all VMs, assembled in order, unless something is
   wrong.
   */
  method Compile(env: Env, spec: GroupRequest) returns (r: Result<Group>, ghost units: seq<Unit>)
    ensures r.Err? <==>
      SpecError(env, spec) != None || exists i :: 0 <= i < |spec.vms| && Rejected(env, spec, spec.vms[i])
    ensures r.Ok? ==>
      |units| == |spec.vms| && UnitsFor(env, spec, units) && r.value == Assemble(env, spec, units, |units|)
    ensures r.Ok? ==> NoDangling(r.value)
  {
    hide UnitFor, Rejected, SpecError, NoDangling;
    units := [];
    var err := SpecError(env, spec);
    if err.Some? {
      return Err(err.value), units;
    }
    var vmgp := Start(env, spec);
    var internalPortNextOctet := FIRST_OCTET;
    for ii := 0 to |spec.vms|
      invariant |units| == ii && UnitsFor(env, spec, units)
      invariant vmgp == Assemble(env, spec, units, ii)
      invariant internalPortNextOctet == FIRST_OCTET + Takers(spec.vms, ii)
      invariant forall i :: 0 <= i < ii ==> !Rejected(env, spec, spec.vms[i])
    {
      var vm := spec.vms[ii];
      var unit := DefineVM(env, spec, vm, internalPortNextOctet);
      if unit.Err? {
        return Err(unit.reason), units;
      }
      AddedUnit(env, spec, units, unit.value);
      assert !Rejected(env, spec, vm);
      vmgp := AppendUnit(env, vmgp, vm, unit.value);
      units := units + [unit.value];
      if TakesOctet(vm) {
        internalPortNextOctet := internalPortNextOctet + 1;
      }
    }
    NoDanglingReference(env, spec, units);
    r := Ok(vmgp);
  }

  /** Lines 1014-1088. */
  method AppendUnit(env: Env, g: Group, vm: VMRequest, u: Unit) returns (vmgp: Group)
    ensures vmgp == AddUnit(env, g, vm, u)
  {
    vmgp := g;
    if !vm.createPortsOnly {
      var newVM := DefineOrchVM(env, vm, u.ports);
      vmgp := vmgp.(vms := vmgp.vms + [newVM]);
    }
    vmgp := vmgp.(ports := vmgp.ports + u.ports, floatingIPs := vmgp.floatingIPs + u.floatingIPs);
  }

  lemma AddedUnit(env: Env, spec: GroupRequest, units: seq<Unit>, u: Unit)
    requires |units| < |spec.vms| && UnitsFor(env, spec, units)
    requires UnitFor(env, spec, spec.vms[|units|], FIRST_OCTET + Takers(spec.vms, |units|), u)
    ensures UnitsFor(env, spec, units + [u])
    ensures Assemble(env, spec, units + [u], |units| + 1)
      == AddUnit(env, Assemble(env, spec, units, |units|), spec.vms[|units|], u)
  {
    hide UnitFor;
    AssemblePrefix(env, spec, units, u, |units|);
  }

  lemma {:induction false} AssemblePrefix(env: Env, spec: GroupRequest, units: seq<Unit>, u: Unit, n: nat)
    requires n <= |units| && |units| + 1 <= |spec.vms|
    ensures Assemble(env, spec, units + [u], n) == Assemble(env, spec, units, n)
    decreases n
  {
    if n > 0 { AssemblePrefix(env, spec, units, u, n - 1); }
  }

  // ---------------------------------------------------------------------------------------------
  // No dangling references
  // ---------------------------------------------------------------------------------------------

  /** A port of the group with this name and id. */
  ghost predicate DeclaresPort(g: Group, name: string, id: string) {
    exists i :: 0 <= i < |g.ports| && g.ports[i].name == name && g.ports[i].id == id
  }

  /** A port of the group that a VM's reference matches in name, id and subnet id. */
  ghost predicate DeclaresPortRef(g: Group, r: PortRef) {
    exists i :: 0 <= i < |g.ports| && PortRefOf(g.ports[i]) == r
  }

  ghost predicate DeclaresPortName(g: Group, name: string) {
    exists i :: 0 <= i < |g.ports| && g.ports[i].name == name
  }

  predicate DeclaresSubnet(subnets: seq<Subnet>, name: string) {
    exists i :: 0 <= i < |subnets| && subnets[i].name == name
  }

  /** What a port refers to is pre-existing or declared in the group; a group's id is its name. */
  predicate PortRefsOk(subnets: seq<Subnet>, secgrps: seq<string>, p: Port) {
    && (forall i :: 0 <= i < |p.fixedIPs| && !p.fixedIPs[i].subnet.preexisting ==>
         DeclaresSubnet(subnets, p.fixedIPs[i].subnet.name))
    && (forall i :: 0 <= i < |p.securityGroups| && !p.securityGroups[i].preexisting ==>
         p.securityGroups[i].name == p.securityGroups[i].id && p.securityGroups[i].name in secgrps)
    && (p.external ==> p.securityGroups != [])
  }

  /** Every reference in the group that is not marked pre-existing names something the group declares. */
  ghost predicate NoDangling(g: Group) {
    && (forall i :: 0 <= i < |g.ports| ==> PortRefsOk(g.subnets, g.securityGroups, g.ports[i]))
    && (forall i :: 0 <= i < |g.routerPorts| && !g.routerPorts[i].preexisting ==>
      DeclaresPortName(g, g.routerPorts[i].name))
    && (forall i :: 0 <= i < |g.floatingIPs| ==>
         g.floatingIPs[i].port.preexisting || DeclaresPort(g, g.floatingIPs[i].port.name, g.floatingIPs[i].port.id))
    && (forall i, k :: 0 <= i < |g.vms| && 0 <= k < |g.vms[i].ports| ==>
         g.vms[i].ports[k].preexisting || DeclaresPortRef(g, g.vms[i].ports[k]))
  }

  lemma {:induction false} AssembleDeclares(env: Env, spec: GroupRequest, units: seq<Unit>, n: nat)
    requires n <= |units| <= |spec.vms|
    ensures var g := Assemble(env, spec, units, n);
      g.subnets == Start(env, spec).subnets && g.securityGroups == Start(env, spec).securityGroups
      && g.routerPorts == Start(env, spec).routerPorts
      && |Start(env, spec).ports| <= |g.ports| && g.ports[..|Start(env, spec).ports|] == Start(env, spec).ports
    decreases n
  {
    if n > 0 { AssembleDeclares(env, spec, units, n - 1); }
  }

  /** The references of a port that the group's start already answers. */
  predicate RefsKnown(env: Env, spec: GroupRequest, p: Port) {
    PortRefsOk(Start(env, spec).subnets, Start(env, spec).securityGroups, p)
  }

  lemma InternalRefsOk(env: Env, spec: GroupRequest, vm: VMRequest, next: nat)
    requires vm.connectToSubnet != ""
    ensures RefsKnown(env, spec, InternalPort(env, spec, vm, next))
  {
    NewSubnetDeclared(env, spec);
  }

  lemma NewSubnetDeclared(env: Env, spec: GroupRequest)
    ensures spec.newSubnetName != "" ==> DeclaresSubnet(Start(env, spec).subnets, spec.newSubnetName)
  {
    if spec.newSubnetName != "" { assert Start(env, spec).subnets[0].name == spec.newSubnetName; }
  }

  lemma ExternalRefsOk(env: Env, spec: GroupRequest, vm: VMRequest, net: string, netType: NetworkType)
    requires spec.newSecgrpName == "" ==> netType != ExternalPrimary
    ensures RefsKnown(env, spec, ExternalPort(env, spec, vm, net, netType))
  {
  }

  lemma UnitRefsOk(env: Env, spec: GroupRequest, vm: VMRequest, next: nat, u: Unit, i: nat)
    requires UnitFor(env, spec, vm, next, u) && i < |u.ports|
    ensures RefsKnown(env, spec, u.ports[i])
  {
    var own := OwnCount(env, spec, vm);
    if i < own {
      InternalRefsOk(env, spec, vm, next);
    } else {
      ListedNetPort(env, spec, vm, u.order, u.ports[own..], i - own);
      ExternalRefsOk(env, spec, vm, u.order[i - own], ExtNets(env, vm)[u.order[i - own]]);
    }
  }

  lemma ListedNetPort(env: Env, spec: GroupRequest, vm: VMRequest, order: seq<string>, ports: seq<Port>, k: nat)
    requires PortsInOrder(env, spec, vm, ExtNets(env, vm).Keys, order, ports) && k < |ports|
    ensures order[k] in ExtNets(env, vm).Keys && IsPortOf(env, spec, vm, order[k], ports[k])
  {
  }

  /** Every attached port of a list is one of the list. */
  lemma {:induction false} AttachedIsListed(ports: seq<Port>, k: nat)
    requires k < |Attached(ports)|
    ensures exists i :: 0 <= i < |ports| && Attached(ports)[k] == PortRefOf(ports[i])
    decreases |ports|
  {
    var n := |ports| - 1;
    if k < |Attached(ports[..n])| {
      AttachedIsListed(ports[..n], k);
      var i :| 0 <= i < n && Attached(ports[..n])[k] == PortRefOf(ports[..n][i]);
      assert ports[i] == ports[..n][i];
    } else {
      assert Attached(ports)[k] == PortRefOf(ports[n]);
    }
  }

  lemma FloatingIsListed(env: Env, spec: GroupRequest, vm: VMRequest, next: nat, u: Unit, k: nat)
    requires UnitFor(env, spec, vm, next, u) && k < |u.floatingIPs|
    ensures exists i :: 0 <= i < |u.ports| && u.floatingIPs[k].port == Ref(u.ports[i].name, u.ports[i].id, false)
  {
    hide InternalPort, PortsInOrder, NetsAllowed, ExtNets;
    var m := OwnCount(env, spec, vm);
    assert u.ports[m..][k] == u.ports[m + k];
  }

  /** Adding a unit keeps what was declared and declares the unit's ports. */
  lemma DeclaredGrows(g: Group, more: seq<Port>, name: string, id: string)
    ensures DeclaresPort(g, name, id) ==> DeclaresPort(g.(ports := g.ports + more), name, id)
    ensures (exists i :: 0 <= i < |more| && more[i].name == name && more[i].id == id) ==>
      DeclaresPort(g.(ports := g.ports + more), name, id)
  {
    var h := g.(ports := g.ports + more);
    if DeclaresPort(g, name, id) {
      var i :| 0 <= i < |g.ports| && g.ports[i].name == name && g.ports[i].id == id;
      assert h.ports[i] == g.ports[i];
    }
    if i :| 0 <= i < |more| && more[i].name == name && more[i].id == id {
      assert h.ports[|g.ports| + i] == more[i];
    }
  }

  lemma PortRefGrows(g: Group, more: seq<Port>, r: PortRef)
    ensures DeclaresPortRef(g, r) ==> DeclaresPortRef(g.(ports := g.ports + more), r)
    ensures (exists i :: 0 <= i < |more| && r == PortRefOf(more[i])) ==> DeclaresPortRef(g.(ports := g.ports + more), r)
  {
    hide PortRefOf;
    var h := g.(ports := g.ports + more);
    if DeclaresPortRef(g, r) {
      var i :| 0 <= i < |g.ports| && PortRefOf(g.ports[i]) == r;
      assert h.ports[i] == g.ports[i];
    }
    if i :| 0 <= i < |more| && r == PortRefOf(more[i]) {
      assert h.ports[|g.ports| + i] == more[i];
    }
  }

  /** The references of VMs and floating IPs. */
  ghost predicate BackRefsOk(g: Group) {
    && (forall i :: 0 <= i < |g.floatingIPs| ==> DeclaresPort(g, g.floatingIPs[i].port.name, g.floatingIPs[i].port.id))
    && (forall i, k :: 0 <= i < |g.vms| && 0 <= k < |g.vms[i].ports| ==> DeclaresPortRef(g, g.vms[i].ports[k]))
  }

  lemma UnitBackRefs(env: Env, spec: GroupRequest, g: Group, vm: VMRequest, next: nat, u: Unit)
    requires UnitFor(env, spec, vm, next, u) && BackRefsOk(g)
    ensures BackRefsOk(AddUnit(env, g, vm, u))
  {
    var h := AddUnit(env, g, vm, u);
    var ports := g.(ports := h.ports);
    forall i | 0 <= i < |h.floatingIPs| ensures DeclaresPort(h, h.floatingIPs[i].port.name, h.floatingIPs[i].port.id) {
      var f := h.floatingIPs[i].port;
      if i >= |g.floatingIPs| { FloatingIsListed(env, spec, vm, next, u, i - |g.floatingIPs|); }
      DeclaredGrows(g, u.ports, f.name, f.id);
      assert DeclaresPort(ports, f.name, f.id);
    }
    forall i, k | 0 <= i < |h.vms| && 0 <= k < |h.vms[i].ports|
      ensures DeclaresPortRef(h, h.vms[i].ports[k])
    {
      var p := h.vms[i].ports[k];
      if i >= |g.vms| { AttachedIsListed(u.ports, k); }
      PortRefGrows(g, u.ports, p);
      assert DeclaresPortRef(ports, p);
    }
  }

  lemma NoBackRefs(env: Env, spec: GroupRequest)
    ensures BackRefsOk(Start(env, spec))
  {
  }

  lemma {:induction false} AllBackRefsOk(env: Env, spec: GroupRequest, units: seq<Unit>, n: nat)
    requires UnitsFor(env, spec, units) && n <= |units|
    ensures BackRefsOk(Assemble(env, spec, units, n))
    decreases n
  {
    hide UnitFor, BackRefsOk, AddUnit;
    if n == 0 {
      NoBackRefs(env, spec);
    } else {
      AllBackRefsOk(env, spec, units, n - 1);
      UnitBackRefs(env, spec, Assemble(env, spec, units, n - 1), spec.vms[n - 1], FIRST_OCTET + Takers(spec.vms, n - 1),
        units[n - 1]);
    }
  }

  lemma StartRefsOk(env: Env, spec: GroupRequest, i: nat)
    requires i < |Start(env, spec).ports|
    ensures RefsKnown(env, spec, Start(env, spec).ports[i])
  {
    NewSubnetDeclared(env, spec);
  }

  lemma {:induction false} AllRefsKnown(env: Env, spec: GroupRequest, units: seq<Unit>, n: nat, i: nat)
    requires UnitsFor(env, spec, units) && n <= |units| && i < |Assemble(env, spec, units, n).ports|
    ensures RefsKnown(env, spec, Assemble(env, spec, units, n).ports[i])
    decreases n
  {
    hide UnitFor, RefsKnown, Start;
    if n == 0 {
      StartRefsOk(env, spec, i);
    } else {
      var before := |Assemble(env, spec, units, n - 1).ports|;
      if i < before {
        AllRefsKnown(env, spec, units, n - 1, i);
      } else {
        UnitRefsOk(env, spec, spec.vms[n - 1], FIRST_OCTET + Takers(spec.vms, n - 1), units[n - 1], i - before);
      }
    }
  }

  /** A compiled group has no dangling reference, and every external port has a security group. */
  lemma NoDanglingReference(env: Env, spec: GroupRequest, units: seq<Unit>)
    requires |units| == |spec.vms| && UnitsFor(env, spec, units)
    ensures NoDangling(Assemble(env, spec, units, |units|))
  {
    var g := Assemble(env, spec, units, |units|);
    AllBackRefsOk(env, spec, units, |units|);
    AssembleDeclares(env, spec, units, |units|);
    forall i | 0 <= i < |g.ports| ensures PortRefsOk(g.subnets, g.securityGroups, g.ports[i]) {
      AllRefsKnown(env, spec, units, |units|, i);
    }
    if RouterInUse(env, spec) {
      assert g.ports[0] == g.ports[..1][0];
      assert DeclaresPortName(g, RouterPortName(spec));
    }
  }

  // ---------------------------------------------------------------------------------------------
  // Every VM is connected
  // ---------------------------------------------------------------------------------------------

  lemma {:induction false} AttachedUnlessSkipped(ports: seq<Port>, i: nat)
    requires i < |ports| && !ports[i].skipAttachVM
    ensures PortRefOf(ports[i]) in Attached(ports)
    decreases |ports|
  {
    var n := |ports| - 1;
    if i < n {
      AttachedUnlessSkipped(ports[..n], i);
    }
  }

  lemma NetworkHasPort(env: Env, spec: GroupRequest, vm: VMRequest, next: nat, u: Unit, net: string)
    requires UnitFor(env, spec, vm, next, u) && net in ExtNets(env, vm)
    ensures PortRefOf(ExternalPort(env, spec, vm, net, ExtNets(env, vm)[net])) in Attached(u.ports)
  {
    var own := OwnCount(env, spec, vm);
    assert net in Elems(u.order);
    var i :| 0 <= i < |u.order| && u.order[i] == net;
    hide InternalPort, NetsAllowed, FloatingFor, Attached;
    ListedNetPort(env, spec, vm, u.order, u.ports[own..], i);
    AttachedUnlessSkipped(u.ports, own + i);
  }

  lemma {:induction false} BuiltOnce(env: Env, spec: GroupRequest, units: seq<Unit>, v: nat, n: nat)
    requires v < n <= |units| <= |spec.vms| && !spec.vms[v].createPortsOnly
    ensures BuildVM(env, spec.vms[v], units[v].ports) in Assemble(env, spec, units, n).vms
    decreases n
  {
    hide BuildVM, Start;
    if v < n - 1 { BuiltOnce(env, spec, units, v, n - 1); }
  }

  /** The built VM has an interface on the external network. */
  predicate Serves(env: Env, spec: GroupRequest, vm: VMRequest, net: string, m: VM)
    requires net in ExtNets(env, vm)
  {
    && m.name == env.nameSanitize(vm.name)
    && PortRefOf(ExternalPort(env, spec, vm, net, ExtNets(env, vm)[net])) in m.ports
  }

  /** Every VM that is built has an interface on each external network it asked for. */
  lemma EveryNetworkServed(env: Env, spec: GroupRequest, units: seq<Unit>, v: nat, net: string)
    requires |units| == |spec.vms| && UnitsFor(env, spec, units)
    requires v < |units| && !spec.vms[v].createPortsOnly && net in ExtNets(env, spec.vms[v])
    ensures exists m :: m in Assemble(env, spec, units, |units|).vms && Serves(env, spec, spec.vms[v], net, m)
  {
    hide UnitFor, Attached, AttachedIPs, Assemble, ExternalPort, ExtNets, PortName;
    BuiltOnce(env, spec, units, v, |units|);
    NetworkHasPort(env, spec, spec.vms[v], FIRST_OCTET + Takers(spec.vms, v), units[v], net);
    assert BuildVM(env, spec.vms[v], units[v].ports).ports == Attached(units[v].ports);
  }
}
