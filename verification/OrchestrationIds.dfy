/**
 Which ports a compiled group has, and when the ids that its references carry are those of what they
 refer to: the compiler sanitizes the ids it declares, but refers to the router's port and to the new
 subnet by their raw names.
 */
module OrchestrationIds {
  import opened Options
  import opened Orchestration
  import opened Seqs

  // ---------------------------------------------------------------------------------------------
  // The ports of a group
  // ---------------------------------------------------------------------------------------------

  /** The port is the VM's internal one, or on one of its external networks. */
  ghost predicate IsVMPort(env: Env, spec: GroupRequest, v: nat, p: Port)
    requires v < |spec.vms|
  {
    var vm := spec.vms[v];
    || (HasInternalPort(env, spec, vm) && p == InternalPort(env, spec, vm, FIRST_OCTET + Takers(spec.vms, v)))
    || exists net :: IsPortOf(env, spec, vm, net, p)
  }

  lemma OnlyVMPorts(env: Env, spec: GroupRequest, v: nat, u: Unit, i: nat)
    requires v < |spec.vms| && UnitFor(env, spec, spec.vms[v], FIRST_OCTET + Takers(spec.vms, v), u)
    requires i < |u.ports|
    ensures IsVMPort(env, spec, v, u.ports[i])
  {
    hide InternalPort, ExternalPort, ExtNets, Takers, FloatingFor, NetsAllowed, PortsInOrder, IsPortOf;
    var own := OwnCount(env, spec, spec.vms[v]);
    if i >= own { ListedNetPort(env, spec, spec.vms[v], u.order, u.ports[own..], i - own); }
  }

  lemma NetPortListed(env: Env, spec: GroupRequest, vm: VMRequest, order: seq<string>, ports: seq<Port>, net: string,
      p: Port)
    requires PortsInOrder(env, spec, vm, ExtNets(env, vm).Keys, order, ports) && IsPortOf(env, spec, vm, net, p)
    ensures p in ports
  {
    hide ExternalPort, ExtNets;
    assert net in Elems(order) by { assert net in ExtNets(env, vm).Keys; }
    var i :| 0 <= i < |order| && order[i] == net;
    ListedNetPort(env, spec, vm, order, ports, i);
    assert ports[i] == p;
  }

  lemma EveryVMPort(env: Env, spec: GroupRequest, v: nat, u: Unit, p: Port)
    requires v < |spec.vms| && UnitFor(env, spec, spec.vms[v], FIRST_OCTET + Takers(spec.vms, v), u)
    requires IsVMPort(env, spec, v, p)
    ensures p in u.ports
  {
    hide InternalPort, ExternalPort, ExtNets, Takers, FloatingFor, NetsAllowed, PortsInOrder, IsPortOf;
    var own := OwnCount(env, spec, spec.vms[v]);
    if net :| IsPortOf(env, spec, spec.vms[v], net, p) {
      NetPortListed(env, spec, spec.vms[v], u.order, u.ports[own..], net, p);
    }
  }

  lemma UnitPorts(env: Env, spec: GroupRequest, v: nat, u: Unit, p: Port)
    requires v < |spec.vms| && UnitFor(env, spec, spec.vms[v], FIRST_OCTET + Takers(spec.vms, v), u)
    ensures p in u.ports <==> IsVMPort(env, spec, v, p)
  {
    hide UnitFor, IsVMPort, Takers;
    if i :| 0 <= i < |u.ports| && u.ports[i] == p { OnlyVMPorts(env, spec, v, u, i); }
    if IsVMPort(env, spec, v, p) { EveryVMPort(env, spec, v, u, p); }
  }

  lemma {:induction false} PortsUpTo(env: Env, spec: GroupRequest, units: seq<Unit>, n: nat, p: Port)
    requires n <= |units| <= |spec.vms|
    ensures p in Assemble(env, spec, units, n).ports <==>
      p in Start(env, spec).ports || exists v :: 0 <= v < n && p in units[v].ports
    decreases n
  {
    hide Start;
    if n > 0 {
      PortsUpTo(env, spec, units, n - 1, p);
      if v :| 0 <= v < n && p in units[v].ports {
        assert v == n - 1 || v < n - 1;
      }
    }
  }

  /** A compiled group has exactly the router's port, if a router is in use, and each VM's ports. */
  lemma GroupPortsExactly(env: Env, spec: GroupRequest, units: seq<Unit>, p: Port)
    requires |units| == |spec.vms| && UnitsFor(env, spec, units)
    ensures p in Assemble(env, spec, units, |units|).ports <==>
      || (RouterInUse(env, spec) && p == RouterPort(env, spec))
      || exists v :: 0 <= v < |spec.vms| && IsVMPort(env, spec, v, p)
  {
    hide UnitFor, IsVMPort, Assemble, RouterPort;
    PortsUpTo(env, spec, units, |units|, p);
    forall v | 0 <= v < |units| ensures p in units[v].ports <==> IsVMPort(env, spec, v, p) {
      UnitPorts(env, spec, v, units[v], p);
    }
  }

  // ---------------------------------------------------------------------------------------------
  // The router interface
  // ---------------------------------------------------------------------------------------------

  /** A port of the VM has this name and the same text for its id. */
  predicate HasRawPort(env: Env, spec: GroupRequest, vm: VMRequest, name: string) {
    || (HasInternalPort(env, spec, vm) && PortName(vm.name, vm.connectToSubnet) == name
        && name == if IsNode(vm.nodeType) then env.idSanitize(name) else env.nameSanitize(name))
    || ((if env.floatingIpNet != "" then env.nameSanitize(name) else env.idSanitize(name)) == name
        && exists net :: net in ExtNets(env, vm) && PortName(vm.name, net) == name)
  }

  lemma RawPort(env: Env, spec: GroupRequest, v: nat, name: string)
    requires v < |spec.vms|
    ensures HasRawPort(env, spec, spec.vms[v], name) <==>
      exists p :: IsVMPort(env, spec, v, p) && p.name == name == p.id
  {
    hide PortName, ExtNets, Takers, InternalGroups, HasInternalPort;
    var vm := spec.vms[v];
    var own := InternalPort(env, spec, vm, FIRST_OCTET + Takers(spec.vms, v));
    if HasInternalPort(env, spec, vm) && own.name == name == own.id {
      assert IsVMPort(env, spec, v, own);
    }
    forall net | net in ExtNets(env, vm)
      ensures IsVMPort(env, spec, v, ExternalPort(env, spec, vm, net, ExtNets(env, vm)[net]))
    {
      assert IsPortOf(env, spec, vm, net, ExternalPort(env, spec, vm, net, ExtNets(env, vm)[net]));
    }
  }

  /**
   The one router interface is to the router's own port, by name. Its id is that of a declared port of
   that name exactly if sanitizing the name changes nothing, or some VM's port happens to have that
   very name and id.
   */
  lemma RouterIdExactly(env: Env, spec: GroupRequest, units: seq<Unit>)
    requires |units| == |spec.vms| && UnitsFor(env, spec, units) && RouterInUse(env, spec)
    ensures var g, name := Assemble(env, spec, units, |units|), RouterPortName(spec);
      && g.routerPorts == [Ref(name, name, false)]
      && g.ports != [] && g.ports[0].name == name && g.ports[0].id == env.idSanitize(name)
      && (DeclaresPort(g, name, name) <==>
           env.idSanitize(name) == name || exists v :: 0 <= v < |spec.vms| && HasRawPort(env, spec, spec.vms[v], name))
  {
    hide UnitsFor, Assemble, IsVMPort, HasRawPort, RouterPortName;
    var g, name := Assemble(env, spec, units, |units|), RouterPortName(spec);
    AssembleDeclares(env, spec, units, |units|);
    assert g.ports[0] == g.ports[..1][0];
    DeclaredPort(g, name, name);
    if p :| p in g.ports && p.name == name == p.id {
      GroupPortsExactly(env, spec, units, p);
      if v :| 0 <= v < |spec.vms| && IsVMPort(env, spec, v, p) { RawPort(env, spec, v, name); }
    }
    if v :| 0 <= v < |spec.vms| && HasRawPort(env, spec, spec.vms[v], name) {
      RawPort(env, spec, v, name);
      var p :| IsVMPort(env, spec, v, p) && p.name == name == p.id;
      GroupPortsExactly(env, spec, units, p);
    }
  }

  lemma DeclaredPort(g: Group, name: string, id: string)
    ensures DeclaresPort(g, name, id) <==> exists p :: p in g.ports && p.name == name && p.id == id
  {
    if p :| p in g.ports && p.name == name && p.id == id {
      var i :| 0 <= i < |g.ports| && g.ports[i] == p;
    }
  }

  // ---------------------------------------------------------------------------------------------
  // Subnets
  // ---------------------------------------------------------------------------------------------

  /** References to new subnets, made by name, carry the ids declared. */
  predicate NamesAgree(subnets: seq<Subnet>, ips: seq<FixedIP>) {
    forall i :: 0 <= i < |ips| && !ips[i].subnet.preexisting ==> Subnet(ips[i].subnet.name, ips[i].subnet.id) in subnets
  }

  /** A subnet id is empty or declared. */
  predicate IdAgrees(subnets: seq<Subnet>, id: string) {
    id == "" || exists i :: 0 <= i < |subnets| && subnets[i].id == id
  }

  predicate PortAgrees(subnets: seq<Subnet>, p: Port) {
    NamesAgree(subnets, p.fixedIPs) && IdAgrees(subnets, p.subnetId)
  }

  predicate VMAgrees(subnets: seq<Subnet>, m: VM) {
    NamesAgree(subnets, m.fixedIPs) && forall k :: 0 <= k < |m.ports| ==> IdAgrees(subnets, m.ports[k].subnetId)
  }

  /** Whatever in the group refers to a new subnet carries an id that is declared. */
  ghost predicate SubnetRefsAgree(g: Group) {
    (forall p :: p in g.ports ==> PortAgrees(g.subnets, p)) && (forall m :: m in g.vms ==> VMAgrees(g.subnets, m))
  }

  predicate JoinsNewSubnet(env: Env, spec: GroupRequest, vm: VMRequest) {
    HasInternalPort(env, spec, vm) && vm.connectToSubnet == spec.newSubnetName
  }

  /** The VM's internal port has a subnet id, whatever subnet it is on. */
  predicate CarriesSubnetId(env: Env, spec: GroupRequest, vm: VMRequest) {
    HasInternalPort(env, spec, vm) && (IsLB(vm.nodeType) ==> env.attachPortDuringCreate)
  }

  /** References by name carry the declared id. */
  predicate IdIsName(env: Env, spec: GroupRequest) {
    env.idSanitize(spec.newSubnetName) == spec.newSubnetName
  }

  /** The subnet id of internal ports is empty, or that of the new subnet. */
  predicate SanitizedAlike(env: Env, spec: GroupRequest) {
    var id := env.nameSanitize(spec.newSubnetName);
    id == "" || (spec.newSubnetName != "" && id == env.idSanitize(spec.newSubnetName))
  }

  lemma NewSubnetsOnly(env: Env, spec: GroupRequest)
    ensures Start(env, spec).subnets ==
      if spec.newSubnetName != "" then [Subnet(spec.newSubnetName, env.idSanitize(spec.newSubnetName))] else []
  {
  }

  /** A port with one address agrees exactly if the subnet is an old one, or sanitizing changes nothing. */
  lemma OneAddressAgrees(env: Env, spec: GroupRequest, ips: seq<FixedIP>)
    requires |ips| == 1
    requires ips[0].subnet.preexisting || ips[0].subnet.name == ips[0].subnet.id == spec.newSubnetName != ""
    ensures NamesAgree(Start(env, spec).subnets, ips) <==> ips[0].subnet.preexisting || IdIsName(env, spec)
  {
    hide Start;
    NewSubnetsOnly(env, spec);
  }

  lemma OneIdAgrees(env: Env, spec: GroupRequest, id: string)
    ensures IdAgrees(Start(env, spec).subnets, id) <==>
      id == "" || (spec.newSubnetName != "" && id == env.idSanitize(spec.newSubnetName))
  {
    hide Start;
    NewSubnetsOnly(env, spec);
    var subnets := Start(env, spec).subnets;
    if spec.newSubnetName != "" { assert subnets[0].id == env.idSanitize(spec.newSubnetName); }
  }

  /** An internal port agrees exactly if what refers to the new subnet on it does. */
  lemma InternalPortAgrees(env: Env, spec: GroupRequest, vm: VMRequest, next: nat)
    requires HasInternalPort(env, spec, vm)
    ensures PortAgrees(Start(env, spec).subnets, InternalPort(env, spec, vm, next)) <==>
      && (JoinsNewSubnet(env, spec, vm) ==> IdIsName(env, spec))
      && (CarriesSubnetId(env, spec, vm) ==> SanitizedAlike(env, spec))
  {
    hide PortName, InternalGroups, Octet, Start, NamesAgree, IdAgrees;
    var p := InternalPort(env, spec, vm, next);
    OneAddressAgrees(env, spec, p.fixedIPs);
    OneIdAgrees(env, spec, p.subnetId);
  }

  lemma RouterPortAgrees(env: Env, spec: GroupRequest)
    requires RouterInUse(env, spec)
    ensures PortAgrees(Start(env, spec).subnets, RouterPort(env, spec)) <==> IdIsName(env, spec)
  {
    hide RouterPortName, Start, NamesAgree, IdAgrees;
    OneAddressAgrees(env, spec, RouterPort(env, spec).fixedIPs);
    OneIdAgrees(env, spec, RouterPort(env, spec).subnetId);
  }

  lemma ExternalPortAgrees(env: Env, spec: GroupRequest, vm: VMRequest, net: string, p: Port)
    requires IsPortOf(env, spec, vm, net, p)
    ensures PortAgrees(Start(env, spec).subnets, p)
  {
    hide PortName, ExtNets, Start;
  }

  lemma VMPortAgrees(env: Env, spec: GroupRequest, v: nat, p: Port)
    requires v < |spec.vms| && IsVMPort(env, spec, v, p)
    requires JoinsNewSubnet(env, spec, spec.vms[v]) ==> IdIsName(env, spec)
    requires CarriesSubnetId(env, spec, spec.vms[v]) ==> SanitizedAlike(env, spec)
    ensures PortAgrees(Start(env, spec).subnets, p)
  {
    hide InternalPort, Takers, Start, PortAgrees, IsPortOf;
    var vm, next := spec.vms[v], FIRST_OCTET + Takers(spec.vms, v);
    if HasInternalPort(env, spec, vm) && p == InternalPort(env, spec, vm, next) {
      InternalPortAgrees(env, spec, vm, next);
    } else {
      var net :| IsPortOf(env, spec, vm, net, p);
      ExternalPortAgrees(env, spec, vm, net, p);
    }
  }

  lemma InternalIsVMPort(env: Env, spec: GroupRequest, v: nat)
    requires v < |spec.vms| && HasInternalPort(env, spec, spec.vms[v])
    ensures IsVMPort(env, spec, v, InternalPort(env, spec, spec.vms[v], FIRST_OCTET + Takers(spec.vms, v)))
  {
  }

  /** A VM copies its references from its ports. */
  lemma {:induction false} AttachedAgree(subnets: seq<Subnet>, ports: seq<Port>)
    requires forall p :: p in ports ==> PortAgrees(subnets, p)
    ensures NamesAgree(subnets, AttachedIPs(ports))
    ensures forall k :: 0 <= k < |Attached(ports)| ==> IdAgrees(subnets, Attached(ports)[k].subnetId)
    decreases |ports|
  {
    hide IdAgrees;
    if ports != [] {
      AttachedAgree(subnets, ports[..|ports| - 1]);
      assert PortAgrees(subnets, ports[|ports| - 1]);
    }
  }

  lemma {:induction false} BuiltFrom(env: Env, spec: GroupRequest, units: seq<Unit>, n: nat, m: VM)
    requires n <= |units| <= |spec.vms| && m in Assemble(env, spec, units, n).vms
    ensures exists v :: 0 <= v < n && m == BuildVM(env, spec.vms[v], units[v].ports)
    decreases n
  {
    hide BuildVM;
    if n > 0 && m in Assemble(env, spec, units, n - 1).vms {
      BuiltFrom(env, spec, units, n - 1, m);
    }
  }

  lemma VMsAgree(env: Env, spec: GroupRequest, units: seq<Unit>, m: VM)
    requires |units| == |spec.vms| && UnitsFor(env, spec, units)
    requires m in Assemble(env, spec, units, |units|).vms
    requires forall p :: p in Assemble(env, spec, units, |units|).ports ==> PortAgrees(Start(env, spec).subnets, p)
    ensures VMAgrees(Start(env, spec).subnets, m)
  {
    hide UnitsFor, Assemble, Start, PortAgrees, NamesAgree, IdAgrees, Attached, AttachedIPs;
    BuiltFrom(env, spec, units, |units|, m);
    var v :| 0 <= v < |units| && m == BuildVM(env, spec.vms[v], units[v].ports);
    forall p | p in units[v].ports ensures PortAgrees(Start(env, spec).subnets, p) {
      PortsUpTo(env, spec, units, |units|, p);
    }
    AttachedAgree(Start(env, spec).subnets, units[v].ports);
  }

  /** Something refers to the new subnet by name: the router, or a VM that joins it. */
  predicate RefersByName(env: Env, spec: GroupRequest) {
    RouterInUse(env, spec) || exists v :: 0 <= v < |spec.vms| && JoinsNewSubnet(env, spec, spec.vms[v])
  }

  /** Something refers to it by id: any VM with an internal port, but load balancers attached later. */
  predicate RefersById(env: Env, spec: GroupRequest) {
    exists v :: 0 <= v < |spec.vms| && CarriesSubnetId(env, spec, spec.vms[v])
  }

  lemma GuardedPortsAgree(env: Env, spec: GroupRequest, units: seq<Unit>, p: Port)
    requires |units| == |spec.vms| && UnitsFor(env, spec, units)
    requires p in Assemble(env, spec, units, |units|).ports
    requires RefersByName(env, spec) ==> IdIsName(env, spec)
    requires RefersById(env, spec) ==> SanitizedAlike(env, spec)
    ensures PortAgrees(Start(env, spec).subnets, p)
  {
    hide UnitsFor, Assemble, IsVMPort, RouterPort, RouterInUse, Start, PortAgrees, JoinsNewSubnet, CarriesSubnetId;
    hide IdIsName, SanitizedAlike;
    GroupPortsExactly(env, spec, units, p);
    if RouterInUse(env, spec) && p == RouterPort(env, spec) {
      RouterPortAgrees(env, spec);
    } else {
      var v :| 0 <= v < |spec.vms| && IsVMPort(env, spec, v, p);
      VMPortAgrees(env, spec, v, p);
    }
  }

  /** A VM's internal port is one of the group's. */
  lemma InternalPortThere(env: Env, spec: GroupRequest, units: seq<Unit>, v: nat) returns (p: Port)
    requires |units| == |spec.vms| && UnitsFor(env, spec, units)
    requires v < |spec.vms| && HasInternalPort(env, spec, spec.vms[v])
    ensures p in Assemble(env, spec, units, |units|).ports
    ensures p == InternalPort(env, spec, spec.vms[v], FIRST_OCTET + Takers(spec.vms, v))
    ensures PortAgrees(Start(env, spec).subnets, p) <==>
      && (JoinsNewSubnet(env, spec, spec.vms[v]) ==> IdIsName(env, spec))
      && (CarriesSubnetId(env, spec, spec.vms[v]) ==> SanitizedAlike(env, spec))
  {
    hide UnitsFor, Assemble, IsVMPort, InternalPort, Start, PortAgrees, JoinsNewSubnet, CarriesSubnetId;
    hide IdIsName, SanitizedAlike;
    var next := FIRST_OCTET + Takers(spec.vms, v);
    p := InternalPort(env, spec, spec.vms[v], next);
    InternalIsVMPort(env, spec, v);
    GroupPortsExactly(env, spec, units, p);
    InternalPortAgrees(env, spec, spec.vms[v], next);
  }

  /**
   Every reference to a new subnet, on ports and on VMs, by name and by id, carries a declared id exactly
   if two things hold. Whenever the router or a VM joins the new subnet, sanitizing its name as an id
   changes nothing. And whenever a VM has an internal port, on whatever subnet, unless it is a load
   balancer attached later, the name sanitizes to nothing, or there is a new subnet and its name sanitizes
   alike as a name and as an id.
   */
  lemma SubnetIdsExactly(env: Env, spec: GroupRequest, units: seq<Unit>)
    requires |units| == |spec.vms| && UnitsFor(env, spec, units)
    ensures SubnetRefsAgree(Assemble(env, spec, units, |units|)) <==>
      && (RefersByName(env, spec) ==> IdIsName(env, spec))
      && (RefersById(env, spec) ==> SanitizedAlike(env, spec))
  {
    hide UnitsFor, Assemble, IsVMPort, InternalPort, RouterPort, RouterInUse, HasInternalPort, Takers, Start,
      PortAgrees, VMAgrees, IdIsName, SanitizedAlike;
    var g := Assemble(env, spec, units, |units|);
    AssembleDeclares(env, spec, units, |units|);
    if (RefersByName(env, spec) ==> IdIsName(env, spec)) && (RefersById(env, spec) ==> SanitizedAlike(env, spec)) {
      forall p | p in g.ports ensures PortAgrees(g.subnets, p) { GuardedPortsAgree(env, spec, units, p); }
      forall m | m in g.vms ensures VMAgrees(g.subnets, m) { VMsAgree(env, spec, units, m); }
    }
    if RouterInUse(env, spec) {
      GroupPortsExactly(env, spec, units, RouterPort(env, spec));
      RouterPortAgrees(env, spec);
    }
    if v :| 0 <= v < |spec.vms| && JoinsNewSubnet(env, spec, spec.vms[v]) {
      var p := InternalPortThere(env, spec, units, v);
    }
    if v :| 0 <= v < |spec.vms| && CarriesSubnetId(env, spec, spec.vms[v]) {
      var p := InternalPortThere(env, spec, units, v);
    }
  }

  // ---------------------------------------------------------------------------------------------
  // Ids that do not agree
  // ---------------------------------------------------------------------------------------------

  function DotsToDashes(s: string): string {
    seq(|s|, i requires 0 <= i < |s| => if s[i] == '.' then '-' else s[i])
  }

  /** A provider that allows dots in names and not in ids. */
  function Dotless(router: Router): Env {
    Env(1, "cloudlet-sg", true, true, "", router, true, true, true, false, "internal", "external", s => true, s => s,
      DotsToDashes)
  }

  /** A group of no VMs with a subnet that has a dot in its name. */
  const DOTTED: GroupRequest := GroupRequest([], "a.b", "", true, false)

  /** With a router, neither its reference nor the one to the subnet carries an id that is declared. */
  lemma IdsNeedNotAgree()
    ensures var env, g := Dotless(ManagedRouter), Assemble(Dotless(ManagedRouter), DOTTED, [], 0);
      && UnitsFor(env, DOTTED, []) && SpecError(env, DOTTED) == None
      && |g.routerPorts| == 1 && !DeclaresPort(g, g.routerPorts[0].name, g.routerPorts[0].id)
      && !SubnetRefsAgree(g)
  {
    var env, name := Dotless(ManagedRouter), RouterPortName(DOTTED);
    assert name[1] == '.' && DotsToDashes(name)[1] == '-';
    assert "a.b"[1] == '.' && DotsToDashes("a.b")[1] == '-';
    RouterIdExactly(env, DOTTED, []);
    SubnetIdsExactly(env, DOTTED, []);
  }

  /** A Kubernetes node on an old subnet, in a group with such a new one. */
  const ON_OLD: VMRequest := VMRequest("n", K8sNode, false, false, "old", map[])
  const DOTTED_ASIDE: GroupRequest := GroupRequest([ON_OLD], "a.b", "", true, false)

  /** Though nothing joins the new subnet, the node's port and the node itself refer to it by an id that nothing has. */
  lemma NodeOnOldSubnet(units: seq<Unit>)
    requires units == [Unit([InternalPort(Dotless(NoRouter), DOTTED_ASIDE, ON_OLD, FIRST_OCTET)], [], [])]
    ensures var env, spec := Dotless(NoRouter), DOTTED_ASIDE;
      && UnitsFor(env, spec, units) && SpecError(env, spec) == None && !Rejected(env, spec, ON_OLD)
      && !RefersByName(env, spec)
    ensures var g := Assemble(Dotless(NoRouter), DOTTED_ASIDE, units, 1);
      && g.subnets == [Subnet("a.b", DotsToDashes("a.b"))] && DotsToDashes("a.b") != "a.b"
      && |g.ports| == 1 && g.ports[0].subnetId == "a.b"
      && |g.vms| == 1 && |g.vms[0].ports| == 1 && g.vms[0].ports[0].subnetId == "a.b"
      && !SubnetRefsAgree(g)
  {
    var env, spec := Dotless(NoRouter), DOTTED_ASIDE;
    assert "a.b"[1] == '.' && DotsToDashes("a.b")[1] == '-';
    NodeUnit(units);
    NodeAssembled(units);
    assert CarriesSubnetId(env, spec, spec.vms[0]);
    hide Assemble, UnitsFor;
    SubnetIdsExactly(env, spec, units);
  }

  lemma NodeUnit(units: seq<Unit>)
    requires units == [Unit([InternalPort(Dotless(NoRouter), DOTTED_ASIDE, ON_OLD, FIRST_OCTET)], [], [])]
    ensures UnitsFor(Dotless(NoRouter), DOTTED_ASIDE, units)
  {
    assert Takers(DOTTED_ASIDE.vms, 0) == 0;
    assert ExtNets(Dotless(NoRouter), ON_OLD) == map[];
    assert units[0].ports[1..] == [];
  }

  lemma NodeAssembled(units: seq<Unit>)
    requires units == [Unit([InternalPort(Dotless(NoRouter), DOTTED_ASIDE, ON_OLD, FIRST_OCTET)], [], [])]
    ensures var g := Assemble(Dotless(NoRouter), DOTTED_ASIDE, units, 1);
      && g.subnets == [Subnet("a.b", DotsToDashes("a.b"))]
      && g.ports == units[0].ports && g.ports[0].subnetId == "a.b"
      && |g.vms| == 1 && g.vms[0].ports == [PortRefOf(units[0].ports[0])]
  {
    var env, spec := Dotless(NoRouter), DOTTED_ASIDE;
    var ports := units[0].ports;
    assert Assemble(env, spec, units, 0) == Start(env, spec);
    assert ports[..0] == [] && Attached(ports[..0]) == [];
    assert Attached(ports) == [PortRefOf(ports[0])];
  }
}
