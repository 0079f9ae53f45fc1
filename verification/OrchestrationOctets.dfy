/** The last octets that the compiler hands out on a group's subnets. */
module OrchestrationOctets {
  import opened Orchestration
  import opened Options

  // ---------------------------------------------------------------------------------------------
  // Running octets
  // ---------------------------------------------------------------------------------------------

  /** The port's last octet, if it has one from the running count. */
  function Running(p: Port): seq<nat> {
    if |p.fixedIPs| == 1 && p.fixedIPs[0].lastOctet >= FIRST_OCTET then [p.fixedIPs[0].lastOctet] else []
  }

  /** The running octets of a list of ports, in port order. */
  function RunningOctets(ports: seq<Port>): seq<nat> {
    if ports == [] then [] else RunningOctets(ports[..|ports| - 1]) + Running(ports[|ports| - 1])
  }

  function UpFrom(first: nat, count: nat): seq<nat> {
    seq(count, i requires 0 <= i => first + i)
  }

  lemma UpFromStep(first: nat, count: nat)
    ensures UpFrom(first, 0) == []
    ensures UpFrom(first, count + 1) == UpFrom(first, count) + [first + count]
  {
  }

  lemma {:induction false} RunningOfBoth(a: seq<Port>, b: seq<Port>)
    ensures RunningOctets(a + b) == RunningOctets(a) + RunningOctets(b)
    decreases |b|
  {
    hide Running;
    if b == [] {
      assert a + b == a;
    } else {
      var n := |b| - 1;
      RunningOfBoth(a, b[..n]);
      var all := a + b;
      assert all[..|all| - 1] == a + b[..n] && all[|all| - 1] == b[n];
    }
  }

  /** External ports take no octet. */
  lemma {:induction false} NoneRunning(ports: seq<Port>)
    requires forall i :: 0 <= i < |ports| ==> ports[i].fixedIPs == []
    ensures RunningOctets(ports) == []
    decreases |ports|
  {
    if ports != [] { NoneRunning(ports[..|ports| - 1]); }
  }

  lemma RunningOfOwn(env: Env, spec: GroupRequest, vm: VMRequest, next: nat)
    requires HasInternalPort(env, spec, vm) && next >= FIRST_OCTET
    ensures Running(InternalPort(env, spec, vm, next)) == if TakesOctet(vm) then [next] else []
  {
  }

  lemma NetPortsBare(env: Env, spec: GroupRequest, vm: VMRequest, next: nat, u: Unit, i: nat)
    requires UnitFor(env, spec, vm, next, u) && OwnCount(env, spec, vm) <= i < |u.ports|
    ensures u.ports[i].fixedIPs == [] && u.ports[i].external
  {
    var own := OwnCount(env, spec, vm);
    ListedNetPort(env, spec, vm, u.order, u.ports[own..], i - own);
  }

  lemma RunningOfUnit(env: Env, spec: GroupRequest, vm: VMRequest, next: nat, u: Unit)
    requires UnitFor(env, spec, vm, next, u) && next >= FIRST_OCTET
    ensures RunningOctets(u.ports) == if TakesOctet(vm) then [next] else []
  {
    var own := OwnCount(env, spec, vm);
    forall i | own <= i < |u.ports| ensures u.ports[i].fixedIPs == [] {
      NetPortsBare(env, spec, vm, next, u, i);
    }
    hide RunningOctets, InternalPort, ExternalUnit, TakesOctet;
    if own == 1 {
      OwnPortFirst(env, spec, vm, next, u);
      FirstOnlyRunning(u.ports);
      RunningOfOwn(env, spec, vm, next);
    } else {
      NoneRunning(u.ports);
      NoOwnNoOctet(env, spec, vm);
    }
  }

  lemma NoOwnNoOctet(env: Env, spec: GroupRequest, vm: VMRequest)
    ensures !HasInternalPort(env, spec, vm) ==> !TakesOctet(vm)
  {
  }

  lemma FirstOnlyRunning(ports: seq<Port>)
    requires ports != [] && forall i :: 1 <= i < |ports| ==> ports[i].fixedIPs == []
    ensures RunningOctets(ports) == Running(ports[0])
  {
    NoneRunning(ports[1..]);
    RunningOfBoth(ports[..1], ports[1..]);
    OneRunning(ports[..1]);
    assert ports == ports[..1] + ports[1..];
  }

  lemma OneRunning(ports: seq<Port>)
    requires |ports| == 1
    ensures RunningOctets(ports) == Running(ports[0])
  {
    assert ports[..0] == [];
  }

  lemma RunningAtStart(env: Env, spec: GroupRequest)
    ensures RunningOctets(Start(env, spec).ports) == []
  {
    if RouterInUse(env, spec) { OneRunning(Start(env, spec).ports); }
  }

  /**
   Over all ports of the group, in order, the octets of node and app VM ports are exactly 101, 102, ...,
   100 + k, where k VMs of the request want one; no other port has an octet above 100.
   */
  lemma {:induction false} RunningOctetsInOrder(env: Env, spec: GroupRequest, units: seq<Unit>, n: nat)
    requires UnitsFor(env, spec, units) && n <= |units|
    ensures RunningOctets(Assemble(env, spec, units, n).ports) == UpFrom(FIRST_OCTET, Takers(spec.vms, n))
    decreases n
  {
    hide UnitFor, RunningOctets, UpFrom, TakesOctet, Start;
    if n == 0 {
      RunningAtStart(env, spec);
      UpFromStep(FIRST_OCTET, 0);
    } else {
      UpFromStep(FIRST_OCTET, Takers(spec.vms, n - 1));
      RunningOctetsInOrder(env, spec, units, n - 1);
      RunningOfUnit(env, spec, spec.vms[n - 1], FIRST_OCTET + Takers(spec.vms, n - 1), units[n - 1]);
      RunningOfBoth(Assemble(env, spec, units, n - 1).ports, units[n - 1].ports);
    }
  }

  // ---------------------------------------------------------------------------------------------
  // Clashes on a subnet
  // ---------------------------------------------------------------------------------------------

  /** Where the ports of VM v begin. */
  function Offset(env: Env, spec: GroupRequest, units: seq<Unit>, v: nat): nat
    requires v <= |units| <= |spec.vms|
  {
    |Assemble(env, spec, units, v).ports|
  }

  lemma {:induction false} EarlierPortsStay(env: Env, spec: GroupRequest, units: seq<Unit>, v: nat, n: nat)
    requires v <= n <= |units| <= |spec.vms|
    ensures Offset(env, spec, units, v) <= Offset(env, spec, units, n)
    ensures forall i :: 0 <= i < Offset(env, spec, units, v) ==>
      Assemble(env, spec, units, n).ports[i] == Assemble(env, spec, units, v).ports[i]
    decreases n - v
  {
    if v < n { EarlierPortsStay(env, spec, units, v, n - 1); }
  }

  /** A VM with an internal port has it as the first of its ports. */
  lemma OwnPortAt(env: Env, spec: GroupRequest, units: seq<Unit>, v: nat, n: nat)
    requires UnitsFor(env, spec, units) && v < n <= |units| && HasInternalPort(env, spec, spec.vms[v])
    ensures Offset(env, spec, units, v) < Offset(env, spec, units, v + 1) <= Offset(env, spec, units, n)
    ensures Assemble(env, spec, units, n).ports[Offset(env, spec, units, v)]
      == InternalPort(env, spec, spec.vms[v], FIRST_OCTET + Takers(spec.vms, v))
  {
    hide UnitFor, InternalPort;
    EarlierPortsStay(env, spec, units, v + 1, n);
    OwnPortFirst(env, spec, spec.vms[v], FIRST_OCTET + Takers(spec.vms, v), units[v]);
  }

  lemma OwnPortFirst(env: Env, spec: GroupRequest, vm: VMRequest, next: nat, u: Unit)
    requires UnitFor(env, spec, vm, next, u) && HasInternalPort(env, spec, vm)
    ensures |u.ports| > 0 && u.ports[0] == InternalPort(env, spec, vm, next)
  {
  }

  datatype Origin = FromRouter | FromVM(v: nat)

  /** Port a of the group is the router's, or the internal port of a VM. */
  ghost predicate ComesFrom(env: Env, spec: GroupRequest, units: seq<Unit>, n: nat, a: nat, o: Origin)
    requires n <= |units| <= |spec.vms|
  {
    match o
    case FromRouter => RouterInUse(env, spec) && a == 0
    case FromVM(v) => v < n && HasInternalPort(env, spec, spec.vms[v]) && a == Offset(env, spec, units, v)
  }

  /** Every port with an address comes from the router or a VM. */
  lemma {:induction false} PortOrigin(env: Env, spec: GroupRequest, units: seq<Unit>, n: nat, a: nat)
      returns (o: Origin)
    requires UnitsFor(env, spec, units) && n <= |units| && a < Offset(env, spec, units, n)
    requires Assemble(env, spec, units, n).ports[a].fixedIPs != []
    ensures ComesFrom(env, spec, units, n, a, o)
    decreases n
  {
    hide UnitFor;
    if n == 0 {
      o := FromRouter;
    } else {
      var before := Offset(env, spec, units, n - 1);
      if a < before {
        o := PortOrigin(env, spec, units, n - 1, a);
      } else {
        o := FromVM(n - 1);
        var next := FIRST_OCTET + Takers(spec.vms, n - 1);
        if a - before >= OwnCount(env, spec, spec.vms[n - 1]) {
          NetPortsBare(env, spec, spec.vms[n - 1], next, units[n - 1], a - before);
        }
      }
    }
  }

  /** The address a port of that origin gets. */
  function Lease(env: Env, spec: GroupRequest, o: Origin): (string, nat)
    requires o.FromVM? ==> o.v < |spec.vms|
  {
    match o
    case FromRouter => (spec.newSubnetName, 1)
    case FromVM(v) => (spec.vms[v].connectToSubnet, Octet(spec.vms[v], FIRST_OCTET + Takers(spec.vms, v)))
  }

  lemma OriginLease(env: Env, spec: GroupRequest, units: seq<Unit>, n: nat, a: nat, o: Origin)
    requires UnitsFor(env, spec, units) && n <= |units| && ComesFrom(env, spec, units, n, a, o)
    ensures a < Offset(env, spec, units, n)
    ensures LeaseOf(Assemble(env, spec, units, n).ports[a]) == Some(Lease(env, spec, o))
  {
    hide UnitFor;
    match o
    case FromRouter =>
      EarlierPortsStay(env, spec, units, 0, n);
    case FromVM(v) =>
      OwnPortAt(env, spec, units, v, n);
  }

  /** The subnet and last octet a port occupies. */
  function LeaseOf(p: Port): Option<(string, nat)> {
    if |p.fixedIPs| == 1 then Some((p.fixedIPs[0].subnet.name, p.fixedIPs[0].lastOctet)) else None
  }

  /** Two VMs of a kind on one subnet. */
  ghost predicate TwoOn(vms: seq<VMRequest>, subnet: string, kind: NodeType -> bool) {
    exists v, w :: 0 <= v < w < |vms| && SameKindOn(vms[v], vms[w], subnet, kind)
  }

  predicate SameKindOn(a: VMRequest, b: VMRequest, subnet: string, kind: NodeType -> bool) {
    kind(a.nodeType) && kind(b.nodeType) && a.connectToSubnet == subnet && b.connectToSubnet == subnet
  }

  /** Two of the group's ports occupy one address of the subnet. */
  ghost predicate Clash(ports: seq<Port>, subnet: string) {
    exists a, b :: 0 <= a < b < |ports| && LeaseOf(ports[a]).Some? && LeaseOf(ports[a]) == LeaseOf(ports[b])
      && LeaseOf(ports[a]).value.0 == subnet
  }

  /** What makes two requests collide. */
  ghost predicate Overcrowded(env: Env, spec: GroupRequest, subnet: string) {
    || TwoOn(spec.vms, subnet, t => IsMaster(t))
    || (!RouterInUse(env, spec) && TwoOn(spec.vms, subnet, t => IsLB(t)))
  }

  lemma {:induction false} TakersGrow(vms: seq<VMRequest>, v: nat, w: nat)
    requires v < w <= |vms|
    ensures Takers(vms, v) + (if TakesOctet(vms[v]) then 1 else 0) <= Takers(vms, w)
    decreases w - v
  {
    if v + 1 < w { TakersGrow(vms, v, w - 1); }
  }

  /**
   Two VMs with internal ports get one address exactly when they are two masters or two load balancers of one
   subnet.
   */
  lemma SameLease(env: Env, spec: GroupRequest, v: nat, w: nat)
    requires v < w < |spec.vms| && HasInternalPort(env, spec, spec.vms[v]) && HasInternalPort(env, spec, spec.vms[w])
    ensures Lease(env, spec, FromVM(v)) == Lease(env, spec, FromVM(w)) <==>
      spec.vms[v].connectToSubnet == spec.vms[w].connectToSubnet
      && ((IsMaster(spec.vms[v].nodeType) && IsMaster(spec.vms[w].nodeType))
        || (IsLB(spec.vms[v].nodeType) && IsLB(spec.vms[w].nodeType)))
  {
    TakersGrow(spec.vms, v, w);
  }

  lemma RouterAlone(env: Env, spec: GroupRequest, v: nat)
    requires RouterInUse(env, spec) && v < |spec.vms| && HasInternalPort(env, spec, spec.vms[v])
    ensures Lease(env, spec, FromRouter) != Lease(env, spec, FromVM(v))
  {
  }

  lemma ClashMeansOvercrowded(env: Env, spec: GroupRequest, oa: Origin, ob: Origin, subnet: string)
    requires oa != ob
    requires oa.FromVM? ==> oa.v < |spec.vms| && HasInternalPort(env, spec, spec.vms[oa.v])
    requires ob.FromVM? ==> ob.v < |spec.vms| && HasInternalPort(env, spec, spec.vms[ob.v])
    requires oa.FromRouter? || ob.FromRouter? ==> RouterInUse(env, spec)
    requires Lease(env, spec, oa) == Lease(env, spec, ob) && Lease(env, spec, oa).0 == subnet
    ensures Overcrowded(env, spec, subnet)
  {
    match (oa, ob)
    case (FromVM(v), FromVM(w)) =>
      var lo, hi := if v < w then v else w, if v < w then w else v;
      SameLease(env, spec, lo, hi);
      if IsMaster(spec.vms[lo].nodeType) {
        assert SameKindOn(spec.vms[lo], spec.vms[hi], subnet, t => IsMaster(t));
      } else {
        assert SameKindOn(spec.vms[lo], spec.vms[hi], subnet, t => IsLB(t));
      }
    case (FromVM(v), FromRouter) => RouterAlone(env, spec, v);
    case (FromRouter, FromVM(w)) => RouterAlone(env, spec, w);
  }

  lemma OvercrowdedPair(env: Env, spec: GroupRequest, units: seq<Unit>, v: nat, w: nat, subnet: string)
    requires UnitsFor(env, spec, units) && |units| == |spec.vms| && v < w < |units|
    requires HasInternalPort(env, spec, spec.vms[v]) && HasInternalPort(env, spec, spec.vms[w])
    requires Lease(env, spec, FromVM(v)) == Lease(env, spec, FromVM(w)) && spec.vms[v].connectToSubnet == subnet
    ensures Clash(Assemble(env, spec, units, |units|).ports, subnet)
  {
    hide UnitFor;
    var n := |units|;
    OwnPortAt(env, spec, units, v, w);
    var a, b := Offset(env, spec, units, v), Offset(env, spec, units, w);
    OriginLease(env, spec, units, n, a, FromVM(v));
    OriginLease(env, spec, units, n, b, FromVM(w));
    assert a < b;
  }

  /**
   Two ports of a compiled group get the same last octet on a subnet exactly when the request puts two
   masters on it, or two load balancers without a router; whatever the order of the VMs.
   */
  lemma ClashExactly(env: Env, spec: GroupRequest, units: seq<Unit>, subnet: string)
    requires UnitsFor(env, spec, units) && |units| == |spec.vms| && subnet != ""
    ensures Clash(Assemble(env, spec, units, |units|).ports, subnet) <==> Overcrowded(env, spec, subnet)
  {
    hide UnitFor, Lease;
    var n := |units|;
    var ports := Assemble(env, spec, units, n).ports;
    if Clash(ports, subnet) {
      var a, b :| 0 <= a < b < |ports| && LeaseOf(ports[a]).Some? && LeaseOf(ports[a]) == LeaseOf(ports[b])
        && LeaseOf(ports[a]).value.0 == subnet;
      var oa := PortOrigin(env, spec, units, n, a);
      var ob := PortOrigin(env, spec, units, n, b);
      OriginLease(env, spec, units, n, a, oa);
      OriginLease(env, spec, units, n, b, ob);
      ClashMeansOvercrowded(env, spec, oa, ob, subnet);
    }
    if Overcrowded(env, spec, subnet) {
      var v, w := CrowdedPair(env, spec, subnet);
      OvercrowdedPair(env, spec, units, v, w, subnet);
    }
  }

  lemma CrowdedPair(env: Env, spec: GroupRequest, subnet: string) returns (v: nat, w: nat)
    requires Overcrowded(env, spec, subnet) && subnet != ""
    ensures v < w < |spec.vms| && HasInternalPort(env, spec, spec.vms[v]) && HasInternalPort(env, spec, spec.vms[w])
    ensures Lease(env, spec, FromVM(v)) == Lease(env, spec, FromVM(w)) && spec.vms[v].connectToSubnet == subnet
  {
    if TwoOn(spec.vms, subnet, t => IsMaster(t)) {
      v, w :| 0 <= v < w < |spec.vms| && SameKindOn(spec.vms[v], spec.vms[w], subnet, t => IsMaster(t));
    } else {
      v, w :| 0 <= v < w < |spec.vms| && SameKindOn(spec.vms[v], spec.vms[w], subnet, t => IsLB(t));
    }
    SameLease(env, spec, v, w);
  }
}
