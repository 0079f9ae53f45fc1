/**
 Closed-loop cluster autoscaling: the shepherd's check raises or clears an alert with the wanted
 node count, auto-prov applies it. Float values are modelled as reals.
 */
module Autoscale {
  import opened Keys
  import opened Numbers
  import opened Options

  /** Targets are per node: percent for CPU and memory; 0 means the metric is not used. */
  datatype Policy = Policy(minNodes: nat, maxNodes: nat, targetCpu: nat, targetMem: nat, targetActiveConnections: nat)

  datatype Metric = Cpu | Mem | Conns

  /** The last stabilized totals. */
  datatype Load = Load(cpu: real, mem: real, conns: real)

  predicate Used(p: Policy, m: Metric) {
    match m
    case Cpu => p.targetCpu > 0
    case Mem => p.targetMem > 0
    case Conns => p.targetActiveConnections > 0
  }

  /** The load one node should carry. */
  function Target(p: Policy, m: Metric): (t: real)
    ensures Used(p, m) ==> t > 0.0
  {
    match m
    case Cpu => p.targetCpu as real / 100.0
    case Mem => p.targetMem as real / 100.0
    case Conns => p.targetActiveConnections as real
  }

  function Total(l: Load, m: Metric): real {
    match m
    case Cpu => l.cpu
    case Mem => l.mem
    case Conns => l.conns
  }

  /** The nodes one metric asks for. */
  function Wants(p: Policy, l: Load, m: Metric): real
    requires Used(p, m)
  {
    Total(l, m) / Target(p, m)
  }

  /** desiredNodesRaw: the most any used metric asks for, or 0. */
  ghost predicate IsRaw(p: Policy, l: Load, raw: real) {
    && raw >= 0.0
    && (forall m :: Used(p, m) ==> Wants(p, l, m) <= raw)
    && (raw == 0.0 || exists m :: Used(p, m) && Wants(p, l, m) == raw)
  }

  function Ceil(x: real): (c: int)
    ensures x <= c as real < x + 1.0
  {
    -((-x).Floor)
  }

  /** The node count wanted for a raw value: rounded up, then raised to the min, then cut to the max. */
  function Desired(p: Policy, raw: real): int {
    var c := Ceil(raw);
    var low := if c < p.minNodes then p.minNodes else c;
    if low > p.maxNodes then p.maxNodes else low
  }

  /** No scaling needed: inside the 10% hysteresis above n, or n is what is wanted. */
  predicate Quiescent(p: Policy, raw: real, n: nat) {
    (raw < n as real * 1.1 && raw >= n as real) || Desired(p, raw) == n
  }

  class ClusterAutoScaler {
    var lastStabilizedTotalCpu: real
    var lastStabilizedTotalMem: real
    var lastStabilizedActiveConns: real
    var scaleInProgress: bool
    /** This cluster's autoscale alert in the alert cache, with the node count it asks for. */
    var alert: Option<int>

    constructor ()
      ensures !scaleInProgress && alert == None
    {
      lastStabilizedTotalCpu, lastStabilizedTotalMem, lastStabilizedActiveConns := 0.0, 0.0, 0.0;
      scaleInProgress, alert := false, None;
    }

    function CurrentLoad(): Load
      reads this
    {
      Load(lastStabilizedTotalCpu, lastStabilizedTotalMem, lastStabilizedActiveConns)
    }

    /** Asks for a check if the load changed, or if an alert may still have to be cleared. */
    method UpdateClusterStats(cpu: real, mem: real) returns (check: bool)
      modifies this`lastStabilizedTotalCpu, this`lastStabilizedTotalMem
      ensures CurrentLoad() == Load(cpu, mem, old(lastStabilizedActiveConns))
      ensures check <==> CurrentLoad() != old(CurrentLoad()) || scaleInProgress
    {
      var needsWork := false;
      if lastStabilizedTotalCpu != cpu {
        lastStabilizedTotalCpu := cpu;
        needsWork := true;
      }
      if lastStabilizedTotalMem != mem {
        lastStabilizedTotalMem := mem;
        needsWork := true;
      }
      check := needsWork || scaleInProgress;
    }

    method UpdateConnStats(activeConns: real) returns (check: bool)
      modifies this`lastStabilizedActiveConns
      ensures CurrentLoad() == old(CurrentLoad()).(conns := activeConns)
      ensures check <==> CurrentLoad() != old(CurrentLoad()) || scaleInProgress
    {
      var needsWork := false;
      if lastStabilizedActiveConns != activeConns {
        lastStabilizedActiveConns := activeConns;
        needsWork := true;
      }
      check := needsWork || scaleInProgress;
    }

    /** Lines 117-139. */
    method DesiredNodesRaw(p: Policy) returns (raw: real)
      ensures IsRaw(p, CurrentLoad(), raw)
    {
      raw := 0.0;
      ghost var source := Cpu;
      if p.targetCpu > 0 {
        var numNodes := lastStabilizedTotalCpu / (p.targetCpu as real / 100.0);
        assert numNodes == Wants(p, CurrentLoad(), Cpu);
        if numNodes > raw {
          raw := numNodes;
        }
      }
      if p.targetMem > 0 {
        var numNodes := lastStabilizedTotalMem / (p.targetMem as real / 100.0);
        assert numNodes == Wants(p, CurrentLoad(), Mem);
        if numNodes > raw {
          raw, source := numNodes, Mem;
        }
      }
      if p.targetActiveConnections > 0 {
        var numNodes := lastStabilizedActiveConns / p.targetActiveConnections as real;
        assert numNodes == Wants(p, CurrentLoad(), Conns);
        if numNodes > raw {
          raw, source := numNodes, Conns;
        }
      }
      assert raw == 0.0 || (Used(p, source) && Wants(p, CurrentLoad(), source) == raw);
    }

    /** One check against the policy and the cluster's current node count. */
    method Check(p: Policy, numNodes: nat) returns (ghost raw: real)
      modifies this`alert, this`scaleInProgress
      ensures IsRaw(p, CurrentLoad(), raw)
      ensures Loop(numNodes, alert, scaleInProgress)
        == AfterCheck(p, raw, Loop(numNodes, old(alert), old(scaleInProgress)))
    {
      var desiredNodesRaw := DesiredNodesRaw(p);
      raw := desiredNodesRaw;
      if desiredNodesRaw == 0.0 {
        return;
      }
      var desiredCeil := Ceil(desiredNodesRaw);
      if desiredCeil < p.minNodes {
        desiredCeil := p.minNodes;
      }
      if desiredCeil > p.maxNodes {
        desiredCeil := p.maxNodes;
      }
      if (desiredNodesRaw < numNodes as real * 1.1 && desiredNodesRaw >= numNodes as real) || desiredCeil == numNodes {
        alert := None;
        scaleInProgress := false;
        return;
      }
      if alert != Some(desiredCeil) {
        alert := Some(desiredCeil);
      }
      scaleInProgress := true;
    }
  }

  // ---------------------------------------------------------------------------------------------
  // The loop
  // ---------------------------------------------------------------------------------------------

  /** A cluster under autoscaling: its node count, its alert, and the flag that a scaling is under way. */
  datatype Loop = Loop(nodes: nat, alert: Option<int>, scaleInProgress: bool)

  function AfterCheck(p: Policy, raw: real, l: Loop): Loop {
    if raw == 0.0 then l
    else if Quiescent(p, raw, l.nodes) then Loop(l.nodes, None, false)
    else Loop(l.nodes, Some(Desired(p, raw)), true)
  }

  /** Auto-prov sets the node count to the alert's value; a failed update changes nothing. */
  function AfterApply(l: Loop, ok: bool): Loop {
    if ok && l.alert.Some? && l.alert.value >= 0 then l.(nodes := l.alert.value) else l
  }

  datatype Event = Check(raw: real) | Apply(ok: bool)

  function After(p: Policy, l: Loop, es: seq<Event>): Loop {
    if es == [] then l
    else
      var before := After(p, l, es[..|es| - 1]);
      match es[|es| - 1]
      case Check(raw) => AfterCheck(p, raw, before)
      case Apply(ok) => AfterApply(before, ok)
  }

  // ---------------------------------------------------------------------------------------------
  // What quiescence means
  // ---------------------------------------------------------------------------------------------

  lemma MetricUnder(p: Policy, l: Load, m: Metric, n: nat)
    requires Used(p, m)
    ensures Wants(p, l, m) < n as real * 1.1 <==> Total(l, m) < 1.1 * (n as real * Target(p, m))
  {
    var t, x := Target(p, m), n as real * 1.1;
    assert Total(l, m) == Wants(p, l, m) * t;
    if Wants(p, l, m) < x {
      assert (x - Wants(p, l, m)) * t > 0.0;
    } else {
      assert (Wants(p, l, m) - x) * t >= 0.0;
    }
    assert x * t == 1.1 * (n as real * t);
  }

  /**
   Within the policy's bounds and under load, the autoscaler is quiescent exactly when it is at the
   max or every metric is under 110% of its per-node target, and it is at the min or one node fewer
   could not carry the load.
   */
  lemma QuiescentExactly(p: Policy, l: Load, raw: real, n: nat)
    requires IsRaw(p, l, raw) && raw > 0.0 && p.minNodes <= n <= p.maxNodes
    ensures Quiescent(p, raw, n) <==>
      && (n == p.maxNodes || forall m :: Used(p, m) ==> Total(l, m) < 1.1 * (n as real * Target(p, m)))
      && (n == p.minNodes || raw > n as real - 1.0)
  {
    forall m | Used(p, m) ensures Wants(p, l, m) < n as real * 1.1 <==> Total(l, m) < 1.1 * (n as real * Target(p, m)) {
      MetricUnder(p, l, m, n);
    }
    var top :| Used(p, top) && Wants(p, l, top) == raw;
    assert (forall m :: Used(p, m) ==> Wants(p, l, m) < n as real * 1.1) <==> raw < n as real * 1.1;
    QuiescentBand(p, raw, n);
  }

  lemma QuiescentBand(p: Policy, raw: real, n: nat)
    requires raw > 0.0 && p.minNodes <= n <= p.maxNodes
    ensures Quiescent(p, raw, n) <==>
      (n == p.maxNodes || raw < n as real * 1.1) && (n == p.minNodes || raw > n as real - 1.0)
  {
    var c := Ceil(raw);
    assert c <= n <==> raw <= n as real;
    assert c >= n <==> raw > n as real - 1.0;
  }

  /** The wanted count is itself quiescent. */
  lemma DesiredIsQuiescent(p: Policy, raw: real)
    requires raw > 0.0
    ensures 0 <= Desired(p, raw) && Quiescent(p, raw, Desired(p, raw))
  {
  }

  // ---------------------------------------------------------------------------------------------
  // Constant load
  // ---------------------------------------------------------------------------------------------

  predicate Constant(es: seq<Event>, raw: real) {
    forall i :: 0 <= i < |es| && es[i].Check? ==> es[i].raw == raw
  }

  /** Once a check has seen the load: at rest with no alert, or asking for the wanted count. */
  predicate Informed(p: Policy, raw: real, l: Loop) {
    (l.alert == None && Quiescent(p, raw, l.nodes)) || l.alert == Some(Desired(p, raw))
  }

  /** At rest for good: no alert, or one that asks for what is there. */
  predicate Settled(p: Policy, raw: real, l: Loop) {
    Quiescent(p, raw, l.nodes) && (l.alert == None || l.alert == Some(l.nodes))
  }

  lemma {:induction false} StaysSettled(p: Policy, raw: real, l: Loop, es: seq<Event>)
    requires raw > 0.0 && Settled(p, raw, l) && Constant(es, raw)
    ensures Settled(p, raw, After(p, l, es)) && After(p, l, es).nodes == l.nodes
    decreases |es|
  {
    if es != [] {
      StaysSettled(p, raw, l, es[..|es| - 1]);
    }
  }

  lemma {:induction false} StaysInformed(p: Policy, raw: real, l: Loop, es: seq<Event>)
    requires raw > 0.0 && Informed(p, raw, l) && Constant(es, raw)
    ensures Informed(p, raw, After(p, l, es))
    ensures After(p, l, es).nodes == l.nodes || After(p, l, es).nodes == Desired(p, raw)
    decreases |es|
  {
    if es != [] {
      StaysInformed(p, raw, l, es[..|es| - 1]);
      DesiredIsQuiescent(p, raw);
    }
  }

  /**
   Under constant load, from any state, however checks and updates interleave: once a check has run
   and an update has been applied after it, the node count is quiescent and never changes again.
   */
  lemma OneApplySettles(p: Policy, raw: real, l: Loop, first: seq<Event>, middle: seq<Event>, rest: seq<Event>)
    requires raw > 0.0 && Constant(middle, raw) && Constant(rest, raw)
    ensures var informed := After(p, l, first + [Check(raw)]);
      var applied := After(p, informed, middle + [Apply(true)]);
      var end := After(p, applied, rest);
      && Quiescent(p, raw, end.nodes)
      && end.nodes == applied.nodes
      && (end.nodes == informed.nodes || end.nodes == Desired(p, raw))
  {
    var informed := After(p, l, first + [Check(raw)]);
    assert (first + [Check(raw)])[..|first|] == first;
    assert Informed(p, raw, informed);
    StaysInformed(p, raw, informed, middle);
    var before := After(p, informed, middle);
    assert (middle + [Apply(true)])[..|middle|] == middle;
    var applied := After(p, informed, middle + [Apply(true)]);
    DesiredIsQuiescent(p, raw);
    assert Settled(p, raw, applied);
    StaysSettled(p, raw, applied, rest);
  }

  // ---------------------------------------------------------------------------------------------
  // Load around a step point
  // ---------------------------------------------------------------------------------------------

  /** Load for which neither n nor n + 1 nodes are wrong. */
  predicate InBand(n: nat, raw: real) {
    n as real < raw && raw < n as real + 1.0 && raw < n as real * 1.1
  }

  /**
   From the first check under load in the band on, whatever alert earlier load left, the node count stays
   where it is, on n or on n + 1, and there is no alert.
   */
  lemma {:induction false} HysteresisHolds(p: Policy, n: nat, l: Loop, raw: real, es: seq<Event>)
    requires p.minNodes <= n && n + 1 <= p.maxNodes
    requires l.nodes == n || l.nodes == n + 1
    requires InBand(n, raw) && forall i :: 0 <= i < |es| && es[i].Check? ==> InBand(n, es[i].raw)
    ensures var end := After(p, AfterCheck(p, raw, l), es); end.nodes == l.nodes && end.alert == None
    decreases |es|
  {
    if es == [] {
      assert Ceil(raw) == n + 1;
    } else {
      HysteresisHolds(p, n, l, raw, es[..|es| - 1]);
      match es[|es| - 1]
      case Check(r) =>
        assert Ceil(r) == n + 1;
      case Apply(_) =>
    }
  }

  // ---------------------------------------------------------------------------------------------
  // No load
  // ---------------------------------------------------------------------------------------------

  /** Some update succeeded. */
  predicate Applied(es: seq<Event>) {
    exists i :: 0 <= i < |es| && es[i] == Apply(true)
  }

  /**
   With no load at all a check does nothing: an alert raised before is neither cleared nor renewed, the
   flag stays, and the count stays too, unless an update brings it to what the old alert asks for.
   */
  lemma {:induction false} ZeroLoadFreezes(p: Policy, l: Loop, es: seq<Event>)
    requires Constant(es, 0.0)
    ensures var end := After(p, l, es);
      && end.alert == l.alert && end.scaleInProgress == l.scaleInProgress
      && end.nodes == if Applied(es) && l.alert.Some? && l.alert.value >= 0 then l.alert.value else l.nodes
    decreases |es|
  {
    if es != [] {
      var n := |es| - 1;
      ZeroLoadFreezes(p, l, es[..n]);
      if Applied(es[..n]) {
        var i :| 0 <= i < n && es[..n][i] == Apply(true);
        assert es[i] == Apply(true);
      }
      if Applied(es) && es[n] != Apply(true) {
        var i :| 0 <= i < |es| && es[i] == Apply(true);
        assert es[..n][i] == Apply(true);
      }
    }
  }

  /**
   An alert raised under load and applied after the load has gone leaves the count at what that load
   wanted. No load would ask for the same exactly if the old load wanted no more than the min, or the
   policy leaves no choice.
   */
  lemma StaleAlertExactly(p: Policy, raw: real, l: Loop, es: seq<Event>)
    requires raw > 0.0 && l.alert == Some(Desired(p, raw)) && Constant(es, 0.0) && Applied(es)
    ensures After(p, l, es).nodes == Desired(p, raw)
    ensures After(p, l, es).nodes == Desired(p, 0.0) <==> raw <= p.minNodes as real || p.maxNodes <= p.minNodes
  {
    ZeroLoadFreezes(p, l, es);
    assert Ceil(0.0) == 0;
    assert Ceil(raw) <= p.minNodes <==> raw <= p.minNodes as real;
  }

  // ---------------------------------------------------------------------------------------------
  // The alert as the message between producer and consumer
  // ---------------------------------------------------------------------------------------------

  const TAG_ORG := "clusterorg"
  const TAG_CLUSTER := "cluster"
  const TAG_CLOUDLET := "cloudlet"
  const TAG_CLOUDLET_ORG := "cloudletorg"
  const ALERT_CLUSTER_AUTOSCALE := "ClusterAutoScale"

  const ALERT_SCALE_UP := "AutoScaleUp"
  const KEY_NODE_COUNT := "nodecount"
  const KEY_LOW_CPU_COUNT := "lowcpunodecount"
  const KEY_MIN_NODES := "minnodes"

  datatype Alert = Alert(labels: map<string, string>, annotations: map<string, string>, state: string, value: int)

  /** getAutoScaleAlert. */
  function AutoScaleAlert(key: ClusterInstKey, region: string, desired: int): Alert {
    Alert(map[TAG_ORG := key.organization, TAG_CLUSTER := key.clusterName,
              TAG_CLOUDLET := key.cloudletKey.name, TAG_CLOUDLET_ORG := key.cloudletKey.organization,
              "alertname" := ALERT_CLUSTER_AUTOSCALE, "region" := region],
          map[], "firing", desired)
  }

  function Get(m: map<string, string>, name: string): string {
    if name in m then m[name] else ""
  }

  function Uint32(n: int): int {
    n % 0x1_0000_0000
  }

  /** The cluster that the alert's labels name. */
  function ClusterOf(a: Alert): ClusterInstKey {
    ClusterInstKey(Get(a.labels, TAG_CLUSTER),
      CloudletKey(Get(a.labels, TAG_CLOUDLET_ORG), Get(a.labels, TAG_CLOUDLET)), Get(a.labels, TAG_ORG))
  }

  /**
   getClusterInstToScale: the cluster and its new node count. The older kinds of alert say how many nodes
   there are and, for scaling down, how many of them are idle and how many must stay. strconv.Atoi is a parameter.
   */
  method GetClusterInstToScale(a: Alert, atoi: string -> Option<int>) returns (r: Result<(ClusterInstKey, int)>)
    ensures r.Ok? ==> r.value.0 == ClusterOf(a)
    ensures r.Err? <==> CountToScale(a, atoi) == None
    ensures r.Ok? ==> Some(r.value.1) == CountToScale(a, atoi)
  {
    var name := Get(a.labels, "alertname");
    if name == ALERT_CLUSTER_AUTOSCALE {
      return Ok((ClusterOf(a), Uint32(a.value)));
    }
    var nodecount := atoi(Get(a.annotations, KEY_NODE_COUNT));
    if nodecount == None {
      return Err("failed to parse nodecount");
    }
    if name == ALERT_SCALE_UP {
      return Ok((ClusterOf(a), Uint32(nodecount.value + 1)));
    }
    var lowcount := atoi(Get(a.annotations, KEY_LOW_CPU_COUNT));
    if lowcount == None {
      return Err("failed to parse lowcpu count");
    }
    var minNodes := atoi(Get(a.annotations, KEY_MIN_NODES));
    if minNodes == None {
      return Err("failed to parse min nodes");
    }
    var newCount := nodecount.value - lowcount.value;
    if newCount < minNodes.value {
      newCount := minNodes.value;
    }
    r := Ok((ClusterOf(a), Uint32(newCount)));
  }

  /** The node count an alert asks for, if it can be read. */
  function CountToScale(a: Alert, atoi: string -> Option<int>): Option<int> {
    var name := Get(a.labels, "alertname");
    var nodes, low, least :=
      atoi(Get(a.annotations, KEY_NODE_COUNT)), atoi(Get(a.annotations, KEY_LOW_CPU_COUNT)),
        atoi(Get(a.annotations, KEY_MIN_NODES));
    if name == ALERT_CLUSTER_AUTOSCALE then Some(Uint32(a.value))
    else if nodes == None then None
    else if name == ALERT_SCALE_UP then Some(Uint32(nodes.value + 1))
    else if low == None || least == None then None
    else Some(Uint32(Max(nodes.value - low.value, least.value)))
  }

  /** What the consumer scales is the producer's cluster, to the count it wanted. */
  lemma AlertRoundTrip(key: ClusterInstKey, region: string, p: Policy, raw: real, atoi: string -> Option<int>)
    requires raw > 0.0 && p.maxNodes < 0x1_0000_0000
    ensures var a := AutoScaleAlert(key, region, Desired(p, raw));
      ClusterOf(a) == key && CountToScale(a, atoi) == Some(Desired(p, raw))
  {
    DesiredIsQuiescent(p, raw);
  }

  /**
   The count that an older alert to scale down asks for is the smallest that keeps as many nodes as must
   stay and removes no more than are idle. So it scales up instead, exactly if more must stay than there are.
   */
  lemma ScaleDownExactly(a: Alert, atoi: string -> Option<int>, nodes: nat, low: nat, least: nat, k: int)
    requires Get(a.labels, "alertname") != ALERT_CLUSTER_AUTOSCALE && Get(a.labels, "alertname") != ALERT_SCALE_UP
    requires atoi(Get(a.annotations, KEY_NODE_COUNT)) == Some(nodes)
    requires atoi(Get(a.annotations, KEY_LOW_CPU_COUNT)) == Some(low)
    requires atoi(Get(a.annotations, KEY_MIN_NODES)) == Some(least)
    requires nodes < 0x1_0000_0000 && least < 0x1_0000_0000
    ensures CountToScale(a, atoi).Some?
    ensures least <= k && nodes - k <= low <==> CountToScale(a, atoi).value <= k
    ensures CountToScale(a, atoi).value > nodes <==> least > nodes
  {
  }
}
