/**
 updateClusterInternal for a Kubernetes cluster: bring nodes, VMs and Chef clients to the requested
 number, step by step, so that some node is schedulable all the while.
 */
module ClusterUpdate {
  import opened Seqs
  import opened ClusterNames
  import opened Options

  /** chefUpdateInfo values. */
  datatype Action = Add | Remove | Keep

  /** Which of the calls into Kubernetes, Chef and the VM provider fail, and what a failing call leaves behind. */
  datatype Faults = Faults(
    masterNameOk: bool,
    listOk: bool,
    untaintOk: bool,
    deleteOk: bool,
    deleted: nat,                  // how many nodes a failing delete command removed
    specOk: bool,                  // everything before the first Chef call of the orchestration
    chefCreateFails: set<string>,
    chefDeleteFails: set<string>,
    updateVMsOk: bool,
    vmsOnFailure: set<string>,
    joined: set<string>,           // VMs that show up as ready nodes before the wait times out
    readyUntaintOk: bool,
    setupOk: bool,                 // the other steps of setting up root LB and nodes
    taintOk: bool)
  {
    /** No call fails; VMs may still be slow to join. */
    predicate Quiet() {
      && masterNameOk && listOk && untaintOk && deleteOk && specOk && chefCreateFails == {} && chefDeleteFails == {}
      && updateVMsOk && readyUntaintOk && setupOk && taintOk
    }
  }

  // ---------------------------------------------------------------------------------------------
  // Lists of node names
  // ---------------------------------------------------------------------------------------------

  /** What the scan looks for: masters, workers with a number, and those of them beyond the requested one. */
  datatype Kind = MasterKind | WorkerKind | BeyondKind(n: nat)

  predicate OfKind(kind: Kind, node: string) {
    match kind
    case MasterKind => !HasNodePrefix(node)
    case WorkerKind => ParseNodeName(node).Some?
    case BeyondKind(n) => ParseNodeName(node).Some? && ParseNodeName(node).value > n
  }

  /** The names of a kind, in order. */
  function Pick(kind: Kind, nodes: seq<string>): seq<string> {
    if nodes == [] then []
    else Pick(kind, Front(nodes)) + (if OfKind(kind, Last(nodes)) then [Last(nodes)] else [])
  }

  lemma PickStep(nodes: seq<string>, i: nat)
    requires i < |nodes|
    ensures forall kind {:trigger Pick(kind, nodes[..i + 1])} ::
      Pick(kind, nodes[..i + 1]) == Pick(kind, nodes[..i]) + (if OfKind(kind, nodes[i]) then [nodes[i]] else [])
  {
    hide OfKind;
    assert Front(nodes[..i + 1]) == nodes[..i];
  }

  lemma {:induction false} PickedExactly(kind: Kind, nodes: seq<string>)
    ensures forall x :: x in Pick(kind, nodes) <==> x in nodes && OfKind(kind, x)
    ensures NoDup(nodes) ==> NoDup(Pick(kind, nodes))
    decreases |nodes|
  {
    hide OfKind;
    if nodes != [] {
      PickedExactly(kind, Front(nodes));
      assert nodes == Front(nodes) + [Last(nodes)];
      LastNoDup(Front(nodes), Last(nodes));
      LastNoDup(Pick(kind, Front(nodes)), Last(nodes));
    }
  }

  /** A duplicate-free list has each name of a kind once. */
  lemma PickedSize(kind: Kind, nodes: seq<string>, names: set<string>)
    requires NoDup(nodes) && forall x :: x in names <==> x in nodes && OfKind(kind, x)
    ensures |Pick(kind, nodes)| == |names| && Elems(Pick(kind, nodes)) == names
  {
    hide OfKind, Pick, NoDup;
    PickedExactly(kind, nodes);
    NoDupSize(Pick(kind, nodes));
    assert Elems(Pick(kind, nodes)) == names;
  }

  // ---------------------------------------------------------------------------------------------
  // The cluster
  // ---------------------------------------------------------------------------------------------

  /** The nodes of W that are beyond the requested number. */
  function Beyond(W: set<nat>, n: nat): set<nat> {
    set w | w in W && w > n
  }

  /** What is to happen to the node with a given number. */
  function ActionFor(W: set<nat>, n: nat, num: nat): Action {
    if num !in W then Add else if num > n then Remove else Keep
  }

  /** Worker numbers are positive uint32 values. */
  predicate WorkerNums(W: set<nat>) {
    forall w :: w in W ==> 1 <= w < UINT32_SIZE
  }

  class Cluster {
    const name: string
    /** The masters, in the order in which kubectl lists them; `tainted` are those that take no pods. */
    const masters: seq<string>
    var tainted: set<string>
    var kube: set<string>
    var vms: set<string>
    var chef: set<string>
    /** Every state so far had a schedulable node. */
    ghost var safe: bool

    /** Some master takes pods. */
    predicate SomeMasterFree(taints: set<string>) {
      exists m :: m in masters && m !in taints
    }

    /** A worker, or an untainted master, can take pods. */
    predicate Schedulable()
      reads this
    {
      kube != {} || SomeMasterFree(tainted)
    }

    /** The workers are W, everywhere. */
    ghost predicate NodesInStep(W: set<nat>)
      reads this
    {
      kube == Names(name, W) && vms == Names(name, W) && chef == Names(name, W)
    }

    /** The masters take pods exactly if there are no workers. */
    ghost predicate TaintsFit(W: set<nat>, taints: set<string>) {
      taints == if W == {} then {} else Elems(masters)
    }

    ghost predicate Holds(W: set<nat>)
      reads this
    {
      NodesInStep(W) && TaintsFit(W, tainted)
    }

    /** There are masters, each listed once, and none has a name that looks like a worker's. */
    predicate MastersNamed() {
      masters != [] && NoDup(masters) && forall m :: m in masters ==> !HasNodePrefix(m)
    }

    constructor (name: string, masters: seq<string>, tainted: set<string>, kube: set<string>, vms: set<string>,
        chef: set<string>)
      ensures this.name == name && this.masters == masters && this.kube == kube && this.tainted == tainted
      ensures this.vms == vms && this.chef == chef && safe == Schedulable()
    {
      this.name, this.masters, this.tainted, this.kube, this.vms, this.chef := name, masters, tainted, kube, vms, chef;
      safe := kube != {} || exists m :: m in masters && m !in tainted;
    }

    method SetMasterTaint(master: string, taint: bool, ok: bool)
      modifies this`tainted, this`safe
      ensures tainted == if !ok then old(tainted) else if taint then old(tainted) + {master}
        else old(tainted) - {master}
      ensures safe == (old(safe) && (ok ==> Schedulable()))
    {
      if ok {
        tainted := if taint then tainted + {master} else tainted - {master};
        safe := safe && Schedulable();
      }
    }

    /** The nodes that a delete command removes: all, or those before the failure. */
    static function Deleted(toRemove: seq<string>, ok: bool, count: nat): seq<string> {
      if ok || count > |toRemove| then toRemove else toRemove[..count]
    }

    /** kubectl delete of each node in turn, up to the first failure. */
    method DeleteNodes(toRemove: seq<string>, ok: bool, count: nat) returns (err: bool)
      requires safe ==> Schedulable()
      modifies this`kube, this`safe
      ensures err <==> !ok
      ensures kube == old(kube) - Elems(Deleted(toRemove, ok, count))
      ensures safe == (old(safe) && Schedulable())
    {
      var n := if ok || count > |toRemove| then |toRemove| else count;
      PrefixAll(toRemove);
      for i := 0 to n
        invariant kube == old(kube) - Elems(toRemove[..i])
        invariant safe == (old(safe) && Schedulable())
      {
        PrefixStep(toRemove, i);
        kube := kube - {toRemove[i]};
        safe := safe && Schedulable();
      }
      err := !ok;
    }

    /** The node list of the cluster: masters and workers W, each once, in any order. */
    ghost predicate IsListing(W: set<nat>, allnodes: seq<string>) {
      NoDup(allnodes) && Elems(allnodes) == Elems(masters) + Names(name, W)
    }

    /** What the scan notes about the nodes of a list, under the names this cluster would give them. */
    ghost predicate InfoListed(nodes: seq<string>, numNodes: nat, info: map<string, Action>) {
      && (forall x :: x in info <==> exists k :: 0 <= k < |nodes| && NotedAs(nodes[k], x))
      && (forall n :: n in nodes && ParseNodeName(n).Some? ==>
           var nodeName := NodeName(name, ParseNodeName(n).value);
           nodeName in info && info[nodeName] == (if ParseNodeName(n).value > numNodes then Remove else Keep))
    }

    predicate NotedAs(n: string, nodeName: string) {
      ParseNodeName(n).Some? && NodeName(name, ParseNodeName(n).value) == nodeName
    }

    /** Lines 166-190, for any list of nodes. */
    method ScanNodes(allnodes: seq<string>, numNodes: nat)
      returns (toRemove: seq<string>, info: map<string, Action>, existingMaster: nat, existingNodes: nat)
      ensures toRemove == Pick(BeyondKind(numNodes), allnodes)
      ensures existingMaster == |Pick(MasterKind, allnodes)| && existingNodes == |Pick(WorkerKind, allnodes)|
      ensures InfoListed(allnodes, numNodes, info)
    {
      hide NodeName, HasNodePrefix, ParseNodeName, Pick, InfoListed;
      toRemove, info, existingMaster, existingNodes := [], map[], 0, 0;
      NothingListed(allnodes, numNodes);
      for i := 0 to |allnodes|
        invariant toRemove == Pick(BeyondKind(numNodes), allnodes[..i])
        invariant existingMaster == |Pick(MasterKind, allnodes[..i])|
          && existingNodes == |Pick(WorkerKind, allnodes[..i])|
        invariant InfoListed(allnodes[..i], numNodes, info)
      {
        var n := allnodes[i];
        PickStep(allnodes, i);
        PrefixStep(allnodes, i);
        InfoStep(allnodes[..i], n, numNodes, info);
        if !HasNodePrefix(n) {
          NoNumber(n);
          existingMaster := existingMaster + 1;
          continue;
        }
        var parsed := ParseNodeName(n);
        if parsed == None {
          continue;
        }
        var num := parsed.value;
        existingNodes := existingNodes + 1;
        var nodeName := NodeName(name, num);
        if num > numNodes {
          toRemove := toRemove + [n];
          info := info[nodeName := Remove];
        } else {
          info := info[nodeName := Keep];
        }
      }
      assert allnodes[..|allnodes|] == allnodes;
    }

    lemma NoNumber(n: string)
      requires !HasNodePrefix(n)
      ensures ParseNodeName(n) == None
    {
    }

    lemma NothingListed(allnodes: seq<string>, numNodes: nat)
      ensures forall kind {:trigger Pick(kind, allnodes[..0])} :: Pick(kind, allnodes[..0]) == []
      ensures InfoListed(allnodes[..0], numNodes, map[])
    {
    }

    lemma ParsedIsUint32(n: string)
      ensures ParseNodeName(n).Some? ==> ParseNodeName(n).value < UINT32_SIZE
    {
    }

    /** One more node, noted under the name its number has here. */
    lemma InfoStep(nodes: seq<string>, n: string, numNodes: nat, info: map<string, Action>)
      requires InfoListed(nodes, numNodes, info)
      ensures ParseNodeName(n) == None ==> InfoListed(nodes + [n], numNodes, info)
      ensures ParseNodeName(n).Some? ==>
        var num := ParseNodeName(n).value;
        InfoListed(nodes + [n], numNodes, info[NodeName(name, num) := if num > numNodes then Remove else Keep])
    {
      hide NodeName, ParseNodeName;
      var all := nodes + [n];
      assert forall k :: 0 <= k < |nodes| ==> all[k] == nodes[k];
      assert all[|nodes|] == n;
      if ParseNodeName(n).Some? {
        var num := ParseNodeName(n).value;
        forall m | m in nodes && NotedAs(m, NodeName(name, num)) ensures ParseNodeName(m).value == num {
          ParsedIsUint32(m);
          ParsedIsUint32(n);
          NodeNameInjective(name, ParseNodeName(m).value, num);
        }
      }
    }

    /** A listed node is a master or one of the workers, and its name says which. */
    lemma ListedNode(W: set<nat>, allnodes: seq<string>, n: string)
      requires MastersNamed() && WorkerNums(W) && IsListing(W, allnodes) && n in allnodes
      ensures HasNodePrefix(n) <==> n !in masters
      ensures HasNodePrefix(n) ==>
        ParseNodeName(n).Some? && ParseNodeName(n).value in W && n == NodeName(name, ParseNodeName(n).value)
      ensures !HasNodePrefix(n) ==> ParseNodeName(n) == None
    {
      hide NodeName;
      assert n in Elems(allnodes);
      assert n in Elems(masters) <==> n in masters;
      if n !in masters {
        var w :| w in W && NodeName(name, w) == n;
        NodeNameRoundTrip(name, w);
      }
    }

    lemma WorkerListed(W: set<nat>, allnodes: seq<string>, w: nat)
      requires WorkerNums(W) && IsListing(W, allnodes) && w in W
      ensures NodeName(name, w) in allnodes && ParseNodeName(NodeName(name, w)) == Some(w)
    {
      hide NodeName, ParseNodeName;
      assert NodeName(name, w) in Elems(allnodes);
      NodeNameRoundTrip(name, w);
    }

    /** In the cluster's own listing the scan finds its masters, its workers and those beyond the requested number. */
    lemma OwnListing(W: set<nat>, allnodes: seq<string>, numNodes: nat)
      requires MastersNamed() && WorkerNums(W) && IsListing(W, allnodes)
      ensures |Pick(MasterKind, allnodes)| == |masters| && |Pick(WorkerKind, allnodes)| == |W|
      ensures Elems(Pick(BeyondKind(numNodes), allnodes)) == Names(name, Beyond(W, numNodes))
      ensures Pick(BeyondKind(numNodes), allnodes) == [] <==> Beyond(W, numNodes) == {}
    {
      hide NodeName, ParseNodeName, HasNodePrefix, Pick, NoDup;
      forall n | n in allnodes
        ensures OfKind(MasterKind, n) <==> n in masters
        ensures OfKind(WorkerKind, n) <==> n in Names(name, W)
        ensures OfKind(BeyondKind(numNodes), n) <==> n in Names(name, Beyond(W, numNodes))
      {
        KindOfListed(W, allnodes, numNodes, n);
      }
      forall n | n in Elems(masters) + Names(name, W) ensures n in allnodes { assert n in Elems(allnodes); }
      PickedSize(MasterKind, allnodes, Elems(masters));
      NoDupSize(masters);
      PickedSize(WorkerKind, allnodes, Names(name, W));
      PickedSize(BeyondKind(numNodes), allnodes, Names(name, Beyond(W, numNodes)));
      NamesSize(name, W);
      NamesSize(name, Beyond(W, numNodes));
    }

    lemma KindOfListed(W: set<nat>, allnodes: seq<string>, numNodes: nat, n: string)
      requires MastersNamed() && WorkerNums(W) && IsListing(W, allnodes) && n in allnodes
      ensures OfKind(MasterKind, n) <==> n in masters
      ensures OfKind(WorkerKind, n) <==> n in Names(name, W)
      ensures OfKind(BeyondKind(numNodes), n) <==> n in Names(name, Beyond(W, numNodes))
    {
      hide NodeName, ParseNodeName, HasNodePrefix;
      ListedNode(W, allnodes, n);
      if n in Names(name, W) {
        var w :| w in W && NodeName(name, w) == n;
        NodeNameRoundTrip(name, w);
        NamesMember(name, Beyond(W, numNodes), w);
      } else {
        assert Names(name, Beyond(W, numNodes)) <= Names(name, W);
      }
    }

    lemma OwnInfo(W: set<nat>, allnodes: seq<string>, numNodes: nat, info: map<string, Action>)
      requires MastersNamed() && WorkerNums(W) && IsListing(W, allnodes) && InfoListed(allnodes, numNodes, info)
      ensures InfoKnown(W, numNodes, W, info)
    {
      hide NodeName, ParseNodeName, HasNodePrefix, IsListing, MastersNamed;
      forall x | x in info ensures x in Names(name, W) {
        var k :| 0 <= k < |allnodes| && NotedAs(allnodes[k], x);
        ListedNode(W, allnodes, allnodes[k]);
        NoNumberUnlessPrefix(allnodes[k]);
      }
      forall w | w in W ensures NodeName(name, w) in info && info[NodeName(name, w)] == ActionFor(W, numNodes, w) {
        WorkerListed(W, allnodes, w);
      }
      forall x | x in Names(name, W) ensures x in info {
        var w :| w in W && NodeName(name, w) == x;
      }
    }

    lemma NoNumberUnlessPrefix(n: string)
      ensures ParseNodeName(n).Some? ==> HasNodePrefix(n)
    {
    }

    lemma InfoScanned(W: set<nat>, n: nat, listed: set<nat>, w: nat, info: map<string, Action>)
      requires WorkerNums(listed + {w}) && w !in listed
      requires info.Keys == Names(name, listed)
      requires forall v :: v in listed ==> NodeName(name, v) in info && info[NodeName(name, v)] == ActionFor(W, n, v)
      ensures var next := info[NodeName(name, w) := ActionFor(W, n, w)];
        && next.Keys == Names(name, listed + {w})
        && (forall v :: v in listed + {w} ==>
          NodeName(name, v) in next && next[NodeName(name, v)] == ActionFor(W, n, v))
    {
      NamesOneMore(listed, w);
      forall v | v in listed ensures NodeName(name, v) != NodeName(name, w) {
        if NodeName(name, v) == NodeName(name, w) { NodeNameInjective(name, v, w); }
      }
    }

    lemma NamesOneMore(nums: set<nat>, w: nat)
      ensures Names(name, nums + {w}) == Names(name, nums) + {NodeName(name, w)}
      ensures nums + {} == nums
    {
    }

    /** chefUpdateInfo for workers W and the requested number n. */
    ghost predicate InfoFor(W: set<nat>, n: nat, info: map<string, Action>) {
      InfoUpTo(W, n, n, info)
    }

    /** Lines 205-210: the requested nodes that are not there yet are to be added. */
    method AddMissing(ghost W: set<nat>, numNodes: nat, before: map<string, Action>) returns (info: map<string, Action>)
      requires WorkerNums(W) && numNodes < UINT32_SIZE
      requires InfoKnown(W, numNodes, W, before)
      ensures InfoFor(W, numNodes, info)
    {
      info := before;
      assert W + UpTo(0) == W;
      for nn := 1 to numNodes + 1
        invariant InfoUpTo(W, numNodes, nn - 1, info)
      {
        info := AddIfMissing(W, numNodes, nn, info);
      }
    }

    ghost predicate InfoUpTo(W: set<nat>, n: nat, m: nat, info: map<string, Action>) {
      InfoKnown(W, n, W + UpTo(m), info)
    }

    /** The update info covers exactly the nodes `known`. */
    ghost predicate InfoKnown(W: set<nat>, n: nat, known: set<nat>, info: map<string, Action>) {
      && info.Keys == Names(name, known)
      && (forall w :: w in known ==> NodeName(name, w) in info && info[NodeName(name, w)] == ActionFor(W, n, w))
    }

    method AddIfMissing(ghost W: set<nat>, ghost n: nat, nn: nat, before: map<string, Action>)
        returns (info: map<string, Action>)
      requires WorkerNums(W) && 1 <= nn <= n < UINT32_SIZE && InfoUpTo(W, n, nn - 1, before)
      ensures InfoUpTo(W, n, nn, info)
    {
      info := before;
      var nodeName := NodeName(name, nn);
      OneMoreNumber(W, nn);
      AddStep(W, n, W + UpTo(nn - 1), nn, before);
      if nodeName !in info {
        info := info[nodeName := Add];
      }
    }

    lemma OneMoreNumber(W: set<nat>, nn: nat)
      requires WorkerNums(W) && 1 <= nn < UINT32_SIZE
      ensures WorkerNums(W + UpTo(nn - 1) + {nn}) && W + UpTo(nn) == W + UpTo(nn - 1) + {nn}
    {
    }

    lemma AddStep(W: set<nat>, n: nat, known: set<nat>, nn: nat, before: map<string, Action>)
      requires WorkerNums(known + {nn}) && W <= known && InfoKnown(W, n, known, before)
      ensures InfoKnown(W, n, known + {nn}, if NodeName(name, nn) in before then before
        else before[NodeName(name, nn) := Add])
    {
      NamesMember(name, known, nn);
      if nn in known {
        assert known + {nn} == known;
      } else {
        InfoScanned(W, n, known, nn, before);
      }
    }

    /** Lines 888-908: the workers to request from the VM provider. */
    method RequestedNodes(numNodes: nat) returns (names: seq<string>)
      ensures Elems(names) == Names(name, UpTo(numNodes))
    {
      hide NodeName, Names, Elems;
      names := [];
      NoNames();
      for nn := 1 to numNodes + 1
        invariant Elems(names) == Names(name, UpTo(nn - 1))
      {
        NextName(names, nn);
        names := names + [NodeName(name, nn)];
      }
    }

    lemma NoNames()
      ensures Elems<string>([]) == Names(name, UpTo(0))
    {
    }

    lemma NextName(names: seq<string>, nn: nat)
      requires 1 <= nn && Elems(names) == Names(name, UpTo(nn - 1))
      ensures Elems(names + [NodeName(name, nn)]) == Names(name, UpTo(nn))
    {
      hide NodeName;
      NamesOneMore(UpTo(nn - 1), nn);
      assert Elems(names + [NodeName(name, nn)]) == Elems(names) + {NodeName(name, nn)};
    }

    /** Lines 1125-1141 of vmparams.go: a Chef client for every requested node that is to be added. */
    method CreateChefClients(names: seq<string>, info: map<string, Action>, fails: set<string>) returns (err: bool)
      modifies this`chef
      ensures !err ==> chef == old(chef) + set x | x in names && x in info && info[x] == Add
      ensures fails == {} ==> !err
    {
      for i := 0 to |names|
        invariant chef == old(chef) + set x | x in names[..i] && x in info && info[x] == Add
      {
        PrefixStep(names, i);
        if names[i] in info && info[names[i]] == Add {
          if names[i] in fails {
            return true;
          }
          chef := chef + {names[i]};
        }
      }
      PrefixAll(names);
      err := false;
    }

    lemma PrefixAll(names: seq<string>)
      ensures names[..|names|] == names
    {
    }

    /** Lines 1142-1150: the clients of nodes that are to go, in any order. */
    method DeleteChefClients(info: map<string, Action>, fails: set<string>) returns (err: bool)
      modifies this`chef
      ensures !err ==> chef == old(chef) - set x | x in info && info[x] == Remove
      ensures fails == {} ==> !err
    {
      var rest := info.Keys;
      while rest != {}
        invariant rest <= info.Keys
        invariant chef == old(chef) - set x | x in info && x !in rest && info[x] == Remove
        decreases rest
      {
        var x :| x in rest;
        rest := rest - {x};
        if info[x] != Remove {
          continue;
        }
        if x in fails {
          return true;
        }
        chef := chef - {x};
      }
      err := false;
    }

    /** The orchestration: Chef clients first, then the VMs. */
    method Orchestrate(ghost W: set<nat>, numNodes: nat, info: map<string, Action>, f: Faults) returns (err: bool)
      requires WorkerNums(W) && numNodes < UINT32_SIZE && InfoFor(W, numNodes, info)
      modifies this`vms, this`chef
      ensures !err ==> chef == ChefAfter(W, numNodes, old(chef))
      ensures !err ==> vms == Names(name, UpTo(numNodes))
      ensures f.Quiet() ==> !err
    {
      if !f.specOk {
        return true;
      }
      var names := RequestedNodes(numNodes);
      err := CreateChefClients(names, info, f.chefCreateFails);
      if err {
        return;
      }
      err := DeleteChefClients(info, f.chefDeleteFails);
      if err {
        return;
      }
      ChefAdds(W, numNodes, names, info);
      ChefRemoves(W, numNodes, info);
      if f.updateVMsOk {
        vms := set x | x in names;
        assert vms == Elems(names);
      } else {
        vms := f.vmsOnFailure;
        err := true;
      }
    }

    /** The nodes that get a client are the missing ones. */
    lemma ChefAdds(W: set<nat>, n: nat, names: seq<string>, info: map<string, Action>)
      requires InfoFor(W, n, info) && Elems(names) == Names(name, UpTo(n))
      ensures (set x | x in names && x in info && info[x] == Add) == Names(name, UpTo(n) - W)
    {
      forall x ensures x in names && x in info && info[x] == Add <==> x in Names(name, UpTo(n) - W) {
        ChefAddsOne(W, n, names, info, x);
      }
    }

    lemma ChefAddsOne(W: set<nat>, n: nat, names: seq<string>, info: map<string, Action>, x: string)
      requires InfoFor(W, n, info) && Elems(names) == Names(name, UpTo(n))
      ensures x in names && x in info && info[x] == Add <==> x in Names(name, UpTo(n) - W)
    {
      hide NodeName;
      assert x in names <==> x in Names(name, UpTo(n)) by { assert x in Elems(names) <==> x in names; }
      if x in Names(name, UpTo(n)) {
        var w :| w in UpTo(n) && NodeName(name, w) == x;
        assert w in W + UpTo(n);
      }
    }

    /** The nodes that lose theirs are those beyond the requested number. */
    lemma ChefRemoves(W: set<nat>, n: nat, info: map<string, Action>)
      requires InfoFor(W, n, info)
      ensures (set x | x in info && info[x] == Remove) == Names(name, Beyond(W, n))
    {
      hide NodeName;
      var removed := set x | x in info && info[x] == Remove;
      forall x | x in removed ensures x in Names(name, Beyond(W, n)) {
        var w :| w in W + UpTo(n) && NodeName(name, w) == x;
      }
      forall x | x in Names(name, Beyond(W, n)) ensures x in removed {
        var w :| w in Beyond(W, n) && NodeName(name, w) == x;
        assert w in W + UpTo(n);
      }
    }

    lemma NamesUnion(a: set<nat>, b: set<nat>)
      ensures Names(name, a) + Names(name, b) == Names(name, a + b)
    {
    }

    lemma NamesMinus(a: set<nat>, b: set<nat>)
      requires WorkerNums(a) && WorkerNums(b)
      ensures Names(name, a) - Names(name, b) == Names(name, a - b)
    {
      forall w | w in a ensures NodeName(name, w) in Names(name, b) <==> w in b {
        NamesMember(name, b, w);
      }
      forall w | w in a - b ensures NodeName(name, w) in Names(name, a) {
      }
    }

    /** As many nodes as are asked for are ready. */
    predicate Ready(numNodes: nat, numMasters: nat)
      reads this
    {
      |kube| + |masters| >= numNodes + numMasters
    }

    /** The masters' taints after a successful wait: with no workers wanted, the one listed last has none. */
    function ReadyTaints(numNodes: nat, taints: set<string>): set<string>
      requires masters != []
    {
      if numNodes == 0 then taints - {Last(masters)} else taints
    }

    /**
     waitClusterReady: VMs join as nodes until all are there or time is up; with no workers wanted, the
     master listed last is untainted.
     */
    method WaitReady(numNodes: nat, numMasters: nat, f: Faults) returns (err: bool)
      requires masters != []
      modifies this`kube, this`tainted, this`safe
      ensures kube == old(kube) + f.joined * vms
      ensures !err ==> Ready(numNodes, numMasters) && tainted == ReadyTaints(numNodes, old(tainted))
      ensures f.Quiet() && Ready(numNodes, numMasters) ==> !err
      ensures old(Schedulable()) ==> Schedulable() && (old(safe) ==> safe)
      ensures safe ==> old(safe)
    {
      kube := kube + f.joined * vms;
      safe := safe && Schedulable();
      if |kube| + |masters| < numNodes + numMasters {
        return true;
      }
      if numNodes == 0 {
        SetMasterTaint(Last(masters), false, f.readyUntaintOk);
        if !f.readyUntaintOk {
          return true;
        }
      }
      err := !f.setupOk;
    }

    /** The delete step takes the last schedulable node away: no worker stays, and no master takes pods. */
    ghost predicate DeleteStrands(W: set<nat>, numNodes: nat, taints: set<string>) {
      !KeepsSomeNode(W, numNodes) && Elems(masters) <= taints
    }

    /** The delete step leaves a worker, or has none to take, or untaints a master first. */
    static ghost predicate KeepsSomeNode(W: set<nat>, numNodes: nat) {
      numNodes == 0 || W == {} || exists w :: w in W && w <= numNodes
    }

    /** As many nodes as requested are there, but not the right ones. */
    static ghost predicate RightCountWrongNodes(W: set<nat>, numNodes: nat) {
      |W| == numNodes && W != UpTo(numNodes)
    }

    /** The masters' taints after the delete step: if it takes all workers, the master listed first has none. */
    function DeleteTaints(W: set<nat>, numNodes: nat, taints: set<string>): set<string>
      requires masters != []
    {
      if numNodes == 0 && W != {} then taints - {masters[0]} else taints
    }

    lemma WhoIsLeft(W: set<nat>, n: nat)
      requires WorkerNums(W)
      ensures Names(name, W) - Names(name, Beyond(W, n)) == Names(name, W - Beyond(W, n))
      ensures Names(name, W - Beyond(W, n)) != {} <==> exists w :: w in W && w <= n
      ensures n == 0 ==> Beyond(W, n) == W
      ensures W == {} ==> Beyond(W, n) == {}
      ensures Beyond(W, n) == {} ==> KeepsSomeNode(W, n) && W - Beyond(W, n) == W
    {
      hide NodeName;
      NamesMinus(W, Beyond(W, n));
      var left := W - Beyond(W, n);
      if w :| w in W && w <= n {
        assert w in left && NodeName(name, w) in Names(name, left);
      }
      if w :| w in left {
        assert w in W && w <= n;
      }
      if W != {} && Beyond(W, n) == {} {
        var w :| w in W;
        assert w !in Beyond(W, n);
      }
    }

    /**
     Lines 191-204: delete the nodes beyond the requested number, taking the first master's taint off first
     if no worker is wanted.
     */
    method RemoveExtraNodes(ghost W: set<nat>, numNodes: nat, toRemove: seq<string>, f: Faults) returns (err: bool)
      requires MastersNamed() && WorkerNums(W) && kube == Names(name, W) && (safe ==> Schedulable())
      requires Elems(toRemove) == Names(name, Beyond(W, numNodes)) && (toRemove == [] <==> Beyond(W, numNodes) == {})
      modifies this`kube, this`tainted, this`safe
      ensures !err ==>
        kube == Names(name, W - Beyond(W, numNodes)) && tainted == DeleteTaints(W, numNodes, old(tainted))
      ensures f.Quiet() ==> !err
      ensures toRemove != [] && (numNodes == 0 ==> f.untaintOk) && !f.deleteOk ==>
        err && kube == old(kube) - Elems(Deleted(toRemove, false, f.deleted))
      ensures safe ==> Schedulable() && old(safe)
      ensures old(safe) && !DeleteStrands(W, numNodes, old(tainted)) ==> safe
      ensures DeleteStrands(W, numNodes, old(tainted)) && f.deleteOk ==> !safe
    {
      hide NodeName, Names, NoDup, HasNodePrefix, Beyond, Elems, Deleted;
      WhoIsLeft(W, numNodes);
      TakesPods(tainted);
      err := false;
      if toRemove != [] {
        if numNodes == 0 {
          SetMasterTaint(masters[0], false, f.untaintOk);
          if !f.untaintOk {
            return true;
          }
          assert masters[0] in masters && masters[0] !in tainted;
        }
        DeletedSome(toRemove, f.deleteOk, f.deleted);
        err := DeleteNodes(toRemove, f.deleteOk, f.deleted);
        assert Names(name, W - Beyond(W, numNodes)) <= kube;
      }
    }

    lemma TakesPods(taints: set<string>)
      ensures Elems(masters) <= taints <==> !SomeMasterFree(taints)
    {
    }

    lemma DeletedSome(toRemove: seq<string>, ok: bool, count: nat)
      ensures Elems(Deleted(toRemove, ok, count)) <= Elems(toRemove)
      ensures ok ==> Deleted(toRemove, ok, count) == toRemove
    {
    }

    /** The first taint comes before the first worker: masters that nobody configured ended the wait. */
    ghost predicate TaintStrands(W: set<nat>, numNodes: nat, numMasters: nat, f: Faults, taints: set<string>)
      requires masters != []
    {
      && numNodes > 0 && W == {} && f.joined * Names(name, UpTo(numNodes)) == {}
      && |masters| >= numNodes + numMasters && Elems(masters) <= taints + {masters[0]}
    }

    /** The Chef clients after the update of those that are missing or to go. */
    ghost function ChefAfter(W: set<nat>, numNodes: nat, clients: set<string>): set<string> {
      clients + Names(name, UpTo(numNodes) - W) - Names(name, Beyond(W, numNodes))
    }

    /** After the orchestration: VMs are the requested ones, nodes those that were kept or joined. */
    ghost predicate Grown(W: set<nat>, numNodes: nat, f: Faults, clients: set<string>)
      reads this
    {
      && vms == Names(name, UpTo(numNodes)) && chef == ChefAfter(W, numNodes, clients)
      && kube == Names(name, W - Beyond(W, numNodes)) + f.joined * Names(name, UpTo(numNodes))
    }

    /**
     The masters' taints after a successful wait and, with the first workers, the taint of the master listed
     first.
     */
    function GrowTaints(W: set<nat>, numNodes: nat, taints: set<string>): set<string>
      requires masters != []
    {
      if numNodes > 0 && W == {} then taints + {masters[0]} else ReadyTaints(numNodes, taints)
    }

    /** Lines 216-236: orchestrate, wait for the nodes, and taint the first master if these are the first workers. */
    method Grow(ghost W: set<nat>, numNodes: nat, numMasters: nat, existingNodes: nat, info: map<string, Action>,
        f: Faults)
      returns (err: bool)
      requires masters != []
      requires WorkerNums(W) && numNodes < UINT32_SIZE && InfoFor(W, numNodes, info) && existingNodes == |W|
      requires kube == Names(name, W - Beyond(W, numNodes)) && (safe ==> Schedulable())
      modifies this
      ensures !err || f.Quiet() ==> Grown(W, numNodes, f, old(chef))
      ensures !err ==> Ready(numNodes, numMasters) && tainted == GrowTaints(W, numNodes, old(tainted))
      ensures f.Quiet() && Ready(numNodes, numMasters) ==> !err
      ensures old(safe) && !TaintStrands(W, numNodes, numMasters, f, old(tainted)) ==> safe
      ensures safe ==> Schedulable() && old(safe)
      ensures f.Quiet() && TaintStrands(W, numNodes, numMasters, f, old(tainted)) ==> !safe
    {
      hide InfoFor, Names, WorkerNums, ChefAfter;
      var addTaint := numNodes > 0 && existingNodes == 0;
      err := Orchestrate(W, numNodes, info, f);
      if err {
        return;
      }
      err := WaitReady(numNodes, numMasters, f);
      if err {
        return;
      }
      if addTaint {
        NobodyThere(W, numNodes, f);
        SetMasterTaint(masters[0], true, f.taintOk);
        err := !f.taintOk;
      }
    }

    lemma NobodyThere(W: set<nat>, numNodes: nat, f: Faults)
      requires W == {} && kube == Names(name, W - Beyond(W, numNodes)) + f.joined * Names(name, UpTo(numNodes))
      ensures kube == f.joined * Names(name, UpTo(numNodes))
    {
    }

    lemma NamesSubset(a: set<nat>, b: set<nat>)
      requires a <= b
      ensures Names(name, a) <= Names(name, b)
    {
    }

    lemma SameNames(a: set<nat>, b: set<nat>)
      requires WorkerNums(a) && WorkerNums(b)
      ensures Names(name, a) == Names(name, b) <==> a == b
    {
      if a != b {
        assert !(forall w :: w in a <==> w in b);
        var w :| (w in a && w !in b) || (w in b && w !in a);
        NamesMember(name, a, w);
        NamesMember(name, b, w);
      }
    }

    /** Whether a successful update brings nodes, VMs and Chef clients in step, from any VMs and clients before it. */
    ghost predicate EndsInStep(W: set<nat>, n: nat, numMasters: nat, f: Faults, vmsBefore: set<string>,
        clients: set<string>)
    {
      if Unchanged(W, n, numMasters) then
        W == UpTo(n) && vmsBefore == Names(name, W) && clients == Names(name, W)
      else
        && (|masters| == numMasters || Names(name, UpTo(n) - W) <= f.joined)
        && Names(name, W - Beyond(W, n)) <= clients <= Names(name, W + UpTo(n))
    }

    /** The update stopped early: fine exactly if everything was right already. */
    lemma NothingChanging(W: set<nat>, n: nat)
      requires WorkerNums(W) && n < UINT32_SIZE && |W| == n && kube == Names(name, W - Beyond(W, n))
      ensures NodesInStep(UpTo(n)) <==> W == UpTo(n) && vms == Names(name, W) && chef == Names(name, W)
    {
      if W == UpTo(n) {
        assert W - Beyond(W, n) == W;
      } else if kube == Names(name, UpTo(n)) {
        SameNames(W - Beyond(W, n), UpTo(n));
        assert UpTo(n) <= W;
        LargeSubsetIsAll(UpTo(n), W);
      }
    }

    lemma MissingJoined(left: set<string>, missing: set<string>, joined: set<string>)
      requires missing - left == missing
      ensures left + joined * (left + missing) == left + missing <==> missing <= joined
    {
      if left + joined * (left + missing) == left + missing {
        forall x | x in missing ensures x in joined { assert x in missing - left; }
      }
    }

    lemma ClientsRight(left: set<string>, missing: set<string>, gone: set<string>, clients: set<string>)
      requires (left + missing) - gone == left + missing && missing - left == missing
      ensures clients + missing - gone == left + missing <==> left <= clients <= left + missing + gone
    {
      if clients + missing - gone == left + missing {
        forall x | x in left ensures x in clients {
          assert x in clients + missing - gone;
          assert x in missing ==> x !in left by { assert x in missing ==> x in missing - left; }
        }
      }
      if left <= clients <= left + missing + gone {
        forall x | x in left + missing ensures x !in gone { assert x in (left + missing) - gone; }
      }
    }

    /** The requested numbers are those kept and those missing; those to go are none of them. */
    lemma NamesSplit(W: set<nat>, n: nat)
      requires WorkerNums(W) && n < UINT32_SIZE
      ensures var left, missing, gone :=
          Names(name, W - Beyond(W, n)), Names(name, UpTo(n) - W), Names(name, Beyond(W, n));
        && left + missing == Names(name, UpTo(n)) && left + missing + gone == Names(name, W + UpTo(n))
        && missing - left == missing && (left + missing) - gone == left + missing
    {
      hide Names;
      var left, missing, gone := W - Beyond(W, n), UpTo(n) - W, Beyond(W, n);
      NamesUnion(left, missing);
      NamesUnion(left + missing, gone);
      assert left + missing == UpTo(n) && left + missing + gone == W + UpTo(n);
      NamesMinus(missing, left);
      NamesMinus(UpTo(n), gone);
      assert missing - left == missing && UpTo(n) - gone == UpTo(n);
    }

    /** A grown cluster is in step exactly if every missing node joined, and no client was missing or left over. */
    lemma GrownInStep(W: set<nat>, n: nat, f: Faults, clients: set<string>)
      requires WorkerNums(W) && n < UINT32_SIZE && Grown(W, n, f, clients)
      ensures kube == Names(name, UpTo(n)) <==> Names(name, UpTo(n) - W) <= f.joined
      ensures chef == Names(name, UpTo(n)) <==>
        Names(name, W - Beyond(W, n)) <= clients <= Names(name, W + UpTo(n))
    {
      hide Names, UpTo;
      var left, missing, gone := Names(name, W - Beyond(W, n)), Names(name, UpTo(n) - W), Names(name, Beyond(W, n));
      NamesSplit(W, n);
      MissingJoined(left, missing, f.joined);
      ClientsRight(left, missing, gone, clients);
    }

    /** With no master too many, enough ready nodes are all of them, and there is no master too few. */
    lemma ReadyMeansAll(W: set<nat>, n: nat, numMasters: nat, f: Faults, clients: set<string>)
      requires WorkerNums(W) && n < UINT32_SIZE && Grown(W, n, f, clients)
      requires Ready(n, numMasters) && |masters| <= numMasters
      ensures |masters| == numMasters && kube == Names(name, UpTo(n))
    {
      NamesSubset(W - Beyond(W, n), UpTo(n));
      NamesSize(name, UpTo(n));
      SubsetSize(kube, Names(name, UpTo(n)));
      LargeSubsetIsAll(kube, Names(name, UpTo(n)));
    }

    /** If all VMs join, the nodes are as many as requested. */
    lemma JoinedMeansReady(W: set<nat>, n: nat, numMasters: nat, f: Faults, clients: set<string>)
      requires WorkerNums(W) && n < UINT32_SIZE && Grown(W, n, f, clients)
      requires Names(name, UpTo(n)) <= f.joined && |masters| >= numMasters
      ensures Ready(n, numMasters)
    {
      NamesSubset(W - Beyond(W, n), UpTo(n));
      NamesSize(name, UpTo(n));
      assert kube == Names(name, UpTo(n));
    }

    /** The scan finds as many masters and workers as configured, so nothing more is done. */
    ghost predicate Unchanged(W: set<nat>, numNodes: nat, numMasters: nat) {
      |masters| == numMasters && |W| == numNodes
    }

    /** The new state. */
    ghost predicate Outcome(W: set<nat>, numNodes: nat, numMasters: nat, f: Faults, vmsBefore: set<string>,
        clients: set<string>)
      reads this
    {
      if Unchanged(W, numNodes, numMasters) then
        vms == vmsBefore && chef == clients && kube == Names(name, W - Beyond(W, numNodes))
      else
        Grown(W, numNodes, f, clients)
    }

    /** The masters' taints after a successful update. */
    ghost function TaintsAfter(W: set<nat>, numNodes: nat, numMasters: nat, taints: set<string>): set<string>
      requires masters != []
    {
      if Unchanged(W, numNodes, numMasters) then taints
      else GrowTaints(W, numNodes, DeleteTaints(W, numNodes, taints))
    }

    /** What a successful update leaves, by the number of masters there are. */
    lemma SuccessInStep(W: set<nat>, n: nat, numMasters: nat, f: Faults, vmsBefore: set<string>, clients: set<string>)
      requires WorkerNums(W) && n < UINT32_SIZE && Outcome(W, n, numMasters, f, vmsBefore, clients)
      requires Unchanged(W, n, numMasters) || Ready(n, numMasters)
      ensures |masters| >= numMasters
      ensures NodesInStep(UpTo(n)) <==> EndsInStep(W, n, numMasters, f, vmsBefore, clients)
    {
      hide WorkerNums, Names;
      if Unchanged(W, n, numMasters) {
        NothingChanging(W, n);
      } else {
        GrownInStep(W, n, f, clients);
        if |masters| <= numMasters { ReadyMeansAll(W, n, numMasters, f, clients); }
      }
    }

    /**
     updateClusterInternal, whatever VMs, Chef clients and taints an earlier update left. A successful
     update with too few masters does not exist; EndsInStep says when any other brings nodes, VMs and
     clients in step. It succeeds if no call fails and all VMs join. Some node is schedulable at every step
     exactly if neither the delete step nor the first taint strands the pods.
     */
    method Update(ghost W: set<nat>, numNodes: nat, numMasters: nat, allnodes: seq<string>, f: Faults)
        returns (err: bool)
      requires MastersNamed() && WorkerNums(W) && numNodes < UINT32_SIZE
      requires kube == Names(name, W) && IsListing(W, allnodes) && (safe ==> Schedulable())
      modifies this
      ensures !err || f.Quiet() ==> Outcome(W, numNodes, numMasters, f, old(vms), old(chef))
      ensures !err ==> tainted == TaintsAfter(W, numNodes, numMasters, old(tainted))
      ensures |masters| < numMasters ==> err
      ensures !err ==> (NodesInStep(UpTo(numNodes)) <==> EndsInStep(W, numNodes, numMasters, f, old(vms), old(chef)))
      ensures f.Quiet() ==> (err <==> !Unchanged(W, numNodes, numMasters) && !Ready(numNodes, numMasters))
      ensures f.Quiet() && Names(name, UpTo(numNodes)) <= f.joined && |masters| >= numMasters ==> !err
      ensures DeleteFails(numNodes, allnodes, f) ==>
        && err && vms == old(vms) && chef == old(chef)
        && kube == old(kube) - Elems(Deleted(Pick(BeyondKind(numNodes), allnodes), false, f.deleted))
      ensures safe ==> Schedulable() && old(safe)
      ensures !DeleteStrands(W, numNodes, old(tainted)) && !TaintStrands(W, numNodes, numMasters, f, old(tainted)) ==>
        safe == old(safe)
      ensures DeleteStrands(W, numNodes, old(tainted)) && f.masterNameOk && f.listOk && f.deleteOk ==> !safe
      ensures f.Quiet() && TaintStrands(W, numNodes, numMasters, f, old(tainted)) ==> !safe
    {
      hide IsListing, MastersNamed, Pick, InfoListed, InfoKnown, TaintStrands, Grown, Ready, DeleteStrands, WorkerNums;
      hide Names, Beyond, UpTo, Unchanged, EndsInStep, NodesInStep, Deleted, GrowTaints;
      SomeMaster();
      if !f.masterNameOk {
        return true;
      }
      if !f.listOk {
        return true;
      }
      var toRemove, info, existingMaster, existingNodes := ScanNodes(allnodes, numNodes);
      OwnListing(W, allnodes, numNodes);
      OwnInfo(W, allnodes, numNodes, info);
      err := RemoveExtraNodes(W, numNodes, toRemove, f);
      if err {
        return;
      }
      FewTaints(W, numNodes, numMasters, f, old(tainted));
      err := Reconcile(W, numNodes, numMasters, existingMaster, existingNodes, info, f);
      UpdateEnds(W, numNodes, numMasters, f, old(vms), old(chef), err);
    }

    /** The delete command of the update fails, after it was reached. */
    ghost predicate DeleteFails(numNodes: nat, allnodes: seq<string>, f: Faults) {
      && f.masterNameOk && f.listOk && (numNodes == 0 ==> f.untaintOk) && !f.deleteOk
      && Pick(BeyondKind(numNodes), allnodes) != []
    }

    lemma SomeMaster()
      requires MastersNamed()
      ensures masters != []
    {
    }

    /** The delete step changes taints only if it takes workers, and then no first taint follows. */
    lemma FewTaints(W: set<nat>, n: nat, numMasters: nat, f: Faults, taints: set<string>)
      requires masters != []
      ensures TaintStrands(W, n, numMasters, f, DeleteTaints(W, n, taints)) == TaintStrands(W, n, numMasters, f, taints)
      ensures Unchanged(W, n, numMasters) ==> DeleteTaints(W, n, taints) == taints
    {
    }

    lemma UpdateEnds(W: set<nat>, n: nat, numMasters: nat, f: Faults, vmsBefore: set<string>, clients: set<string>,
        err: bool)
      requires WorkerNums(W) && n < UINT32_SIZE
      requires !err || f.Quiet() ==> Outcome(W, n, numMasters, f, vmsBefore, clients)
      requires !err ==> Unchanged(W, n, numMasters) || Ready(n, numMasters)
      requires f.Quiet() && (Unchanged(W, n, numMasters) || Ready(n, numMasters)) ==> !err
      ensures |masters| < numMasters ==> err
      ensures !err ==> (NodesInStep(UpTo(n)) <==> EndsInStep(W, n, numMasters, f, vmsBefore, clients))
      ensures f.Quiet() && Names(name, UpTo(n)) <= f.joined && |masters| >= numMasters ==> !err
    {
      hide NodesInStep, EndsInStep, WorkerNums, Names, Grown, Ready;
      if !err {
        SuccessInStep(W, n, numMasters, f, vmsBefore, clients);
      } else if f.Quiet() && Names(name, UpTo(n)) <= f.joined && |masters| >= numMasters {
        JoinedMeansReady(W, n, numMasters, f, clients);
      }
    }

    /** Lines 205-237. */
    method Reconcile(ghost W: set<nat>, numNodes: nat, numMasters: nat, existingMaster: nat, existingNodes: nat,
        known: map<string, Action>, f: Faults)
      returns (err: bool)
      requires masters != []
      requires WorkerNums(W) && numNodes < UINT32_SIZE && InfoKnown(W, numNodes, W, known)
      requires existingMaster == |masters| && existingNodes == |W|
      requires kube == Names(name, W - Beyond(W, numNodes)) && (safe ==> Schedulable())
      modifies this
      ensures !err || f.Quiet() ==> Outcome(W, numNodes, numMasters, f, old(vms), old(chef))
      ensures !err ==> Unchanged(W, numNodes, numMasters) || Ready(numNodes, numMasters)
      ensures !err ==>
        tainted == if Unchanged(W, numNodes, numMasters) then old(tainted) else GrowTaints(W, numNodes, old(tainted))
      ensures f.Quiet() && (Unchanged(W, numNodes, numMasters) || Ready(numNodes, numMasters)) ==> !err
      ensures old(safe) && !TaintStrands(W, numNodes, numMasters, f, old(tainted)) ==> safe
      ensures safe ==> Schedulable() && old(safe)
      ensures f.Quiet() && TaintStrands(W, numNodes, numMasters, f, old(tainted)) ==> !safe
    {
      hide InfoKnown, InfoFor, Grown, Ready, Names, WorkerNums, GrowTaints;
      var info := AddMissing(W, numNodes, known);
      if existingMaster == numMasters && existingNodes == numNodes {
        return false;
      }
      err := Grow(W, numNodes, numMasters, existingNodes, info, f);
    }
  }

  /**
   From workers {1..m} an update to any number n meets neither problem: it ends in step and never strands the
   pods.
   */
  lemma ContiguousIsFine(m: nat, n: nat)
    ensures !Cluster.RightCountWrongNodes(UpTo(m), n) && Cluster.KeepsSomeNode(UpTo(m), n)
  {
    if m > 0 { assert 1 in UpTo(m); }
    if n == 0 && m > 0 { assert |UpTo(m)| == m; }
  }
}
