/**
 What updates make of a cluster that is in step, by the number of its masters, and updates from concrete
 clusters that end out of step or leave pods without a node.
 */
module ClusterRuns {
  import opened ClusterNames
  import opened ClusterUpdate
  import opened Options
  import opened Seqs

  // ---------------------------------------------------------------------------------------------
  // From a cluster in step
  // ---------------------------------------------------------------------------------------------

  /**
   With the configured number of masters, a successful update ends in step unless the count was already
   right for the wrong nodes; with more masters, if every missing node joined in time.
   */
  lemma FromInStep(c: Cluster, W: set<nat>, n: nat, numMasters: nat, f: Faults)
    requires WorkerNums(W) && n < UINT32_SIZE
    ensures c.EndsInStep(W, n, numMasters, f, Names(c.name, W), Names(c.name, W)) <==>
      if |c.masters| == numMasters then !Cluster.RightCountWrongNodes(W, n)
      else Names(c.name, UpTo(n) - W) <= f.joined
  {
    hide Names;
    c.NamesSubset(W - Beyond(W, n), W);
    c.NamesSubset(W, W + UpTo(n));
  }

  /** How many masters the code keeps tainted in step: it taints the first and untaints the first and the last. */
  lemma TaintsFitExactly(c: Cluster, W: set<nat>, n: nat, numMasters: nat, taints: set<string>)
    requires c.masters != [] && NoDup(c.masters) && c.TaintsFit(W, taints)
    ensures c.TaintsFit(UpTo(n), c.TaintsAfter(W, n, numMasters, taints)) <==>
      (W == {} <==> n == 0) || |c.masters| == 1 || (n == 0 && |c.masters| == 2)
  {
    EmptyUpTo(n);
    if W == {} && n > 0 {
      OneElement(c.masters);
    } else if W != {} && n == 0 {
      TwoElements(c.masters);
    }
  }

  lemma EmptyUpTo(n: nat)
    ensures UpTo(n) == {} <==> n == 0
  {
    if n > 0 { assert n in UpTo(n); }
  }

  lemma OneElement(s: seq<string>)
    requires s != [] && NoDup(s)
    ensures Elems(s) == {} + {s[0]} <==> |s| == 1
    ensures Elems(s) <= {} + {s[0]} <==> |s| == 1
  {
    if |s| > 1 { assert s[1] in Elems(s) && s[1] != s[0]; }
  }

  lemma TwoElements(s: seq<string>)
    requires s != [] && NoDup(s)
    ensures Elems(s) - {s[0]} - {Last(s)} == {} <==> |s| <= 2
  {
    if |s| > 2 {
      assert s[1] in Elems(s) - {s[0]} - {Last(s)};
    }
  }

  /**
   With taints in step, deleting strands the pods exactly if it keeps no node, and the first taint only by
   surplus masters.
   */
  lemma StrandsFromInStep(c: Cluster, W: set<nat>, n: nat, numMasters: nat, f: Faults, taints: set<string>)
    requires c.masters != [] && NoDup(c.masters) && c.TaintsFit(W, taints)
    ensures c.DeleteStrands(W, n, taints) <==> !Cluster.KeepsSomeNode(W, n)
    ensures c.TaintStrands(W, n, numMasters, f, taints) ==> |c.masters| == 1 && numMasters == 0
  {
    if W == {} { OneElement(c.masters); }
  }

  // ---------------------------------------------------------------------------------------------
  // Gaps in the numbering
  // ---------------------------------------------------------------------------------------------

  /** Nothing fails and these VMs join. */
  function Joining(joined: set<string>): (f: Faults)
    ensures f.Quiet() && f.joined == joined
  {
    Faults(true, true, true, true, 0, true, {}, {}, true, {}, joined, true, true, true)
  }

  function NamesOf(c: string, nums: seq<nat>): seq<string> {
    seq(|nums|, i requires 0 <= i < |nums| => NodeName(c, nums[i]))
  }

  lemma NamesOfNums(c: string, nums: seq<nat>)
    requires NoDup(nums) && WorkerNums(Elems(nums))
    ensures Elems(NamesOf(c, nums)) == Names(c, Elems(nums)) && NoDup(["master"] + NamesOf(c, nums))
    ensures nums != [] ==> Elems(NamesOf(c, nums)) != {}
  {
    hide NodeName;
    var names := NamesOf(c, nums);
    forall i | 0 <= i < |nums|
      ensures nums[i] in Elems(nums) && names[i] == NodeName(c, nums[i]) && HasNodePrefix(names[i])
    {
      assert nums[i] in Elems(nums);
      NodeNameRoundTrip(c, nums[i]);
    }
    forall i, j | 0 <= i < j < |nums| ensures names[i] != names[j] {
      if names[i] == names[j] { NodeNameInjective(c, nums[i], nums[j]); }
    }
    if nums != [] { assert names[0] in Elems(names); }
    forall w | w in Elems(nums) ensures NodeName(c, w) in Elems(names) {
      var i :| 0 <= i < |nums| && nums[i] == w;
      assert names[i] in names;
    }
  }

  /** A cluster of one master in step with workers `nums`, and its node list. */
  method InStep(nums: seq<nat>) returns (c: Cluster, allnodes: seq<string>)
    requires NoDup(nums) && WorkerNums(Elems(nums))
    ensures fresh(c) && c.name == "c" && c.masters == ["master"] && c.MastersNamed()
    ensures c.Holds(Elems(nums)) && c.safe && c.Schedulable()
    ensures c.IsListing(Elems(nums), allnodes) && allnodes == ["master"] + NamesOf("c", nums)
  {
    hide NodeName, Names, WorkerNums, NamesOf;
    var names := NamesOf("c", nums);
    NamesOfNums("c", nums);
    var taints := if nums == [] then {} else {"master"};
    c := new Cluster("c", ["master"], taints, Elems(names), Elems(names), Elems(names));
    allnodes := ["master"] + names;
    assert Elems(["master"]) == {"master"} && Elems(allnodes) == {"master"} + Elems(names);
    assert nums != [] ==> nums[0] in Elems(nums);
    assert "master" in c.masters;
  }

  /** An update to n nodes of a cluster of one master whose workers are `nums`, with nothing failing. */
  method UpdateFrom(nums: seq<nat>, n: nat) returns (c: Cluster, err: bool)
    requires NoDup(nums) && WorkerNums(Elems(nums)) && n < UINT32_SIZE
    ensures fresh(c) && !err
    ensures var W := Elems(nums);
      c.Outcome(W, n, 1, Joining(Names(c.name, UpTo(n))), Names(c.name, W), Names(c.name, W)) && |c.masters| == 1
    ensures c.Holds(UpTo(n)) <==> !Cluster.RightCountWrongNodes(Elems(nums), n)
    ensures c.safe <==> Cluster.KeepsSomeNode(Elems(nums), n)
  {
    hide NodeName, Names, WorkerNums, NamesOf;
    ghost var W := Elems(nums);
    var allnodes;
    c, allnodes := InStep(nums);
    var f := Joining(Names("c", UpTo(n)));
    FromInStep(c, W, n, 1, f);
    TaintsFitExactly(c, W, n, 1, c.tainted);
    StrandsFromInStep(c, W, n, 1, f, c.tainted);
    err := c.Update(W, n, 1, allnodes, f);
  }

  lemma GapNumbers(nums: seq<nat>)
    requires nums == [1, 3] || nums == [5]
    ensures NoDup(nums) && Elems(nums) == (if |nums| == 2 then {1, 3} else {5}) && WorkerNums(Elems(nums))
  {
  }

  /** Deleting the nodes beyond the requested number may leave too few of them, or none. */
  lemma GapsAreNot()
    ensures Cluster.RightCountWrongNodes({1, 3}, 2) && Cluster.KeepsSomeNode({1, 3}, 2)
      && {1, 3} - Beyond({1, 3}, 2) == {1}
    ensures Cluster.RightCountWrongNodes({5}, 1) && !Cluster.KeepsSomeNode({5}, 1) && {5} - Beyond({5}, 1) == {}
    ensures !Cluster.RightCountWrongNodes({5}, 2) && !Cluster.KeepsSomeNode({5}, 2)
  {
    assert 3 !in UpTo(2) && 5 !in UpTo(1);
    assert 1 in {1, 3};
  }

  /** The workers are 1 and 3 and two are asked for: node 3 is deleted, nothing is added, yet all is reported well. */
  method GapStaysOutOfStep() returns (c: Cluster, err: bool)
    ensures fresh(c) && !err && !c.Holds(UpTo(2)) && c.safe
    ensures c.kube == Names(c.name, {1}) && c.vms == Names(c.name, {1, 3})
  {
    GapNumbers([1, 3]);
    c, err := UpdateFrom([1, 3], 2);
    GapsAreNot();
  }

  /** The only worker is 5 and one is asked for: no worker is left and the master stays tainted. */
  method GapStrandsForGood() returns (c: Cluster, err: bool)
    ensures fresh(c) && !err && !c.Holds(UpTo(1)) && !c.safe
    ensures c.kube == {} && c.vms == Names(c.name, {5})
  {
    GapNumbers([5]);
    c, err := UpdateFrom([5], 1);
    GapsAreNot();
  }

  /**
   The only worker is 5 and two are asked for: the cluster ends in step, but was without a schedulable node
   on the way.
   */
  method GapStrandsOnTheWay() returns (c: Cluster, err: bool)
    ensures fresh(c) && !err && c.Holds(UpTo(2)) && !c.safe
  {
    GapNumbers([5]);
    c, err := UpdateFrom([5], 2);
    GapsAreNot();
  }

  // ---------------------------------------------------------------------------------------------
  // Retries
  // ---------------------------------------------------------------------------------------------

  /** The delete command fails after one node. */
  function FailingDelete(): Faults {
    Faults(true, true, true, false, 1, true, {}, {}, true, {}, {}, true, true, true)
  }

  lemma FourNumbers(nums: seq<nat>)
    requires nums == [1, 2, 3, 4]
    ensures Elems(nums) == {1, 2, 3, 4} && NoDup(nums) && WorkerNums(Elems(nums))
  {
  }

  lemma TwoBeyond(allnodes: seq<string>)
    requires allnodes == ["master"] + NamesOf("c", [1, 2, 3, 4])
    ensures Pick(BeyondKind(2), allnodes) == [NodeName("c", 3), NodeName("c", 4)]
  {
    var nodes := [NodeName("c", 1), NodeName("c", 2), NodeName("c", 3), NodeName("c", 4)];
    assert allnodes == ["master"] + nodes;
    NoSuchNumber("master");
    NodeNameRoundTrip("c", 1);
    NodeNameRoundTrip("c", 2);
    NodeNameRoundTrip("c", 3);
    NodeNameRoundTrip("c", 4);
    hide NodeName, ParseNodeName, HasNodePrefix;
    forall i | 0 <= i < 5 { PickStep(allnodes, i); }
    assert allnodes[..5] == allnodes && allnodes[..0] == [];
    assert Pick(BeyondKind(2), allnodes[..3]) == [];
  }

  lemma NoSuchNumber(n: string)
    requires n == "master"
    ensures ParseNodeName(n) == None && !HasNodePrefix(n)
  {
  }

  /**
   Workers 1 to 4; an update to two nodes fails after deleting node 3; then three are asked for and nothing
   fails. The count is right, so the retry only deletes node 4: it reports success with two nodes and four VMs.
   */
  method RetryStaysOutOfStep() returns (c: Cluster, first: bool, err: bool)
    ensures fresh(c) && first && !err && !c.NodesInStep(UpTo(3))
    ensures c.kube == Names(c.name, {1, 2}) && c.vms == Names(c.name, {1, 2, 3, 4})
  {
    hide NodeName, Names, WorkerNums, NamesOf, Pick;
    ghost var W := {1, 2, 3, 4};
    var nums, allnodes := [1, 2, 3, 4], [];
    FourNumbers(nums);
    c, allnodes := InStep(nums);
    TwoBeyond(allnodes);
    first := c.Update(W, 2, 1, allnodes, FailingDelete());
    NodeThreeGone(c);
    var remaining := ["master"] + NamesOf("c", [1, 2, 4]);
    RetryListing(c, remaining);
    err := c.Update({1, 2, 4}, 3, 1, remaining, Joining({}));
    RetryOutcome(c);
  }

  lemma NodeThreeGone(c: Cluster)
    requires c.name == "c"
    ensures var gone := Cluster.Deleted([NodeName("c", 3), NodeName("c", 4)], false, 1);
      Names("c", {1, 2, 3, 4}) - Elems(gone) == Names("c", {1, 2, 4})
  {
    hide NodeName;
    c.NamesMinus({1, 2, 3, 4}, {3});
    assert {1, 2, 3, 4} - {3} == {1, 2, 4};
    var gone := Cluster.Deleted([NodeName("c", 3), NodeName("c", 4)], false, 1);
    assert gone == [NodeName("c", 3)];
    assert Elems(gone) == Names("c", {3});
  }

  lemma RetryListing(c: Cluster, remaining: seq<string>)
    requires c.name == "c" && c.masters == ["master"] && remaining == ["master"] + NamesOf("c", [1, 2, 4])
    ensures WorkerNums({1, 2, 4}) && c.IsListing({1, 2, 4}, remaining)
  {
    hide NodeName;
    assert Elems([1, 2, 4]) == {1, 2, 4};
    NamesOfNums("c", [1, 2, 4]);
    assert Elems(["master"]) == {"master"} && Elems(remaining) == {"master"} + Elems(NamesOf("c", [1, 2, 4]));
  }

  lemma RetryOutcome(c: Cluster)
    requires c.name == "c" && c.masters == ["master"]
    ensures c.Unchanged({1, 2, 4}, 3, 1) && !c.DeleteStrands({1, 2, 4}, 3, {"master"})
    ensures {1, 2, 4} - Beyond({1, 2, 4}, 3) == {1, 2} && {1, 2, 4} != UpTo(3)
  {
    assert 3 !in {1, 2, 4} && 3 in UpTo(3);
    assert 1 in {1, 2, 4};
  }

  // ---------------------------------------------------------------------------------------------
  // More than one master
  // ---------------------------------------------------------------------------------------------

  /** A cluster of masters m1 and m2 and no workers. */
  method TwoMasters(taints: set<string>) returns (c: Cluster, allnodes: seq<string>)
    requires "m1" !in taints
    ensures fresh(c) && c.name == "c" && c.masters == ["m1", "m2"] && c.MastersNamed() && c.tainted == taints
    ensures c.NodesInStep({}) && c.safe && c.Schedulable() && c.IsListing({}, allnodes)
  {
    hide NodeName;
    allnodes := ["m1", "m2"];
    c := new Cluster("c", allnodes, taints, {}, {}, {});
    assert allnodes[0] != allnodes[1] && "m1" in allnodes;
    assert Names("c", {}) == {} && Elems(allnodes) + {} == Elems(allnodes);
  }

  /**
   One master more than configured, the second of them tainted, no workers, and one is asked for: the
   master that is ready in the worker's place ends the wait before any worker joins, and the taint of the
   first master leaves no schedulable node.
   */
  method SurplusMasterStrands() returns (c: Cluster, err: bool)
    ensures fresh(c) && !err && c.kube == {} && !c.Schedulable() && !c.safe
  {
    hide NodeName;
    var allnodes;
    c, allnodes := TwoMasters({"m2"});
    NobodyJoins(c);
    err := c.Update({}, 1, 1, allnodes, Joining({}));
  }

  lemma NobodyJoins(c: Cluster)
    requires c.name == "c" && c.masters == ["m1", "m2"]
    ensures WorkerNums({}) && !c.Unchanged({}, 1, 1)
    ensures Names("c", {} - Beyond({}, 1)) + {} * Names("c", UpTo(1)) == {}
    ensures c.TaintStrands({}, 1, 1, Joining({}), {"m2"})
    ensures !c.SomeMasterFree({"m2"} + {"m1"})
  {
  }

  /** With two masters as configured, the first worker gets only the first master tainted. */
  method SecondMasterUntainted() returns (c: Cluster, err: bool)
    ensures fresh(c) && !err && c.NodesInStep(UpTo(1)) && c.safe
    ensures c.tainted == {"m1"} && !c.TaintsFit(UpTo(1), c.tainted)
  {
    hide NodeName, Names;
    var allnodes;
    c, allnodes := TwoMasters({});
    FromInStep(c, {}, 1, 2, Joining(Names("c", UpTo(1))));
    FirstOfTwo(c);
    err := c.Update({}, 1, 2, allnodes, Joining(Names("c", UpTo(1))));
  }

  lemma FirstOfTwo(c: Cluster)
    requires c.name == "c" && c.masters == ["m1", "m2"]
    ensures WorkerNums({}) && !Cluster.RightCountWrongNodes({}, 1)
    ensures c.TaintsAfter({}, 1, 2, {}) == {"m1"} && !c.TaintsFit(UpTo(1), {"m1"})
    ensures !c.DeleteStrands({}, 1, {}) && forall f :: !c.TaintStrands({}, 1, 2, f, {})
  {
    assert 1 in UpTo(1);
    assert "m2" in Elems(c.masters) && "m2" != "m1";
  }
}
