/** AppChecker: keeps one App between the min and max of each of its policies, and removes orphans. */
module AppChecker {
  import opened Keys
  import opened Seqs
  import opened CreateOrder
  import opened Numbers
  import opened Options

  datatype Policy = Policy(minActive: nat, maxInstances: nat, cloudlets: seq<CloudletKey>)

  /** What one Check reads of the caches, the retry tracker and the aggregator; none of it changes meanwhile. */
  datatype Caches = Caches(
    appFound: bool,
    refsFound: bool,
    refs: set<AppInstKey>,
    policyNames: set<string>,
    policies: map<string, Policy>,
    instsOnline: set<AppInstKey>,
    autoProvInsts: set<AppInstKey>,
    cloudletsOnline: set<CloudletKey>,
    failed: set<CloudletKey>,
    free: set<CloudletKey>,
    demand: Demand)
  {
    /** A site worth trying for the policy: nothing of the App there, online, not black-listed. */
    predicate Candidate(p: Policy, c: CloudletKey) {
      c in p.cloudlets && InstsOn(c) == {} && c in cloudletsOnline && c !in failed
    }

    function Candidates(p: Policy): set<CloudletKey> {
      set c | c in p.cloudlets && Candidate(p, c)
    }

    function InstsOn(c: CloudletKey): set<AppInstKey> {
      set k | k in refs && CloudletOf(k) == c
    }

    /** The App's instances on the policy's cloudlets. */
    function OnPolicy(p: Policy): set<AppInstKey> {
      set k | k in refs && CloudletOf(k) in p.cloudlets
    }

    /** Those the engine may delete. */
    function Removable(p: Policy): set<AppInstKey> {
      OnPolicy(p) * autoProvInsts
    }
  }

  function CloudletOf(k: AppInstKey): CloudletKey {
    k.clusterInstKey.cloudletKey
  }

  /** A Controller call started by Check. */
  datatype ApiCall = DeleteMinMax(policy: string, inst: AppInstKey) | DeleteOrphan(inst: AppInstKey)

  /** The min check of one pass: how many instances are wanted, and where they may go, best first. */
  datatype CreatePlan = CreatePlan(policy: string, need: int, sites: seq<Site>)

  /** How many create workers the pass starts. */
  function Workers(plan: CreatePlan): int {
    Min(Max(0, plan.need), |plan.sites|)
  }

  /** The min/max deletions of one pass, in order. */
  function MinMaxCalls(policy: string, deleted: seq<AppInstKey>): seq<ApiCall> {
    seq(|deleted|, i requires 0 <= i < |deleted| => DeleteMinMax(policy, deleted[i]))
  }

  /** The instance comes from the cloudlet at position i of the policy's list. */
  predicate At(p: Policy, k: AppInstKey, i: nat) {
    i < |p.cloudlets| && p.cloudlets[i] == CloudletOf(k)
  }

  /** The list follows the policy's cloudlet order. */
  ghost predicate InPolicyOrder(p: Policy, ks: seq<AppInstKey>) {
    forall x, y, i, j :: 0 <= x < y < |ks| && At(p, ks[x], i) && At(p, ks[y], j) ==> i <= j
  }

  /** The instances on the first n cloudlets of the policy. */
  function OnFirst(caches: Caches, p: Policy, n: nat): set<AppInstKey>
    requires n <= |p.cloudlets|
  {
    set k | k in caches.refs && CloudletOf(k) in p.cloudlets[..n]
  }

  lemma OnFirstStep(caches: Caches, p: Policy, n: nat)
    requires n < |p.cloudlets| && NoDup(p.cloudlets)
    ensures OnFirst(caches, p, n + 1) == OnFirst(caches, p, n) + caches.InstsOn(p.cloudlets[n])
    ensures OnFirst(caches, p, n) !! caches.InstsOn(p.cloudlets[n])
  {
    assert p.cloudlets[..n + 1] == p.cloudlets[..n] + [p.cloudlets[n]];
    assert p.cloudlets[n] !in p.cloudlets[..n];
  }

  /** The last `count` of the candidates, or all of them. */
  function ChooseDelete(potential: seq<AppInstKey>, count: int): (chosen: seq<AppInstKey>)
    ensures |chosen| == Min(Max(0, count), |potential|)
    ensures chosen == potential[|potential| - |chosen|..]
  {
    if count <= 0 then []
    else
      var n := if count >= |potential| then |potential| else count;
      potential[|potential| - n..]
  }

  /** The candidates among the first n cloudlets, in list order, once each. */
  ghost predicate ListsFirst(caches: Caches, p: Policy, n: nat, sites: seq<Site>)
    requires n <= |p.cloudlets|
  {
    && (forall x :: 0 <= x < |sites| ==>
         sites[x].cloudletKey in p.cloudlets[..n] && caches.Candidate(p, sites[x].cloudletKey)
         && sites[x].hasFree == (sites[x].cloudletKey in caches.free))
    && (forall i :: 0 <= i < n && caches.Candidate(p, p.cloudlets[i]) ==>
      Site(p.cloudlets[i], p.cloudlets[i] in caches.free) in sites)
    && (forall x, y :: 0 <= x < y < |sites| ==> sites[x].cloudletKey != sites[y].cloudletKey)
  }

  /** Exactly the policy's candidates, once each. */
  ghost predicate ListsCandidates(caches: Caches, p: Policy, sites: seq<Site>) {
    && (forall x :: 0 <= x < |sites| ==>
         caches.Candidate(p, sites[x].cloudletKey) && sites[x].hasFree == (sites[x].cloudletKey in caches.free))
    && (forall c :: caches.Candidate(p, c) ==> Site(c, c in caches.free) in sites)
    && (forall x, y :: 0 <= x < y < |sites| ==> sites[x].cloudletKey != sites[y].cloudletKey)
  }

  /** The counts and deletable instances of the first n cloudlets. */
  ghost predicate ScannedTo(caches: Caches, p: Policy, n: nat, potentialDelete: seq<AppInstKey>, online: nat,
      total: nat)
    requires n <= |p.cloudlets|
  {
    var first := OnFirst(caches, p, n);
    && total == |first| && online == |first * caches.instsOnline|
    && NoDup(potentialDelete) && Elems(potentialDelete) == first * caches.autoProvInsts
      && InPolicyOrder(p, potentialDelete)
  }

  lemma SkipEmpty(caches: Caches, p: Policy, n: nat, potentialDelete: seq<AppInstKey>, online: nat, total: nat)
    requires n < |p.cloudlets| && NoDup(p.cloudlets) && caches.InstsOn(p.cloudlets[n]) == {}
    requires ScannedTo(caches, p, n, potentialDelete, online, total)
    ensures ScannedTo(caches, p, n + 1, potentialDelete, online, total)
  {
    OnFirstStep(caches, p, n);
    assert OnFirst(caches, p, n + 1) == OnFirst(caches, p, n);
  }

  lemma AddCloudlet(caches: Caches, p: Policy, n: nat, ks: seq<AppInstKey>, online: nat, total: nat,
      del: seq<AppInstKey>, on: nat, all: nat)
    requires n < |p.cloudlets| && NoDup(p.cloudlets) && ScannedTo(caches, p, n, ks, online, total)
    requires var here := caches.InstsOn(p.cloudlets[n]);
      && all == |here| && on == |here * caches.instsOnline|
      && NoDup(del) && Elems(del) == here * caches.autoProvInsts
    ensures ScannedTo(caches, p, n + 1, ks + del, online + on, total + all)
  {
    OnFirstStep(caches, p, n);
    SumUp(OnFirst(caches, p, n), caches.InstsOn(p.cloudlets[n]), caches.instsOnline);
    AppendInOrder(caches, p, n, ks, del);
  }

  lemma ListsNext(caches: Caches, p: Policy, n: nat, sites: seq<Site>)
    requires n < |p.cloudlets| && NoDup(p.cloudlets) && ListsFirst(caches, p, n, sites)
    ensures var c := p.cloudlets[n];
      ListsFirst(caches, p, n + 1, if caches.Candidate(p, c) then sites + [Site(c, c in caches.free)] else sites)
  {
    var c := p.cloudlets[n];
    assert p.cloudlets[..n + 1] == p.cloudlets[..n] + [c];
    assert c !in p.cloudlets[..n];
    if caches.Candidate(p, c) {
      var site := Site(c, c in caches.free);
      var next := sites + [site];
      assert next[|sites|] == site;
      forall i | 0 <= i < n + 1 && caches.Candidate(p, p.cloudlets[i])
        ensures Site(p.cloudlets[i], p.cloudlets[i] in caches.free) in next
      {
        if i < n { assert Site(p.cloudlets[i], p.cloudlets[i] in caches.free) in sites; }
      }
      forall x | 0 <= x < |sites| ensures next[x].cloudletKey != c {
      }
    }
  }

  lemma NothingScanned(caches: Caches, p: Policy)
    ensures ScannedTo(caches, p, 0, [], 0, 0) && ListsFirst(caches, p, 0, [])
    ensures Elems(p.cloudlets[..0]) == {}
  {
    assert OnFirst(caches, p, 0) == {};
  }

  lemma AllScanned(caches: Caches, p: Policy, potentialDelete: seq<AppInstKey>, potentialCreate: seq<Site>, online: nat,
      total: nat)
    requires ScannedTo(caches, p, |p.cloudlets|, potentialDelete, online, total)
      && ListsFirst(caches, p, |p.cloudlets|, potentialCreate)
    ensures total == |caches.OnPolicy(p)| && online == |caches.OnPolicy(p) * caches.instsOnline|
    ensures NoDup(potentialDelete) && Elems(potentialDelete) == caches.Removable(p) && InPolicyOrder(p, potentialDelete)
    ensures ListsCandidates(caches, p, potentialCreate)
  {
    assert p.cloudlets[..|p.cloudlets|] == p.cloudlets;
    assert OnFirst(caches, p, |p.cloudlets|) == caches.OnPolicy(p);
  }

  lemma SortedSitesAreCandidates(caches: Caches, p: Policy, before: seq<Site>, after: seq<Site>)
    requires ListsCandidates(caches, p, before) && SortOutcome(caches.demand, before, after)
    ensures ListsCandidates(caches, p, after)
  {
    SameMembers(before, after);
    forall x | 0 <= x < |after|
      ensures caches.Candidate(p, after[x].cloudletKey) && after[x].hasFree == (after[x].cloudletKey in caches.free)
    {
      assert after[x] in before;
    }
    forall x, y | 0 <= x < y < |after| ensures after[x].cloudletKey != after[y].cloudletKey {
      if after[x].cloudletKey == after[y].cloudletKey {
        assert after[x] in before && after[y] in before;
        assert after[x] == after[y];
        TwiceInPermutation(before, after, x, y);
      }
    }
  }

  /**
   The instances the pass deletes: exactly as many removable ones as the policy has too many, from the end of
   its list.
   */
  ghost predicate DeletesExcess(caches: Caches, p: Policy, deleted: seq<AppInstKey>) {
    && NoDup(deleted) && Elems(deleted) <= caches.Removable(p)
    && |deleted| == (if p.maxInstances > 0
      then Min(Max(0, |caches.OnPolicy(p)| - p.maxInstances), |caches.Removable(p)|) else 0)
    && (forall k, d, i, j :: k in caches.Removable(p) && k !in deleted && d in deleted && At(p, k, i) && At(p, d, j) ==>
      i <= j)
  }

  /** The min check: what is missing online, and all candidates, best first. */
  ghost predicate PlansShortfall(caches: Caches, name: string, p: Policy, plan: CreatePlan) {
    && plan.policy == name
    && plan.need == p.minActive - |caches.OnPolicy(p) * caches.instsOnline|
    && ListsCandidates(caches, p, plan.sites)
    && forall i, j :: 0 <= i < j < |plan.sites| ==> !Less(caches.demand, plan.sites[j], plan.sites[i])
  }

  /** What one pass over a found policy did. At the max nothing is created. */
  ghost predicate PassOutcome(caches: Caches, name: string, p: Policy, deleted: seq<AppInstKey>,
      plan: Option<CreatePlan>)
  {
    && DeletesExcess(caches, p, deleted)
    && (plan.Some? <==> p.maxInstances == 0 || |caches.OnPolicy(p)| < p.maxInstances)
    && (plan.Some? ==> PlansShortfall(caches, name, p, plan.value))
  }

  lemma TailOfList(caches: Caches, p: Policy, potential: seq<AppInstKey>, deleted: seq<AppInstKey>)
    requires NoDup(potential) && Elems(potential) == caches.Removable(p) && InPolicyOrder(p, potential)
    requires |deleted| <= |potential| && deleted == potential[|potential| - |deleted|..]
    ensures NoDup(deleted) && Elems(deleted) <= caches.Removable(p)
    ensures forall k, d, i, j ::
      k in caches.Removable(p) && k !in deleted && d in deleted && At(p, k, i) && At(p, d, j) ==> i <= j
  {
    var cut := |potential| - |deleted|;
    forall x | 0 <= x < |deleted| ensures deleted[x] in Elems(potential) { assert deleted[x] == potential[cut + x]; }
    forall x | cut <= x < |potential| ensures potential[x] in deleted { assert deleted[x - cut] == potential[x]; }
    forall k, d, i, j | k in caches.Removable(p) && k !in deleted && d in deleted && At(p, k, i) && At(p, d, j)
      ensures i <= j
    {
      assert k in Elems(potential);
      var x :| 0 <= x < |potential| && potential[x] == k;
      var y :| 0 <= y < |deleted| && deleted[y] == d;
      assert potential[cut + y] == d;
    }
  }

  /** The cloudlets of the App's policies that the cache knows. */
  function FoundCloudlets(caches: Caches, names: set<string>): set<CloudletKey> {
    set n, c | n in names && n in caches.policies && c in caches.policies[n].cloudlets :: c
  }

  /** The auto-provisioned instances that no found policy covers. */
  function Orphans(caches: Caches): set<AppInstKey> {
    set k | k in caches.refs && k in caches.autoProvInsts
      && CloudletOf(k) !in FoundCloudlets(caches, caches.policyNames)
  }

  lemma OneMorePass(caches: Caches, names: set<string>, name: string)
    ensures FoundCloudlets(caches, names + {name}) ==
      FoundCloudlets(caches, names) + (if name in caches.policies then Elems(caches.policies[name].cloudlets) else {})
  {
  }

  function OrphansOn(caches: Caches, cs: set<CloudletKey>): set<AppInstKey> {
    set k | k in Orphans(caches) && CloudletOf(k) in cs
  }

  lemma OrphansOnOneMore(caches: Caches, cs: set<CloudletKey>, c: CloudletKey)
    requires c !in cs
    ensures OrphansOn(caches, cs + {c}) == OrphansOn(caches, cs) +
      (if c in FoundCloudlets(caches, caches.policyNames) then {} else caches.InstsOn(c) * caches.autoProvInsts)
    ensures OrphansOn(caches, cs) !! caches.InstsOn(c)
  {
  }

  /** The min/max deletions and plans of the passes, and nothing else, are what the policy loop started. */
  ghost predicate PassesDone(caches: Caches, names: set<string>,
      outcomes: map<string, (seq<AppInstKey>, Option<CreatePlan>)>, calls: seq<ApiCall>, plans: seq<CreatePlan>)
  {
    && outcomes.Keys == names * caches.policies.Keys
    && (forall n :: n in outcomes ==> PassOutcome(caches, n, caches.policies[n], outcomes[n].0, outcomes[n].1))
    && (forall n, k :: DeleteMinMax(n, k) in calls <==> n in outcomes && k in outcomes[n].0)
    && (forall plan :: plan in plans <==> plan.policy in outcomes && outcomes[plan.policy].1 == Some(plan))
  }

  lemma NoPassDone(caches: Caches)
    ensures PassesDone(caches, {}, map[], [], [])
    ensures FoundCloudlets(caches, {}) == {}
  {
  }

  /** One more policy's pass; a policy the cache does not know adds nothing. */
  lemma PassesGrow(caches: Caches, names: set<string>, outcomes: map<string, (seq<AppInstKey>, Option<CreatePlan>)>,
      calls: seq<ApiCall>, plans: seq<CreatePlan>, name: string, deleted: seq<AppInstKey>, plan: Option<CreatePlan>)
    requires PassesDone(caches, names, outcomes, calls, plans) && name !in names
    requires forall c :: c in calls ==> c.DeleteMinMax?
    requires name in caches.policies ==> PassOutcome(caches, name, caches.policies[name], deleted, plan)
    requires name !in caches.policies ==> deleted == [] && plan == None
    ensures forall c :: c in calls + MinMaxCalls(name, deleted) ==> c.DeleteMinMax?
    ensures PassesDone(caches, names + {name}, if name in caches.policies then outcomes[name := (deleted, plan)]
      else outcomes,
              calls + MinMaxCalls(name, deleted), plans + (if plan.Some? then [plan.value] else []))
  {
    MembersOf(name, deleted, MinMaxCalls(name, deleted));
  }

  class AppChecker {
    const caches: Caches
    const sortSlice: seq<Site> -> seq<Site>
    var cloudletInsts: map<CloudletKey, set<AppInstKey>>
    var policyCloudlets: set<CloudletKey>
    var calls: seq<ApiCall>
    var plans: seq<CreatePlan>

    constructor (caches: Caches, sortSlice: seq<Site> -> seq<Site>)
      ensures this.caches == caches && this.sortSlice == sortSlice
      ensures cloudletInsts == map[] && policyCloudlets == {} && calls == [] && plans == []
    {
      this.caches, this.sortSlice := caches, sortSlice;
      cloudletInsts, policyCloudlets, calls, plans := map[], {}, [], [];
    }

    /** cloudletInsts has an entry exactly for the cloudlets that hold instances, and it holds just those. */
    ghost predicate Grouped()
      reads this
    {
      && (forall c :: c in cloudletInsts <==> caches.InstsOn(c) != {})
      && (forall c :: c in cloudletInsts ==> cloudletInsts[c] == caches.InstsOn(c))
    }

    /** sort.Slice is library code: any function that keeps its promise will do. */
    ghost predicate SortPromise() {
      forall sites: seq<Site> :: SortOutcome(caches.demand, sites, sortSlice(sites))
    }

    /** Lines 377-389: the App's instances, organized by cloudlet. */
    method GroupInsts()
      requires cloudletInsts == map[]
      modifies this`cloudletInsts
      ensures Grouped()
    {
      var rest := caches.refs;
      while rest != {}
        invariant rest <= caches.refs
        invariant forall c :: c in cloudletInsts <==> caches.InstsOn(c) - rest != {}
        invariant forall c :: c in cloudletInsts ==> cloudletInsts[c] == caches.InstsOn(c) - rest
        decreases rest
      {
        var key :| key in rest;
        var c := CloudletOf(key);
        var insts := if c in cloudletInsts then cloudletInsts[c] else {};
        ghost var before := cloudletInsts;
        cloudletInsts := cloudletInsts[c := insts + {key}];
        rest := rest - {key};
        forall d ensures d in cloudletInsts <==> caches.InstsOn(d) - rest != {}
          ensures d in cloudletInsts ==> cloudletInsts[d] == caches.InstsOn(d) - rest
        {
          if d == c {
            assert caches.InstsOn(c) - rest == (caches.InstsOn(c) - (rest + {key})) + {key};
            assert key in caches.InstsOn(c) - rest;
          } else {
            assert caches.InstsOn(d) - rest == caches.InstsOn(d) - (rest + {key});
          }
        }
      }
    }

    /** Lines 481-496: count the instances on one cloudlet and collect the removable ones, in any order. */
    method ScanInsts(insts: set<AppInstKey>) returns (potentialDelete: seq<AppInstKey>, online: nat, total: nat)
      ensures total == |insts| && online == |insts * caches.instsOnline|
      ensures NoDup(potentialDelete) && Elems(potentialDelete) == insts * caches.autoProvInsts
    {
      potentialDelete, online, total := [], 0, 0;
      var rest := insts;
      ghost var seen := {};
      while rest != {}
        invariant seen + rest == insts && seen !! rest
        invariant total == |seen| && online == |seen * caches.instsOnline|
        invariant NoDup(potentialDelete) && Elems(potentialDelete) == seen * caches.autoProvInsts
        decreases rest
      {
        var key :| key in rest;
        CountOneMore(seen, key, caches.instsOnline);
        CountOneMore(seen, key, caches.autoProvInsts);
        total := total + 1;
        if key in caches.instsOnline {
          online := online + 1;
        }
        if key in caches.autoProvInsts {
          AppendNew(potentialDelete, key);
          potentialDelete := potentialDelete + [key];
        }
        rest, seen := rest - {key}, seen + {key};
      }
      assert seen == insts;
    }

    /** Lines 454-498: what the policy's cloudlets hold and which of them could take an instance. */
    method ScanPolicy(p: Policy)
      returns (potentialDelete: seq<AppInstKey>, potentialCreate: seq<Site>, online: nat, total: nat)
      requires Grouped() && NoDup(p.cloudlets)
      modifies this`policyCloudlets
      ensures policyCloudlets == old(policyCloudlets) + Elems(p.cloudlets)
      ensures total == |caches.OnPolicy(p)|
      ensures online == |caches.OnPolicy(p) * caches.instsOnline|
      ensures NoDup(potentialDelete) && Elems(potentialDelete) == caches.Removable(p)
        && InPolicyOrder(p, potentialDelete)
      ensures ListsCandidates(caches, p, potentialCreate)
    {
      hide ScannedTo, ListsFirst, Elems, NoDup;
      potentialDelete, potentialCreate, online, total := [], [], 0, 0;
      NothingScanned(caches, p);
      for n := 0 to |p.cloudlets|
        invariant policyCloudlets == old(policyCloudlets) + Elems(p.cloudlets[..n])
        invariant ScannedTo(caches, p, n, potentialDelete, online, total)
        invariant ListsFirst(caches, p, n, potentialCreate)
      {
        var c := p.cloudlets[n];
        PrefixStep(p.cloudlets, n);
        policyCloudlets := policyCloudlets + {c};
        ListsNext(caches, p, n, potentialCreate);
        if c !in cloudletInsts {
          SkipEmpty(caches, p, n, potentialDelete, online, total);
          if c !in caches.cloudletsOnline {
            continue;
          }
          if c in caches.failed {
            continue;
          }
          potentialCreate := potentialCreate + [Site(c, c in caches.free)];
        } else {
          var del, on, all := ScanInsts(cloudletInsts[c]);
          AddCloudlet(caches, p, n, potentialDelete, online, total, del, on, all);
          potentialDelete, online, total := potentialDelete + del, online + on, total + all;
        }
      }
      assert p.cloudlets[..|p.cloudlets|] == p.cloudlets;
      AllScanned(caches, p, potentialDelete, potentialCreate, online, total);
    }

    /** Lines 518-529. */
    method PlanCreates(name: string, p: Policy, potentialCreate: seq<Site>, online: nat) returns (plan: CreatePlan)
      requires SortPromise() && ListsCandidates(caches, p, potentialCreate)
        && online == |caches.OnPolicy(p) * caches.instsOnline|
      ensures PlansShortfall(caches, name, p, plan)
    {
      var sites := sortSlice(potentialCreate);
      assert SortOutcome(caches.demand, potentialCreate, sites);
      SortedSitesAreCandidates(caches, p, potentialCreate, sites);
      forall i, j | 0 <= i < j < |sites| ensures !Less(caches.demand, sites[j], sites[i]) {
        NoInversion(caches.demand, potentialCreate, sites, i, j);
      }
      plan := CreatePlan(name, p.minActive - online, sites);
    }

    /** Lines 503-504: the choice of what to delete, when there is a max. */
    method ChooseExcess(p: Policy, potentialDelete: seq<AppInstKey>, total: nat) returns (deleted: seq<AppInstKey>)
      requires total == |caches.OnPolicy(p)|
      requires NoDup(potentialDelete) && Elems(potentialDelete) == caches.Removable(p)
        && InPolicyOrder(p, potentialDelete)
      ensures DeletesExcess(caches, p, deleted)
    {
      deleted := [];
      if p.maxInstances > 0 {
        deleted := ChooseDelete(potentialDelete, total - p.maxInstances);
        TailOfList(caches, p, potentialDelete, deleted);
      }
      NoDupSize(potentialDelete);
    }

    /** Lines 505-510. */
    method StartDeletes(name: string, keys: seq<AppInstKey>)
      modifies this`calls
      ensures calls == old(calls) + MinMaxCalls(name, keys)
    {
      for i := 0 to |keys|
        invariant calls == old(calls) + MinMaxCalls(name, keys[..i])
      {
        assert keys[..i + 1] == keys[..i] + [keys[i]];
        calls := calls + [DeleteMinMax(name, keys[i])];
      }
      assert keys[..|keys|] == keys;
    }

    /** One policy: delete what is above its max, or plan what is below its min. */
    method CheckPolicy(name: string) returns (deleted: seq<AppInstKey>, plan: Option<CreatePlan>)
      requires Grouped() && SortPromise()
      requires name in caches.policies ==> NoDup(caches.policies[name].cloudlets)
      modifies this`policyCloudlets, this`calls, this`plans
      ensures calls == old(calls) + MinMaxCalls(name, deleted)
      ensures plans == old(plans) + (if plan.Some? then [plan.value] else [])
      ensures name !in caches.policies ==> policyCloudlets == old(policyCloudlets) && deleted == [] && plan == None
      ensures name in caches.policies ==>
        policyCloudlets == old(policyCloudlets) + Elems(caches.policies[name].cloudlets)
        && PassOutcome(caches, name, caches.policies[name], deleted, plan)
    {
      deleted, plan := [], None;
      if name !in caches.policies {
        return;
      }
      var p := caches.policies[name];
      var potentialDelete, potentialCreate, online, total := ScanPolicy(p);
      deleted := ChooseExcess(p, potentialDelete, total);
      StartDeletes(name, deleted);
      if p.maxInstances > 0 {
        if total >= p.maxInstances {
          return;
        }
      }
      var create := PlanCreates(name, p, potentialCreate, online);
      plan := Some(create);
      plans := plans + [create];
    }

    /** Lines 391-395: every policy of the App, in any order. */
    method CheckPolicies() returns (ghost outcomes: map<string, (seq<AppInstKey>, Option<CreatePlan>)>)
      requires Grouped() && SortPromise() && calls == [] && plans == [] && policyCloudlets == {}
      requires forall n :: n in caches.policyNames && n in caches.policies ==> NoDup(caches.policies[n].cloudlets)
      modifies this`policyCloudlets, this`calls, this`plans
      ensures PassesDone(caches, caches.policyNames, outcomes, calls, plans)
      ensures policyCloudlets == FoundCloudlets(caches, caches.policyNames)
      ensures forall c :: c in calls ==> c.DeleteMinMax?
    {
      hide PassesDone, PassOutcome;
      outcomes := map[];
      NoPassDone(caches);
      var rest := caches.policyNames;
      ghost var seen := {};
      while rest != {}
        invariant seen + rest == caches.policyNames && seen !! rest
        invariant PassesDone(caches, seen, outcomes, calls, plans)
        invariant policyCloudlets == FoundCloudlets(caches, seen)
        invariant forall c :: c in calls ==> c.DeleteMinMax?
        decreases rest
      {
        var name :| name in rest;
        OneMorePass(caches, seen, name);
        label Before:
        var deleted, plan := CheckPolicy(name);
        PassesGrow(caches, seen, outcomes, old@Before(calls), old@Before(plans), name, deleted, plan);
        if name in caches.policies {
          outcomes := outcomes[name := (deleted, plan)];
        }
        rest, seen := rest - {name}, seen + {name};
      }
      assert seen == caches.policyNames;
    }

    /** Lines 397-412: delete the auto-provisioned instances on one cloudlet. */
    method DeleteOrphansOn(insts: set<AppInstKey>) returns (ghost more: seq<ApiCall>)
      modifies this`calls
      ensures calls == old(calls) + more && OrphanCalls(more, insts * caches.autoProvInsts)
    {
      more := [];
      var rest := insts;
      ghost var seen := {};
      while rest != {}
        invariant seen + rest == insts && seen !! rest
        invariant calls == old(calls) + more && OrphanCalls(more, seen * caches.autoProvInsts)
        decreases rest
      {
        var key :| key in rest;
        CountOneMore(seen, key, caches.autoProvInsts);
        if key in caches.autoProvInsts {
          calls := calls + [DeleteOrphan(key)];
          AddOrphanCall(more, seen * caches.autoProvInsts, key);
          more := more + [DeleteOrphan(key)];
        }
        rest, seen := rest - {key}, seen + {key};
      }
      assert seen == insts;
    }

    /** The whole Check. */
    method Check() returns (ghost outcomes: map<string, (seq<AppInstKey>, Option<CreatePlan>)>)
      requires SortPromise() && cloudletInsts == map[] && calls == [] && plans == [] && policyCloudlets == {}
      requires forall n :: n in caches.policyNames && n in caches.policies ==> NoDup(caches.policies[n].cloudlets)
      modifies this
      ensures !(caches.appFound && caches.refsFound) ==> calls == [] && plans == []
      ensures caches.appFound && caches.refsFound ==>
        exists mm: seq<ApiCall>, orphans: seq<ApiCall> :: calls == mm + orphans
          && PassesDone(caches, caches.policyNames, outcomes, mm, plans) && (forall c :: c in mm ==> c.DeleteMinMax?)
          && OrphanCalls(orphans, Orphans(caches))
    {
      outcomes := map[];
      if !caches.appFound {
        return;
      }
      if !caches.refsFound {
        return;
      }
      GroupInsts();
      outcomes := CheckPolicies();
      ghost var orphans := DeleteOrphans();
    }

    /** Lines 397-412: every cloudlet that holds instances, except the policies'. */
    method DeleteOrphans() returns (ghost orphans: seq<ApiCall>)
      requires Grouped() && policyCloudlets == FoundCloudlets(caches, caches.policyNames)
      modifies this`calls
      ensures calls == old(calls) + orphans && OrphanCalls(orphans, Orphans(caches))
    {
      orphans := [];
      var rest := cloudletInsts.Keys;
      ghost var seen: set<CloudletKey> := {};
      while rest != {}
        invariant seen + rest == cloudletInsts.Keys && seen !! rest
        invariant calls == old(calls) + orphans
        invariant OrphanCalls(orphans, OrphansOn(caches, seen))
        decreases rest
      {
        var c :| c in rest;
        OrphansOnOneMore(caches, seen, c);
        rest, seen := rest - {c}, seen + {c};
        if c in policyCloudlets {
          continue;
        }
        ghost var more := DeleteOrphansOn(cloudletInsts[c]);
        JoinOrphanCalls(orphans, more, OrphansOn(caches, seen - {c}), caches.InstsOn(c) * caches.autoProvInsts);
        assert seen - {c} + {c} == seen;
        orphans := orphans + more;
      }
      AllOrphansSeen();
    }

    lemma AllOrphansSeen()
      requires Grouped()
      ensures OrphansOn(caches, cloudletInsts.Keys) == Orphans(caches)
    {
      forall k | k in Orphans(caches) ensures k in OrphansOn(caches, cloudletInsts.Keys) {
        assert k in caches.InstsOn(CloudletOf(k));
      }
    }

  }

  /** The calls delete exactly the given instances as orphans, each once. */
  ghost predicate OrphanCalls(calls: seq<ApiCall>, insts: set<AppInstKey>) {
    && NoDup(calls)
    && (forall c :: c in calls ==> c.DeleteOrphan? && c.inst in insts)
    && (forall k :: k in insts ==> DeleteOrphan(k) in calls)
  }

  lemma JoinOrphanCalls(a: seq<ApiCall>, b: seq<ApiCall>, x: set<AppInstKey>, y: set<AppInstKey>)
    requires OrphanCalls(a, x) && OrphanCalls(b, y) && x !! y
    ensures OrphanCalls(a + b, x + y)
  {
    forall i, j | 0 <= i < j < |a + b| ensures (a + b)[i] != (a + b)[j] {
      if i < |a| <= j { assert a[i] in a && b[j - |a|] in b; }
    }
  }

  lemma AddOrphanCall(a: seq<ApiCall>, x: set<AppInstKey>, key: AppInstKey)
    requires OrphanCalls(a, x) && key !in x
    ensures OrphanCalls(a + [DeleteOrphan(key)], x + {key})
  {
    assert OrphanCalls([DeleteOrphan(key)], {key}) by { assert [DeleteOrphan(key)][0] == DeleteOrphan(key); }
    JoinOrphanCalls(a, [DeleteOrphan(key)], x, {key});
  }

  lemma MembersOf(name: string, deleted: seq<AppInstKey>, more: seq<ApiCall>)
    requires |more| == |deleted| && forall i :: 0 <= i < |deleted| ==> more[i] == DeleteMinMax(name, deleted[i])
    ensures forall n, k :: DeleteMinMax(n, k) in more <==> n == name && k in deleted
  {
    forall n, k | n == name && k in deleted ensures DeleteMinMax(n, k) in more {
      var i :| 0 <= i < |deleted| && deleted[i] == k;
      assert more[i] == DeleteMinMax(n, k);
    }
  }

  lemma SameMembers<T>(before: seq<T>, after: seq<T>)
    requires multiset(after) == multiset(before)
    ensures forall x :: x in after <==> x in before
  {
    forall x ensures x in after <==> x in before {
      assert x in multiset(after) <==> x in multiset(before);
    }
  }

  /** A rearrangement of a duplicate-free list has no duplicates. */
  lemma TwiceInPermutation(before: seq<Site>, after: seq<Site>, x: nat, y: nat)
    requires multiset(after) == multiset(before) && x < y < |after| && after[x] == after[y]
    ensures exists i, j :: 0 <= i < j < |before| && before[i] == before[j]
  {
    var v := after[x];
    assert after == after[..y] + [after[y]] + after[y + 1..];
    assert after[..y][x] == v;
    assert multiset(after[..y])[v] >= 1;
    assert multiset(after)[v] >= 2;
    assert v in multiset(before);
    var i :| 0 <= i < |before| && before[i] == v;
    assert before == before[..i] + [v] + before[i + 1..];
    if v in before[..i] {
      var j :| 0 <= j < i && before[j] == v;
    } else {
      assert multiset(before[..i])[v] == 0;
      assert v in multiset(before[i + 1..]);
      var j :| 0 <= j < |before[i + 1..]| && before[i + 1..][j] == v;
      assert before[i + 1 + j] == v;
    }
  }

  lemma SumUp(a: set<AppInstKey>, b: set<AppInstKey>, online: set<AppInstKey>)
    requires a !! b
    ensures |a + b| == |a| + |b|
    ensures |(a + b) * online| == |a * online| + |b * online|
  {
    assert (a + b) * online == a * online + b * online;
  }

  lemma AppendInOrder(caches: Caches, p: Policy, n: nat, ks: seq<AppInstKey>, more: seq<AppInstKey>)
    requires n < |p.cloudlets| && NoDup(p.cloudlets)
    requires NoDup(ks) && Elems(ks) == OnFirst(caches, p, n) * caches.autoProvInsts && InPolicyOrder(p, ks)
    requires NoDup(more) && Elems(more) == caches.InstsOn(p.cloudlets[n]) * caches.autoProvInsts
    ensures NoDup(ks + more) && InPolicyOrder(p, ks + more)
    ensures Elems(ks + more) == OnFirst(caches, p, n + 1) * caches.autoProvInsts
  {
    OnFirstStep(caches, p, n);
    assert Elems(ks + more) == Elems(ks) + Elems(more);
    var all := ks + more;
    forall x | 0 <= x < |ks| ensures CloudletOf(ks[x]) in p.cloudlets[..n] { assert ks[x] in Elems(ks); }
    forall x | 0 <= x < |more| ensures CloudletOf(more[x]) == p.cloudlets[n] { assert more[x] in Elems(more); }
    forall x, y | 0 <= x < y < |all| ensures all[x] != all[y] {
      if x < |ks| <= y { assert ks[x] in Elems(ks) && more[y - |ks|] in Elems(more); }
    }
    forall x, y, i, j | 0 <= x < y < |all| && At(p, all[x], i) && At(p, all[y], j) ensures i <= j {
      if x < |ks| <= y {
        assert CloudletOf(more[y - |ks|]) == p.cloudlets[n] && j == n;
        var m :| 0 <= m < n && p.cloudlets[m] == CloudletOf(ks[x]);
        assert i == m;
      } else if |ks| <= x {
        assert CloudletOf(more[x - |ks|]) == CloudletOf(more[y - |ks|]);
      }
    }
  }

  // ---------------------------------------------------------------------------------------------
  // What a pass and a Check guarantee
  // ---------------------------------------------------------------------------------------------

  /**
   A pass never both deletes and creates; it never deletes below the max; it keeps deleting down to
   the max as long as it is allowed to; and its creates cannot bring the online count past the min.
   */
  lemma PassKeepsBounds(caches: Caches, name: string, p: Policy, deleted: seq<AppInstKey>, plan: Option<CreatePlan>)
    requires PassOutcome(caches, name, p, deleted, plan)
    ensures var total, online := |caches.OnPolicy(p)|, |caches.OnPolicy(p) * caches.instsOnline|;
      && (deleted == [] || plan == None)
      && (deleted != [] ==> total - |deleted| >= p.maxInstances)
      && (p.maxInstances > 0 && total > p.maxInstances ==>
           total - |deleted| == p.maxInstances || Elems(deleted) == caches.Removable(p))
      && (plan.Some? ==> online + Workers(plan.value) <= Max(online, p.minActive))
      && (plan.Some? && |plan.value.sites| >= plan.value.need ==> online + Workers(plan.value) >= p.minActive)
  {
    NoDupSize(deleted);
    SubsetSize(Elems(deleted), caches.Removable(p));
    if |deleted| == |caches.Removable(p)| {
      LargeSubsetIsAll(Elems(deleted), caches.Removable(p));
    }
  }

  /**
   Every planned site is a cloudlet of the policy that is online, holds nothing of the App and is not
   black-listed; later ones differ, and are no better.
   */
  lemma CreatesOnlyOnGoodSites(caches: Caches, name: string, p: Policy, plan: CreatePlan, i: nat)
    requires PlansShortfall(caches, name, p, plan) && i < |plan.sites|
    ensures var c := plan.sites[i].cloudletKey;
      && c in p.cloudlets && c in caches.cloudletsOnline && c !in caches.failed
      && (forall k :: k in caches.refs ==> CloudletOf(k) != c)
    ensures forall j :: i < j < |plan.sites| ==> plan.sites[j].cloudletKey != plan.sites[i].cloudletKey
    ensures forall j :: i < j < |plan.sites| && plan.sites[j].hasFree ==> plan.sites[i].hasFree
  {
    var c := plan.sites[i].cloudletKey;
    assert caches.Candidate(p, c);
    forall k | k in caches.refs ensures CloudletOf(k) != c {
      assert k in caches.InstsOn(CloudletOf(k));
    }
    forall j | i < j < |plan.sites| ensures plan.sites[j].hasFree ==> plan.sites[i].hasFree {
      assert !Less(caches.demand, plan.sites[j], plan.sites[i]);
    }
  }

  /** A plan has one site for each candidate. */
  lemma PlanSize(caches: Caches, p: Policy, sites: seq<Site>)
    requires ListsCandidates(caches, p, sites)
    ensures |sites| == |caches.Candidates(p)|
  {
    var keys := seq(|sites|, i requires 0 <= i < |sites| => sites[i].cloudletKey);
    NoDupSize(keys);
    forall c | c in caches.Candidates(p) ensures c in Elems(keys) {
      var x :| 0 <= x < |sites| && sites[x] == Site(c, c in caches.free);
      assert keys[x] == c;
    }
    assert Elems(keys) == caches.Candidates(p);
  }

  /**
   The claim that creates never push a policy past its max is false. With every create succeeding they
   do so exactly when more instances are offline than max - min allows for and there are candidates enough.
   */
  lemma PastMaxExactly(caches: Caches, name: string, p: Policy, deleted: seq<AppInstKey>, plan: CreatePlan)
    requires PassOutcome(caches, name, p, deleted, Some(plan)) && p.maxInstances > 0
    ensures var total, online := |caches.OnPolicy(p)|, |caches.OnPolicy(p) * caches.instsOnline|;
      total + Workers(plan) > p.maxInstances <==>
        total - online > p.maxInstances - p.minActive && |caches.Candidates(p)| > p.maxInstances - total
  {
    PlanSize(caches, p, plan.sites);
  }

  /** A policy over three cloudlets, min and max both 2, and caches with one offline instance on the first of them. */
  function ThreeSites(): Policy {
    Policy(2, 2, [CloudletKey("o", "1"), CloudletKey("o", "2"), CloudletKey("o", "3")])
  }

  function OneOffline(app: AppKey): Caches {
    var k := AppInstKey(app, ClusterInstKey("c", CloudletKey("o", "1"), "o"));
    Caches(true, true, {k}, {"p"}, map["p" := ThreeSites()], {}, {}, Elems(ThreeSites().cloudlets), {}, {},
      Demand(false, map[], 0))
  }

  function TwoCreates(): CreatePlan {
    CreatePlan("p", 2, [Site(CloudletKey("o", "2"), false), Site(CloudletKey("o", "3"), false)])
  }

  lemma OneOfflineCandidates(app: AppKey, c: CloudletKey)
    ensures OneOffline(app).Candidate(ThreeSites(), c) <==> c == CloudletKey("o", "2") || c == CloudletKey("o", "3")
  {
    var k := AppInstKey(app, ClusterInstKey("c", CloudletKey("o", "1"), "o"));
    assert k in OneOffline(app).InstsOn(CloudletOf(k));
    if c != CloudletOf(k) { assert OneOffline(app).InstsOn(c) == {}; }
  }

  lemma TwoCreatesListed(app: AppKey)
    ensures ListsCandidates(OneOffline(app), ThreeSites(), TwoCreates().sites)
  {
    var sites := TwoCreates().sites;
    assert sites[0] == Site(CloudletKey("o", "2"), false) && sites[1] == Site(CloudletKey("o", "3"), false);
    forall c ensures OneOffline(app).Candidate(ThreeSites(), c) <==>
      c == CloudletKey("o", "2") || c == CloudletKey("o", "3")
    {
      OneOfflineCandidates(app, c);
    }
  }

  /**
   One offline instance on the first of three cloudlets, min and max both 2: the pass plans two creates on
   top of it.
   */
  lemma PastMaxHappens(app: AppKey)
    ensures PassOutcome(OneOffline(app), "p", ThreeSites(), [], Some(TwoCreates()))
    ensures |OneOffline(app).OnPolicy(ThreeSites())|
      + Workers(TwoCreates()) > ThreeSites().maxInstances >= ThreeSites().minActive
  {
    TwoCreatesListed(app);
    var caches, p := OneOffline(app), ThreeSites();
    assert caches.OnPolicy(p) == caches.refs;
    hide ListsCandidates;
    assert caches.Removable(p) == {} && caches.OnPolicy(p) * caches.instsOnline == {};
    assert PlansShortfall(caches, "p", p, TwoCreates());
  }

  /**
   Over a whole Check only auto-provisioned instances are deleted, orphan deletions are exactly the
   auto-provisioned instances on no found policy's cloudlet, and no instance is deleted both ways.
   */
  lemma DeletionsDisjoint(caches: Caches, outcomes: map<string, (seq<AppInstKey>, Option<CreatePlan>)>,
      mm: seq<ApiCall>, plans: seq<CreatePlan>, orphans: seq<ApiCall>, k: AppInstKey)
    requires PassesDone(caches, caches.policyNames, outcomes, mm, plans) && OrphanCalls(orphans, Orphans(caches))
    ensures DeleteOrphan(k) in orphans <==>
      k in caches.refs && k in caches.autoProvInsts
      && forall n :: n in caches.policyNames && n in caches.policies ==> CloudletOf(k) !in caches.policies[n].cloudlets
    ensures forall n :: DeleteMinMax(n, k) in mm ==> k in caches.autoProvInsts && k in caches.refs
    ensures forall n :: DeleteMinMax(n, k) in mm ==> DeleteOrphan(k) !in orphans
  {
    forall n | DeleteMinMax(n, k) in mm
      ensures k in caches.autoProvInsts && k in caches.refs
        && CloudletOf(k) in FoundCloudlets(caches, caches.policyNames)
    {
      assert n in outcomes && k in outcomes[n].0;
      assert PassOutcome(caches, n, caches.policies[n], outcomes[n].0, outcomes[n].1);
      assert k in Elems(outcomes[n].0);
    }
  }
}
