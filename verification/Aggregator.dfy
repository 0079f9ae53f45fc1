/** AutoProvAggr: counts, per policy and cloudlet, the consecutive intervals in which client demand met the policy. */
module Aggregator {
  import opened Keys
  import opened Seqs
  import opened CreateOrder

  datatype Policy = Policy(deployClientCount: nat, deployIntervalCount: nat, cloudlets: seq<CloudletKey>)

  /** apPolicyTracker: thresholds cached from the policy, and deployIntervalsMet per cloudlet. */
  datatype PolicyTracker = PolicyTracker(deployClientCount: nat, deployIntervalCount: nat,
      intervalsMet: map<CloudletKey, nat>)

  /** apAppStats. */
  datatype AppStats = AppStats(policies: map<string, PolicyTracker>, cloudlets: map<CloudletKey, CloudletStats>)

  type Reports = map<CloudletKey, nat>

  // ---------------------------------------------------------------------------------------------
  // One iteration, as functions
  // ---------------------------------------------------------------------------------------------

  /** The stats of a cloudlet; a cloudlet seen for the first time counts as 0 in the last interval. */
  function Known(cloudlets: map<CloudletKey, CloudletStats>, c: CloudletKey, interval: nat): CloudletStats
    requires interval > 0
  {
    if c in cloudlets then cloudlets[c] else CloudletStats(0, 0, interval - 1)
  }

  /** deployIntervalsMet after a report: one more, or back to zero. A missed interval resets it first. */
  function NextMet(known: CloudletStats, met: nat, threshold: nat, count: nat, interval: nat): nat
    requires interval > 0
  {
    if Sub64(count, known.count) >= threshold
    then (if interval - 1 != known.intervalNum then 0 else met) + 1
    else 0
  }

  function NextTracker(cloudlets: map<CloudletKey, CloudletStats>, t: PolicyTracker, r: Reports,
      interval: nat): PolicyTracker
    requires interval > 0
  {
    t.(intervalsMet := map c | c in t.intervalsMet ::
         if c in r then NextMet(Known(cloudlets, c, interval), t.intervalsMet[c], t.deployClientCount, r[c], interval)
         else t.intervalsMet[c])
  }

  /** One App's stats after the iteration numbered `interval`. */
  function IterApp(a: AppStats, r: Reports, interval: nat): AppStats
    requires interval > 0
  {
    AppStats(
      map n | n in a.policies :: NextTracker(a.cloudlets, a.policies[n], r, interval),
      map c | c in a.cloudlets.Keys + r.Keys ::
        if c in r then CloudletStats(r[c], Known(a.cloudlets, c, interval).count, interval) else a.cloudlets[c])
  }

  /** The init query only records counts, as if they came from the iteration about to start. */
  function InitApp(a: AppStats, r: Reports, interval: nat): AppStats
    requires interval > 0
  {
    a.(cloudlets := map c | c in a.cloudlets.Keys + r.Keys ::
         if c in r then Known(a.cloudlets, c, interval).(count := r[c], intervalNum := interval) else a.cloudlets[c])
  }

  predicate Meets(t: PolicyTracker, c: CloudletKey) {
    c in t.intervalsMet && t.intervalsMet[c] >= t.deployIntervalCount
  }

  /** Some policy of the App wants the cloudlet now. */
  ghost predicate Wanted(a: AppStats, c: CloudletKey) {
    exists n :: n in a.policies && Meets(a.policies[n], c)
  }

  /** One deploy for each of the reporting cloudlets that some policy wants. */
  ghost predicate DeployedTo(deployed: seq<CloudletKey>, reporting: set<CloudletKey>, a: AppStats) {
    NoDup(deployed) && forall c :: c in deployed <==> c in reporting && Wanted(a, c)
  }

  // ---------------------------------------------------------------------------------------------
  // The object
  // ---------------------------------------------------------------------------------------------

  datatype AggrState = AggrState(allStats: map<AppKey, AppStats>, intervalNum: nat)

  const FRESH := AggrState(map[], 0)

  type AllReports = map<AppKey, Reports>

  /** The App's stats take part in the iteration. */
  predicate Processed(s: AggrState, stats: AllReports, inCache: set<AppKey>, app: AppKey) {
    app in stats && app in s.allStats && app in inCache
  }

  /** One App's stats after the iteration, or the init, that follows state s. */
  function IterStats(s: AggrState, stats: AllReports, inCache: set<AppKey>, app: AppKey): AppStats
    requires app in s.allStats
  {
    if Processed(s, stats, inCache, app) then IterApp(s.allStats[app], stats[app], s.intervalNum + 1)
      else s.allStats[app]
  }

  function InitedStats(s: AggrState, stats: AllReports, inCache: set<AppKey>, app: AppKey): AppStats
    requires app in s.allStats
  {
    if Processed(s, stats, inCache, app) then InitApp(s.allStats[app], stats[app], s.intervalNum + 1)
      else s.allStats[app]
  }

  function AfterIter(s: AggrState, stats: AllReports, inCache: set<AppKey>): AggrState {
    AggrState(
      map app | app in s.allStats :: IterStats(s, stats, inCache, app),
      s.intervalNum + 1)
  }

  function AfterInit(s: AggrState, stats: AllReports, inCache: set<AppKey>): AggrState {
    s.(allStats := map app | app in s.allStats :: InitedStats(s, stats, inCache, app))
  }

  /** updatePolicyTracker: cloudlets that stay keep their streak, new ones start at zero. */
  function UpdatedTracker(met: map<CloudletKey, nat>, p: Policy): PolicyTracker {
    PolicyTracker(p.deployClientCount, p.deployIntervalCount,
      map c | c in p.cloudlets :: if c in met then met[c] else 0)
  }

  /** Policies the App no longer has go, those it gained get fresh trackers if the cache knows them. */
  function SyncedPolicies(before: map<string, PolicyTracker>, names: set<string>,
      cache: map<string, Policy>): map<string, PolicyTracker>
  {
    map n | n in names && (n in before || n in cache) ::
      if n in before then before[n] else UpdatedTracker(map[], cache[n])
  }

  /** UpdateApp: `found` says if the App still exists; `cache` holds the policies of the App's organization. */
  function AfterUpdateApp(s: AggrState, app: AppKey, found: bool, names: set<string>,
      cache: map<string, Policy>): AggrState
  {
    if !found || names == {} then s.(allStats := s.allStats - {app})
    else
      var a := if app in s.allStats then s.allStats[app] else AppStats(map[], map[]);
      s.(allStats := s.allStats[app := a.(policies := SyncedPolicies(a.policies, names, cache))])
  }

  function AfterUpdatePolicy(s: AggrState, organization: string, name: string, p: Policy): AggrState {
    s.(allStats := map app | app in s.allStats ::
         var a := s.allStats[app];
         if app.organization == organization && name in a.policies
         then a.(policies := a.policies[name := UpdatedTracker(a.policies[name].intervalsMet, p)])
         else a)
  }

  function Restrict(r: Reports, keys: set<CloudletKey>): Reports {
    map c | c in r && c in keys :: r[c]
  }

  class AutoProvAggr {
    var allStats: map<AppKey, AppStats>
    var intervalNum: nat

    function State(): AggrState
      reads this
    {
      AggrState(allStats, intervalNum)
    }

    constructor ()
      ensures State() == FRESH
    {
      allStats, intervalNum := map[], 0;
    }

    /** Lines 252-263: one policy on one cloudlet's report. */
    method StepTracker(cloudlets: map<CloudletKey, CloudletStats>, ap: PolicyTracker, c: CloudletKey, count: nat)
        returns (t: PolicyTracker)
      requires intervalNum > 0
      ensures t == NextTracker(cloudlets, ap, map[c := count], intervalNum)
    {
      t := ap;
      if c in ap.intervalsMet {
        var cstats := Known(cloudlets, c, intervalNum);
        var met := ap.intervalsMet[c];
        if intervalNum - 1 != cstats.intervalNum {
          met := 0;
        }
        if Sub64(count, cstats.count) >= ap.deployClientCount {
          met := met + 1;
        } else {
          met := 0;
        }
        t := ap.(intervalsMet := ap.intervalsMet[c := met]);
      }
      assert t.intervalsMet == NextTracker(cloudlets, ap, map[c := count], intervalNum).intervalsMet;
    }

    /** Lines 249-271: all policies of one App on one cloudlet's report. */
    method StepCloudlet(a: AppStats, c: CloudletKey, count: nat) returns (b: AppStats, doDeploy: bool)
      requires intervalNum > 0
      ensures b == IterApp(a, map[c := count], intervalNum)
      ensures doDeploy <==> Wanted(b, c)
    {
      ghost var goal := IterApp(a, map[c := count], intervalNum);
      hide TrackersStepped;
      doDeploy := false;
      var policies := a.policies;
      var rest := a.policies.Keys;
      NoTrackerStepped(a.policies, goal.policies, c);
      while rest != {}
        invariant rest <= a.policies.Keys
        invariant TrackersStepped(a.policies, goal.policies, rest, policies, doDeploy, c)
        decreases rest
      {
        var name :| name in rest;
        TrackerFound(a.policies, goal.policies, rest, policies, doDeploy, c, name);
        var t := StepTracker(a.cloudlets, policies[name], c, count);
        TrackerStepped(a.policies, goal.policies, rest, policies, doDeploy, c, name);
        rest := rest - {name};
        policies := policies[name := t];
        if c in t.intervalsMet && t.intervalsMet[c] >= t.deployIntervalCount {
          doDeploy := true;
        }
      }
      AllTrackersStepped(a.policies, goal, policies, doDeploy, c);
      OneReport(a, c, count, intervalNum);
      var cstats := Known(a.cloudlets, c, intervalNum);
      b := AppStats(policies, a.cloudlets[c := CloudletStats(count, cstats.count, intervalNum)]);
    }

    /**
     Lines 226-279 for one App. Each cloudlet is deployed to at most once, exactly if some policy's streak is
     long enough.
     */
    method StepApp(a: AppStats, r: Reports) returns (b: AppStats, deployed: seq<CloudletKey>)
      requires intervalNum > 0
      ensures b == IterApp(a, r, intervalNum)
      ensures DeployedTo(deployed, r.Keys, b)
    {
      b, deployed := a, [];
      var rest := r.Keys;
      ghost var seen: set<CloudletKey> := {};
      IterNothing(a, intervalNum);
      assert Restrict(r, {}) == map[];
      while rest != {}
        invariant seen + rest == r.Keys && seen !! rest
        invariant b == IterApp(a, Restrict(r, seen), intervalNum)
        invariant DeployedTo(deployed, seen, b)
        decreases rest
      {
        var c :| c in rest;
        ghost var before := b;
        OneMoreReport(a, r, seen, c, intervalNum);
        var doDeploy;
        b, doDeploy := StepCloudlet(b, c, r[c]);
        DeployOneMore(before, c, r[c], intervalNum, deployed, seen);
        if doDeploy {
          deployed := deployed + [c];
        }
        rest, seen := rest - {c}, seen + {c};
      }
      assert Restrict(r, seen) == r;
    }

    /** What the loop over Apps has done when `rest` is still to come. */
    ghost predicate IteratedTo(s0: AggrState, stats: AllReports, inCache: set<AppKey>, rest: set<AppKey>,
        deployed: map<AppKey, seq<CloudletKey>>)
      reads this
    {
      && intervalNum == s0.intervalNum + 1
      && allStats.Keys == s0.allStats.Keys
      && (forall app :: app in allStats ==>
           allStats[app] == if app in rest then s0.allStats[app] else IterStats(s0, stats, inCache, app))
      && (forall app :: app in deployed <==> Processed(s0, stats, inCache, app) && app !in rest)
      && (forall app :: app in deployed ==>
        app in stats && app in allStats && DeployedTo(deployed[app], stats[app].Keys, allStats[app]))
    }

    /** runIter after the query: a deploy per App and cloudlet that meets the criteria. */
    method RunIter(stats: AllReports, inCache: set<AppKey>) returns (deployed: map<AppKey, seq<CloudletKey>>)
      modifies this
      ensures State() == AfterIter(old(State()), stats, inCache)
      ensures forall app :: app in deployed <==> Processed(old(State()), stats, inCache, app)
      ensures forall app :: app in deployed ==>
        app in stats && app in allStats && DeployedTo(deployed[app], stats[app].Keys, allStats[app])
    {
      intervalNum := intervalNum + 1;
      deployed := map[];
      var rest := stats.Keys;
      ghost var s0 := old(State());
      while rest != {}
        invariant rest <= stats.Keys && IteratedTo(s0, stats, inCache, rest, deployed)
        decreases rest
      {
        var app :| app in rest;
        deployed := IterOne(s0, stats, inCache, rest, deployed, app);
        rest := rest - {app};
      }
      assert allStats == AfterIter(s0, stats, inCache).allStats;
    }

    /** Lines 215-280 for one App of the query's answer. */
    method IterOne(ghost s0: AggrState, stats: AllReports, inCache: set<AppKey>, ghost rest: set<AppKey>,
        before: map<AppKey, seq<CloudletKey>>, app: AppKey) returns (deployed: map<AppKey, seq<CloudletKey>>)
      requires app in rest && rest <= stats.Keys && IteratedTo(s0, stats, inCache, rest, before)
      modifies this`allStats
      ensures IteratedTo(s0, stats, inCache, rest - {app}, deployed)
    {
      deployed := before;
      if app in allStats {
        if app in inCache {
          var b, d := StepApp(allStats[app], stats[app]);
          assert b == IterStats(s0, stats, inCache, app);
          allStats := allStats[app := b];
          deployed := deployed[app := d];
        }
      }
    }

    /** Lines 234-239 for one App. */
    method InitStats(a: AppStats, r: Reports) returns (b: AppStats)
      requires intervalNum > 0
      ensures b == InitApp(a, r, intervalNum)
    {
      var cloudlets := a.cloudlets;
      var rest := r.Keys;
      while rest != {}
        invariant rest <= r.Keys && cloudlets.Keys == a.cloudlets.Keys + (r.Keys - rest)
        invariant forall c :: c in cloudlets ==>
          cloudlets[c] == if c in r && c !in rest
            then Known(a.cloudlets, c, intervalNum).(count := r[c], intervalNum := intervalNum)
                          else a.cloudlets[c]
        decreases rest
      {
        var c :| c in rest;
        rest := rest - {c};
        cloudlets := cloudlets[c := Known(cloudlets, c, intervalNum).(count := r[c], intervalNum := intervalNum)];
      }
      b := a.(cloudlets := cloudlets);
      assert cloudlets == InitApp(a, r, intervalNum).cloudlets;
    }

    /** runIter with init set. */
    method RunInit(stats: AllReports, inCache: set<AppKey>)
      modifies this
      ensures State() == AfterInit(old(State()), stats, inCache)
    {
      intervalNum := intervalNum + 1;
      var rest := stats.Keys;
      ghost var s0 := old(State());
      while rest != {}
        invariant rest <= stats.Keys && intervalNum == s0.intervalNum + 1
        invariant allStats.Keys == s0.allStats.Keys
        invariant forall app :: app in allStats ==>
          allStats[app] == if app in rest then s0.allStats[app] else InitedStats(s0, stats, inCache, app)
        decreases rest
      {
        var app :| app in rest;
        rest := rest - {app};
        if app !in allStats {
          continue;
        }
        if app !in inCache {
          continue;
        }
        var a := InitStats(allStats[app], stats[app]);
        allStats := allStats[app := a];
      }
      // the init run is not an interval
      intervalNum := intervalNum - 1;
      assert allStats == AfterInit(s0, stats, inCache).allStats;
    }

    method DeleteApp(app: AppKey)
      modifies this`allStats
      ensures State() == old(State()).(allStats := old(allStats) - {app})
    {
      allStats := allStats - {app};
    }

    /** Lines 313-365: drop the policies the App no longer has, make trackers for the ones it gained. */
    method UpdateApp(app: AppKey, found: bool, names: set<string>, cache: map<string, Policy>)
      modifies this`allStats
      ensures State() == AfterUpdateApp(old(State()), app, found, names, cache)
    {
      if !found || names == {} {
        allStats := allStats - {app};
        return;
      }
      var a := if app in allStats then allStats[app] else AppStats(map[], map[]);
      var policies := SyncPolicies(a.policies, names, cache);
      allStats := allStats[app := a.(policies := policies)];
    }

    /** Lines 341-364. */
    method SyncPolicies(before: map<string, PolicyTracker>, names: set<string>, cache: map<string, Policy>)
      returns (policies: map<string, PolicyTracker>)
      ensures policies == SyncedPolicies(before, names, cache)
    {
      policies := map n | n in before && n in names :: before[n];
      var rest := names;
      while rest != {}
        invariant rest <= names
        invariant forall n :: n in policies <==> n in names && (n in before || (n in cache && n !in rest))
        invariant forall n :: n in policies ==>
          policies[n] == if n in before then before[n] else UpdatedTracker(map[], cache[n])
        decreases rest
      {
        var name :| name in rest;
        rest := rest - {name};
        if name !in policies {
          if name in cache {
            var t := UpdatePolicyTracker(map[], cache[name]);
            policies := policies[name := t];
          }
        }
      }
    }

    /** Lines 367-382. */
    method UpdatePolicyTracker(met: map<CloudletKey, nat>, p: Policy) returns (t: PolicyTracker)
      ensures t == UpdatedTracker(met, p)
    {
      var trackers: map<CloudletKey, nat> := map[];
      for i := 0 to |p.cloudlets|
        invariant trackers == map c | c in p.cloudlets[..i] :: if c in met then met[c] else 0
      {
        var key := p.cloudlets[i];
        assert p.cloudlets[..i + 1] == p.cloudlets[..i] + [key];
        trackers := trackers[key := if key in met then met[key] else 0];
      }
      assert p.cloudlets[..|p.cloudlets|] == p.cloudlets;
      t := PolicyTracker(p.deployClientCount, p.deployIntervalCount, trackers);
    }

    /** Lines 384-403: every App of the policy's organization that uses it. */
    method UpdatePolicy(organization: string, name: string, p: Policy)
      modifies this`allStats
      ensures State() == AfterUpdatePolicy(old(State()), organization, name, p)
    {
      ghost var goal := AfterUpdatePolicy(State(), organization, name, p).allStats;
      var rest := allStats.Keys;
      while rest != {}
        invariant rest <= allStats.Keys == old(allStats).Keys
        invariant intervalNum == old(intervalNum)
        invariant forall app :: app in allStats ==>
          allStats[app] == if app in rest then old(allStats)[app] else goal[app]
        decreases rest
      {
        var app :| app in rest;
        rest := rest - {app};
        if app.organization != organization {
          continue;
        }
        var a := allStats[app];
        if name !in a.policies {
          continue;
        }
        var t := UpdatePolicyTracker(a.policies[name].intervalsMet, p);
        allStats := allStats[app := a.(policies := a.policies[name := t])];
      }
      assert allStats == goal;
    }
  }

  /** The loop over trackers has brought all but `rest` to the goal, and knows if one of those wants the cloudlet. */
  ghost predicate TrackersStepped(before: map<string, PolicyTracker>, goal: map<string, PolicyTracker>,
      rest: set<string>, now: map<string, PolicyTracker>, doDeploy: bool, c: CloudletKey)
  {
    && now.Keys == before.Keys == goal.Keys && rest <= before.Keys
    && (forall n :: n in now ==> now[n] == if n in rest then before[n] else goal[n])
    && (doDeploy <==> exists n :: n in goal && n !in rest && Meets(goal[n], c))
  }

  lemma NoTrackerStepped(before: map<string, PolicyTracker>, goal: map<string, PolicyTracker>, c: CloudletKey)
    requires before.Keys == goal.Keys
    ensures TrackersStepped(before, goal, before.Keys, before, false, c)
  {
  }

  lemma TrackerFound(before: map<string, PolicyTracker>, goal: map<string, PolicyTracker>, rest: set<string>,
      now: map<string, PolicyTracker>, doDeploy: bool, c: CloudletKey, name: string)
    requires TrackersStepped(before, goal, rest, now, doDeploy, c) && name in rest
    ensures name in now && name in before && name in goal && now[name] == before[name]
  {
  }

  lemma TrackerStepped(before: map<string, PolicyTracker>, goal: map<string, PolicyTracker>, rest: set<string>,
      now: map<string, PolicyTracker>, doDeploy: bool, c: CloudletKey, name: string)
    requires TrackersStepped(before, goal, rest, now, doDeploy, c) && name in rest && name in goal
    ensures TrackersStepped(before, goal, rest - {name}, now[name := goal[name]], doDeploy || Meets(goal[name], c), c)
  {
  }

  lemma AllTrackersStepped(before: map<string, PolicyTracker>, goal: AppStats, now: map<string, PolicyTracker>,
      doDeploy: bool, c: CloudletKey)
    requires TrackersStepped(before, goal.policies, {}, now, doDeploy, c)
    ensures now == goal.policies && (doDeploy <==> Wanted(goal, c))
  {
  }

  /** A single report touches one cloudlet's counts. */
  lemma OneReport(a: AppStats, c: CloudletKey, count: nat, interval: nat)
    requires interval > 0
    ensures IterApp(a, map[c := count], interval).cloudlets
         == a.cloudlets[c := CloudletStats(count, Known(a.cloudlets, c, interval).count, interval)]
  {
  }

  lemma IterNothing(a: AppStats, interval: nat)
    requires interval > 0
    ensures IterApp(a, map[], interval) == a
  {
    forall n | n in a.policies ensures NextTracker(a.cloudlets, a.policies[n], map[], interval) == a.policies[n] {
      assert NextTracker(a.cloudlets, a.policies[n], map[], interval).intervalsMet == a.policies[n].intervalsMet;
    }
    assert IterApp(a, map[], interval).policies == a.policies;
    assert IterApp(a, map[], interval).cloudlets == a.cloudlets;
  }

  /** Cloudlets do not affect each other, so their reports may be taken in any order. */
  lemma OneMoreReport(a: AppStats, r: Reports, seen: set<CloudletKey>, c: CloudletKey, interval: nat)
    requires interval > 0 && c in r && c !in seen
    ensures IterApp(IterApp(a, Restrict(r, seen), interval), map[c := r[c]], interval)
      == IterApp(a, Restrict(r, seen + {c}), interval)
  {
    var b := IterApp(a, Restrict(r, seen), interval);
    var left, right := IterApp(b, map[c := r[c]], interval), IterApp(a, Restrict(r, seen + {c}), interval);
    OneMoreCount(a, r, seen, c, interval);
    forall n | n in a.policies ensures left.policies[n] == right.policies[n] {
      OneMoreTracker(a, b.cloudlets, a.policies[n], r, seen, c, interval);
    }
    assert left.policies.Keys == right.policies.Keys == a.policies.Keys;
    assert left.policies == right.policies;
  }

  lemma OneMoreCount(a: AppStats, r: Reports, seen: set<CloudletKey>, c: CloudletKey, interval: nat)
    requires interval > 0 && c in r && c !in seen
    ensures IterApp(IterApp(a, Restrict(r, seen), interval), map[c := r[c]], interval).cloudlets
         == IterApp(a, Restrict(r, seen + {c}), interval).cloudlets
  {
    OneReport(IterApp(a, Restrict(r, seen), interval), c, r[c], interval);
  }

  lemma OneMoreTracker(a: AppStats, after: map<CloudletKey, CloudletStats>, t: PolicyTracker, r: Reports,
      seen: set<CloudletKey>, c: CloudletKey, interval: nat)
    requires interval > 0 && c in r && c !in seen
    requires after == IterApp(a, Restrict(r, seen), interval).cloudlets
    ensures NextTracker(after, NextTracker(a.cloudlets, t, Restrict(r, seen), interval), map[c := r[c]], interval)
         == NextTracker(a.cloudlets, t, Restrict(r, seen + {c}), interval)
  {
    assert Known(after, c, interval) == Known(a.cloudlets, c, interval);
    assert NextTracker(after, NextTracker(a.cloudlets, t, Restrict(r, seen), interval), map[c := r[c]],
      interval).intervalsMet
        == NextTracker(a.cloudlets, t, Restrict(r, seen + {c}), interval).intervalsMet;
  }

  lemma OthersUnmoved(a: AppStats, c: CloudletKey, count: nat, interval: nat)
    requires interval > 0
    ensures forall d :: d != c ==> (Wanted(IterApp(a, map[c := count], interval), d) <==> Wanted(a, d))
  {
    var b := IterApp(a, map[c := count], interval);
    forall d | d != c ensures Wanted(b, d) <==> Wanted(a, d) {
      assert forall n :: n in a.policies ==> (Meets(a.policies[n], d) <==> Meets(b.policies[n], d));
    }
  }

  lemma DeployOneMore(a: AppStats, c: CloudletKey, count: nat, interval: nat, deployed: seq<CloudletKey>,
      seen: set<CloudletKey>)
    requires interval > 0 && c !in seen && DeployedTo(deployed, seen, a)
    ensures var b := IterApp(a, map[c := count], interval);
      DeployedTo(if Wanted(b, c) then deployed + [c] else deployed, seen + {c}, b)
  {
    OthersUnmoved(a, c, count, interval);
    AppendNew(deployed, c);
  }
}
