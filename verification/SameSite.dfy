/** Two policies of one App may both send a create to one cloudlet: exactly when. */
module SameSite {
  import opened Keys
  import opened Options
  import A = AppChecker
  import C = CreateOrder
  import opened FailoverProtocol
  import opened FailoverInvariant
  import opened FailoverTheorems

  /** The cloudlets of a plan, best first. */
  function SiteKeys(plan: A.CreatePlan): seq<CloudletKey> {
    seq(|plan.sites|, i requires 0 <= i < |plan.sites| => plan.sites[i].cloudletKey)
  }

  /** A pass of the protocol that carries out a plan of a Check of the App. */
  predicate RunsPlan(p: Pass, app: AppKey, plan: A.CreatePlan) {
    p.app == app && p.sites == SiteKeys(plan) && p.need == plan.need
  }

  /** A create call has been sent to the cloudlet. */
  ghost predicate Tries(p: Pass, c: CloudletKey) {
    exists k :: 0 <= k < |p.handed| && p.handed[k].site == c
  }

  /** At most one Check of the App. */
  ghost predicate OneCheck(es: seq<Event>, app: AppKey) {
    forall i, j :: 0 <= i < j < |es| && Starts(es[i], app) ==> !Starts(es[j], app)
  }

  predicate Starts(e: Event, app: AppKey) {
    e.StartCheck? && e.app == app
  }

  /** In the state, two passes of the App carry out the plans, and both have tried the cloudlet. */
  ghost predicate BothTried(s: State, m1: PassId, m2: PassId, app: AppKey, plan1: A.CreatePlan, plan2: A.CreatePlan,
      c: CloudletKey)
  {
    && m1 != m2 && m1 < |s.passes| && m2 < |s.passes|
    && RunsPlan(s.passes[m1], app, plan1) && RunsPlan(s.passes[m2], app, plan2)
    && Tries(s.passes[m1], c) && Tries(s.passes[m2], c)
  }

  /** Some run with one Check of the App gets there. */
  ghost predicate MayBothTry(app: AppKey, plan1: A.CreatePlan, plan2: A.CreatePlan, c: CloudletKey) {
    exists es: seq<Event>, ss: seq<State>, m1: PassId, m2: PassId ::
      IsRun(es, ss) && OneCheck(es, app) && BothTried(ss[|es|], m1, m2, app, plan1, plan2, c)
  }

  // ---------------------------------------------------------------------------------------------
  // Stretches of a run
  // ---------------------------------------------------------------------------------------------

  /** The events lead from one state to the other; none of them starts a Check. */
  ghost predicate Leads(s: State, es: seq<Event>, t: State)
    decreases |es|
  {
    if es == [] then t == s
    else Enabled(s, es[0]) && !es[0].StartCheck? && Leads(Apply(s, es[0]), es[1..], t)
  }

  lemma {:induction false} Chain(s: State, a: seq<Event>, t: State, b: seq<Event>, u: State)
    requires Leads(s, a, t) && Leads(t, b, u)
    ensures Leads(s, a + b, u)
    decreases |a|
  {
    hide Apply, Enabled;
    if a == [] {
      assert a + b == b;
    } else {
      Chain(Apply(s, a[0]), a[1..], t, b, u);
      assert (a + b)[1..] == a[1..] + b;
    }
  }

  lemma OneEvent(s: State, e: Event, t: State)
    requires Enabled(s, e) && !e.StartCheck? && t == Apply(s, e)
    ensures Leads(s, [e], t)
  {
    hide Apply, Enabled;
    assert [e][1..] == [];
  }

  lemma ThenEvent(s: State, es: seq<Event>, t: State, e: Event, u: State)
    requires Leads(s, es, t) && Enabled(t, e) && !e.StartCheck? && u == Apply(t, e)
    ensures Leads(s, es + [e], u)
  {
    OneEvent(t, e, u);
    Chain(s, es, t, [e], u);
  }

  /** The states along a stretch. */
  lemma {:induction false} Trace(s: State, es: seq<Event>, t: State) returns (ss: seq<State>)
    requires Leads(s, es, t)
    ensures |ss| == |es| + 1 && ss[0] == s && ss[|es|] == t
    ensures forall k :: 0 <= k < |es| ==> Enabled(ss[k], es[k]) && ss[k + 1] == Apply(ss[k], es[k])
    ensures forall k :: 0 <= k < |es| ==> !es[k].StartCheck?
    decreases |es|
  {
    hide Apply, Enabled;
    if es == [] {
      ss := [s];
    } else {
      var rest := Trace(Apply(s, es[0]), es[1..], t);
      ss := [s] + rest;
      forall k | 0 <= k < |es| ensures Enabled(ss[k], es[k]) && ss[k + 1] == Apply(ss[k], es[k]) && !es[k].StartCheck? {
        if k > 0 { assert ss[k] == rest[k - 1] && ss[k + 1] == rest[k] && es[k] == es[1..][k - 1]; }
      }
    }
  }

  // ---------------------------------------------------------------------------------------------
  // Spawning a pass's workers
  // ---------------------------------------------------------------------------------------------

  /** App's job is spawning the workers of pass m, for no request, and charges none right now. */
  ghost predicate SpawningPass(s: State, app: AppKey, m: PassId) {
    && app in s.jobs && s.jobs[app] == Job([], InPass(m)) && m < |s.passes|
    && s.passes[m].stage.Spawning? && s.passes[m].reqs == [] && !ChargesWorker(s, s.passes[m])
  }

  /** The state with one more worker of pass m, ready to go. */
  function OneMoreWorker(s: State, m: PassId): State
    requires m < |s.passes|
  {
    s.(passes := s.passes[m := s.passes[m].(workers := s.passes[m].workers + [|s.workers|])],
       workers := s.workers + [Worker(m, Ready, 0, 0)])
  }

  lemma SpawnOne(s: State, app: AppKey, m: PassId)
    requires SpawningPass(s, app, m) && WantsWorker(s.passes[m])
    ensures Leads(s, [NewWorker(app), Launch(app)], OneMoreWorker(s, m)) && SpawningPass(OneMoreWorker(s, m), app, m)
  {
    var t := Apply(s, NewWorker(app));
    OneEvent(s, NewWorker(app), t);
    assert Apply(t, Launch(app)) == OneMoreWorker(s, m);
    ThenEvent(s, [NewWorker(app)], t, Launch(app), OneMoreWorker(s, m));
    assert [NewWorker(app)] + [Launch(app)] == [NewWorker(app), Launch(app)];
  }

  lemma SpawnEnds(s: State, app: AppKey, m: PassId, t: State)
    requires SpawningPass(s, app, m) && !WantsWorker(s.passes[m])
    requires t == s.(passes := s.passes[m := s.passes[m].(stage := Launched)], jobs := s.jobs[app := Job([], Checking)])
    ensures Leads(s, [EndPass(app)], t)
  {
    OneEvent(s, EndPass(app), t);
  }

  /** The spawning loop ends; earlier workers and other passes stay as they are. */
  lemma {:induction false} SpawnAll(s: State, app: AppKey, m: PassId) returns (es: seq<Event>, t: State)
    requires SpawningPass(s, app, m)
    ensures Leads(s, es, t)
    ensures |t.passes| == |s.passes| && (forall n :: 0 <= n < |s.passes| && n != m ==> t.passes[n] == s.passes[n])
    ensures t.passes[m] == s.passes[m].(workers := t.passes[m].workers, stage := Launched)
    ensures s.workers <= t.workers && t.jobs == s.jobs[app := Job([], Checking)]
    ensures WantsWorker(s.passes[m]) ==> |t.workers| > |s.workers| && t.workers[|s.workers|] == Worker(m, Ready, 0, 0)
    decreases |s.passes[m].sites| - |s.passes[m].workers|
  {
    hide Apply, Enabled;
    if WantsWorker(s.passes[m]) {
      var next := OneMoreWorker(s, m);
      SpawnOne(s, app, m);
      var rest;
      rest, t := SpawnAll(next, app, m);
      es := [NewWorker(app), Launch(app)] + rest;
      Chain(s, [NewWorker(app), Launch(app)], next, rest, t);
    } else {
      t := s.(passes := s.passes[m := s.passes[m].(stage := Launched)], jobs := s.jobs[app := Job([], Checking)]);
      es := [EndPass(app)];
      SpawnEnds(s, app, m, t);
    }
  }

  /** A job between passes begins one. */
  lemma Begins(s: State, app: AppKey, minActive: nat, online: nat, sites: seq<CloudletKey>)
      returns (es: seq<Event>, t: State)
    requires app in s.jobs && s.jobs[app] == Job([], Checking)
    ensures Leads(s, es, t) && SpawningPass(t, app, |s.passes|)
    ensures t.passes == s.passes + [Pass(app, [], minActive - online, sites, 0, Spawning, [], [])]
      && t.workers == s.workers
  {
    var e := BeginPass(app, minActive, online, sites);
    var s1 := Apply(s, e);
    OneEvent(s, e, s1);
    es, t := [e], s1;
    if |sites| < minActive - online {
      t := Apply(s1, BeginSpawning(app));
      ThenEvent(s, [e], s1, BeginSpawning(app), t);
      es := [e] + [BeginSpawning(app)];
    }
  }

  /** A whole pass is launched; if anything is wanted and there is a site, its first worker is the next new one. */
  lemma LaunchPlan(s: State, app: AppKey, minActive: nat, online: nat, sites: seq<CloudletKey>)
      returns (es: seq<Event>, t: State)
    requires app in s.jobs && s.jobs[app] == Job([], Checking)
    ensures Leads(s, es, t)
    ensures app in t.jobs && t.jobs[app] == Job([], Checking)
    ensures |t.passes| == |s.passes| + 1 && t.passes[..|s.passes|] == s.passes && s.workers <= t.workers
    ensures t.passes[|s.passes|]
      == Pass(app, [], minActive - online, sites, 0, Launched, t.passes[|s.passes|].workers, [])
    ensures minActive > online && sites != [] ==>
      |t.workers| > |s.workers| && t.workers[|s.workers|] == Worker(|s.passes|, Ready, 0, 0)
  {
    var a, u := Begins(s, app, minActive, online, sites);
    var b;
    hide Leads, Apply, Enabled;
    b, t := SpawnAll(u, app, |s.passes|);
    es := a + b;
    Chain(s, a, u, b, t);
  }

  // ---------------------------------------------------------------------------------------------
  // Trying sites
  // ---------------------------------------------------------------------------------------------

  /** A worker of a pass without requests, before its next getNext. */
  ghost predicate AtCursor(s: State, w: WorkerId) {
    && IsWorker(s, w) && s.workers[w].stage.Ready? && WPass(s, w).reqs == [] && |WPass(s, w).handed| == WPass(s, w).next
  }

  /** Only the worker and the handouts and cursor of its pass have changed. */
  ghost predicate OnlyMoved(s: State, t: State, w: WorkerId) {
    && IsWorker(s, w) && |t.passes| == |s.passes| && |t.workers| == |s.workers|
    && (forall n :: 0 <= n < |s.passes| && n != s.workers[w].pass ==> t.passes[n] == s.passes[n])
    && (forall v :: 0 <= v < |s.workers| && v != w ==> t.workers[v] == s.workers[v])
    && var n := s.workers[w].pass;
    t.workers[w].pass == n && t.passes[n] == s.passes[n].(next := t.passes[n].next, handed := t.passes[n].handed)
  }

  lemma TakesNext(s: State, w: WorkerId, t: State)
    requires AtCursor(s, w) && WPass(s, w).next < |WPass(s, w).sites| && t == Apply(s, GetNext(w))
    ensures Leads(s, [GetNext(w)], t) && OnlyMoved(s, t, w)
    ensures t.workers[w].stage == Calling(|WPass(s, w).handed|)
    ensures WPass(t, w).next == WPass(s, w).next + 1
    ensures WPass(t, w).handed == WPass(s, w).handed + [Handout(w, WPass(s, w).sites[WPass(s, w).next], None)]
  {
    OneEvent(s, GetNext(w), t);
  }

  /** A call that really fails sends the worker back to the cursor. */
  lemma Fails(s: State, w: WorkerId, t: State)
    requires IsWorker(s, w) && s.workers[w].stage.Calling? && s.workers[w].stage.handout < |WPass(s, w).handed|
      && WPass(s, w).reqs == []
    requires |WPass(s, w).handed| == WPass(s, w).next
    requires t == Apply(s, CallReturns(w, Failed))
    ensures Leads(s, [CallReturns(w, Failed)], t) && OnlyMoved(s, t, w) && Enabled(t, EndRecording(w))
    ensures WPass(t, w).next == WPass(s, w).next == |WPass(t, w).handed|
    ensures WPass(t, w).handed[s.workers[w].stage.handout].outcome == Some(Failed)
      && t.workers[w].stage == Recording(s.workers[w].stage.handout, 0)
  {
    OneEvent(s, CallReturns(w, Failed), t);
  }

  lemma Returns(s: State, w: WorkerId, t: State)
    requires Enabled(s, EndRecording(w)) && WPass(s, w).reqs == [] && |WPass(s, w).handed| == WPass(s, w).next
    requires WPass(s, w).handed[s.workers[w].stage.handout].outcome == Some(Failed)
    requires t == Apply(s, EndRecording(w))
    ensures Leads(s, [EndRecording(w)], t) && OnlyMoved(s, t, w) && AtCursor(t, w)
      && WPass(t, w).next == WPass(s, w).next
  {
    OneEvent(s, EndRecording(w), t);
  }

  lemma MovedTwice(s: State, t: State, u: State, w: WorkerId)
    requires OnlyMoved(s, t, w) && OnlyMoved(t, u, w)
    ensures OnlyMoved(s, u, w)
  {
  }

  /** A worker whose calls keep failing gets to any site that is left. */
  lemma {:induction false} Reaches(s: State, w: WorkerId, k: nat) returns (es: seq<Event>, t: State)
    requires AtCursor(s, w) && WPass(s, w).next <= k < |WPass(s, w).sites|
    ensures Leads(s, es, t) && OnlyMoved(s, t, w) && Tries(WPass(t, w), WPass(s, w).sites[k])
    decreases k - WPass(s, w).next
  {
    var p := WPass(s, w);
    var s1 := Apply(s, GetNext(w));
    TakesNext(s, w, s1);
    hide Apply, Enabled, Leads;
    if k == p.next {
      es, t := [GetNext(w)], s1;
      assert WPass(t, w).handed[k].site == p.sites[k];
    } else {
      var s2 := Apply(s1, CallReturns(w, Failed));
      Fails(s1, w, s2);
      var s3 := Apply(s2, EndRecording(w));
      Returns(s2, w, s3);
      var rest;
      rest, t := Reaches(s3, w, k);
      MovedTwice(s, s1, s2, w);
      MovedTwice(s, s2, s3, w);
      MovedTwice(s, s3, t, w);
      Chain(s, [GetNext(w)], s1, [CallReturns(w, Failed)], s2);
      Chain(s, [GetNext(w)] + [CallReturns(w, Failed)], s2, [EndRecording(w)], s3);
      es := [GetNext(w)] + [CallReturns(w, Failed)] + [EndRecording(w)] + rest;
      Chain(s, [GetNext(w)] + [CallReturns(w, Failed)] + [EndRecording(w)], s3, rest, t);
    }
  }

  // ---------------------------------------------------------------------------------------------
  // Both passes
  // ---------------------------------------------------------------------------------------------

  /** The start of a Check of an App that no request waits for. */
  lemma CheckStarts(app: AppKey) returns (ss: seq<State>)
    ensures var es := [NeedsWork(app), StartCheck(app, [])];
      && |ss| == 3 && ss[0] == INIT
        && (forall k :: 0 <= k < 2 ==> Enabled(ss[k], es[k]) && ss[k + 1] == Apply(ss[k], es[k]))
      && ss[2] == INIT.(jobs := map[app := Job([], Checking)])
  {
    var s1 := INIT.(pending := {app});
    var s2 := INIT.(jobs := map[app := Job([], Checking)]);
    assert {} + {app} == {app} && {app} - {app} == {};
    ss := [INIT, s1, s2];
  }

  lemma RunOf(app: AppKey, es: seq<Event>, t: State) returns (run: seq<Event>, ss: seq<State>)
    requires Leads(INIT.(jobs := map[app := Job([], Checking)]), es, t)
    ensures IsRun(run, ss) && OneCheck(run, app) && ss[|run|] == t
  {
    var first := CheckStarts(app);
    var rest := Trace(first[2], es, t);
    var start := [NeedsWork(app), StartCheck(app, [])];
    run, ss := start + es, first[..2] + rest;
    hide Apply, Enabled, Leads;
    forall k | 0 <= k < |run| ensures Enabled(ss[k], run[k]) && ss[k + 1] == Apply(ss[k], run[k]) {
      if k < 2 {
        assert ss[k] == first[k] && ss[k + 1] == first[k + 1] && run[k] == start[k];
      } else {
        assert ss[k] == rest[k - 2] && ss[k + 1] == rest[k - 1] && run[k] == es[k - 2];
      }
    }
    forall i, j | 0 <= i < j < |run| && Starts(run[i], app) ensures !Starts(run[j], app) {
      assert j >= 2 ==> run[j] == es[j - 2];
    }
  }

  /** If both plans want an instance and list the cloudlet, there is a run in which both try it. */
  lemma BothCanTry(app: AppKey, min1: nat, on1: nat, sites1: seq<CloudletKey>, i1: nat, min2: nat, on2: nat,
      sites2: seq<CloudletKey>, i2: nat)
    returns (run: seq<Event>, ss: seq<State>)
    requires min1 > on1 && min2 > on2 && i1 < |sites1| && i2 < |sites2|
    ensures IsRun(run, ss) && OneCheck(run, app)
    ensures var s := ss[|run|];
      && |s.passes| == 2
      && s.passes[0].app == app && s.passes[0].need == min1 - on1 && s.passes[0].sites == sites1
        && Tries(s.passes[0], sites1[i1])
      && s.passes[1].app == app && s.passes[1].need == min2 - on2 && s.passes[1].sites == sites2
        && Tries(s.passes[1], sites2[i2])
  {
    var s := INIT.(jobs := map[app := Job([], Checking)]);
    hide Apply, Enabled, Leads, Tries;
    var a, t1 := LaunchPlan(s, app, min1, on1, sites1);
    var b, t2 := LaunchPlan(t1, app, min2, on2, sites2);
    assert t2.passes[0] == t2.passes[..1][0] == t1.passes[0];
    var w2 := |t1.workers|;
    assert t2.workers[0] == t1.workers[0];
    var c, t3 := Reaches(t2, 0, i1);
    var d, t4 := Reaches(t3, w2, i2);
    Chain(s, a, t1, b, t2);
    Chain(s, a + b, t2, c, t3);
    Chain(s, a + b + c, t3, d, t4);
    run, ss := RunOf(app, a + b + c + d, t4);
  }

  /** Whoever has tried a site was wanted, and the site was planned. */
  lemma TriedWasWanted(es: seq<Event>, ss: seq<State>, m: PassId, app: AppKey, caches: A.Caches, name: string,
      p: A.Policy, plan: A.CreatePlan, c: CloudletKey)
    requires IsRun(es, ss) && m < |ss[|es|].passes| && RunsPlan(ss[|es|].passes[m], app, plan)
      && Tries(ss[|es|].passes[m], c)
    requires A.PlansShortfall(caches, name, p, plan)
    ensures caches.Candidate(p, c) && plan.need > 0
  {
    RunKeeps(es, ss, |es|);
    var s := ss[|es|];
    var q := s.passes[m];
    assert SpawnOk(s.requests, s.workers, m, q) && CursorOk(s.requests, s.workers, q);
    var k :| 0 <= k < |q.handed| && q.handed[k].site == c;
    assert q.handed[k].worker in q.workers && q.handed[k].site == q.sites[k];
    assert caches.Candidate(p, plan.sites[k].cloudletKey);
  }

  lemma CandidateIsPlanned(caches: A.Caches, name: string, p: A.Policy, plan: A.CreatePlan, c: CloudletKey)
      returns (i: nat)
    requires A.PlansShortfall(caches, name, p, plan) && caches.Candidate(p, c)
    ensures i < |SiteKeys(plan)| && SiteKeys(plan)[i] == c
  {
    i :| 0 <= i < |plan.sites| && plan.sites[i] == C.Site(c, c in caches.free);
  }

  /**
   Two passes of one Check may both send a create to a cloudlet exactly when it is a candidate of both
   policies and both are short of instances.
   */
  lemma SameSiteExactly(caches: A.Caches, app: AppKey, n1: string, p1: A.Policy, plan1: A.CreatePlan, n2: string,
      p2: A.Policy, plan2: A.CreatePlan, c: CloudletKey)
    requires A.PlansShortfall(caches, n1, p1, plan1) && A.PlansShortfall(caches, n2, p2, plan2)
    ensures MayBothTry(app, plan1, plan2, c) <==>
      && caches.Candidate(p1, c) && |caches.OnPolicy(p1) * caches.instsOnline| < p1.minActive
      && caches.Candidate(p2, c) && |caches.OnPolicy(p2) * caches.instsOnline| < p2.minActive
  {
    if MayBothTry(app, plan1, plan2, c) {
      var es: seq<Event>, ss: seq<State>, m1: PassId, m2: PassId :|
        IsRun(es, ss) && OneCheck(es, app) && BothTried(ss[|es|], m1, m2, app, plan1, plan2, c);
      TriedWasWanted(es, ss, m1, app, caches, n1, p1, plan1, c);
      TriedWasWanted(es, ss, m2, app, caches, n2, p2, plan2, c);
    }
    var on1, on2 := |caches.OnPolicy(p1) * caches.instsOnline|, |caches.OnPolicy(p2) * caches.instsOnline|;
    if caches.Candidate(p1, c) && on1 < p1.minActive && caches.Candidate(p2, c) && on2 < p2.minActive {
      var i1 := CandidateIsPlanned(caches, n1, p1, plan1, c);
      var i2 := CandidateIsPlanned(caches, n2, p2, plan2, c);
      var run, ss := BothCanTry(app, p1.minActive, on1, SiteKeys(plan1), i1, p2.minActive, on2, SiteKeys(plan2), i2);
      assert BothTried(ss[|run|], 0, 1, app, plan1, plan2, c);
    }
  }

  /** A policy that wants one instance on its only cloudlet, and caches in which two such policies find it empty. */
  function OnlySite(c: CloudletKey): A.Policy {
    A.Policy(1, 0, [c])
  }

  function EmptyCloudlet(c: CloudletKey): A.Caches {
    A.Caches(true, true, {}, {"p", "q"}, map["p" := OnlySite(c), "q" := OnlySite(c)], {}, {}, {c}, {}, {},
      C.Demand(false, map[], 0))
  }

  function OneCreate(name: string, c: CloudletKey): A.CreatePlan {
    A.CreatePlan(name, 1, [C.Site(c, false)])
  }

  lemma OneCreatePlanned(name: string, c: CloudletKey)
    ensures A.PlansShortfall(EmptyCloudlet(c), name, OnlySite(c), OneCreate(name, c))
    ensures EmptyCloudlet(c).Candidate(OnlySite(c), c) && EmptyCloudlet(c).OnPolicy(OnlySite(c)) == {}
  {
    var caches, p, plan := EmptyCloudlet(c), OnlySite(c), OneCreate(name, c);
    assert caches.OnPolicy(p) == {} && caches.InstsOn(c) == {};
    assert caches.Candidate(p, c) && plan.sites[0] == C.Site(c, false);
    assert caches.OnPolicy(p) * caches.instsOnline == {};
  }

  /** Two policies that both want one instance and both list only one cloudlet: both passes may create there. */
  lemma SameSiteHappens(app: AppKey, c: CloudletKey)
    ensures MayBothTry(app, OneCreate("p", c), OneCreate("q", c), c)
  {
    OneCreatePlanned("p", c);
    OneCreatePlanned("q", c);
    var caches, p := EmptyCloudlet(c), OnlySite(c);
    assert caches.OnPolicy(p) * caches.instsOnline == {};
    hide EmptyCloudlet, OneCreate, A.PlansShortfall, MayBothTry;
    SameSiteExactly(caches, app, "p", p, OneCreate("p", c), "q", p, OneCreate("q", c), c);
  }
}
