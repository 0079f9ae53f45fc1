/** What the failover protocol guarantees in every run, whatever the interleaving. */
module FailoverTheorems {
  import opened Seqs
  import opened FailoverProtocol
  import opened FailoverInvariant
  import FailoverSteps
  import FailoverWorkers
  import opened Options

  // ---------------------------------------------------------------------------------------------
  // Runs
  // ---------------------------------------------------------------------------------------------

  /** A run: any sequence of events, each enabled when it happens, from the empty checker. */
  ghost predicate IsRun(es: seq<Event>, ss: seq<State>) {
    && |ss| == |es| + 1
    && ss[0] == INIT
    && forall k :: 0 <= k < |es| ==> Enabled(ss[k], es[k]) && ss[k + 1] == Apply(ss[k], es[k])
  }

  lemma StepKeeps(s: State, e: Event)
    requires Inv(s) && Enabled(s, e)
    ensures Inv(Apply(s, e))
  {
    match e
    case CloudletUpdated(_, _, _, _) => FailoverSteps.CloudletUpdatedKeeps(s, e);
    case NeedsWork(_) => FailoverSteps.NeedsWorkKeeps(s, e);
    case StartCheck(_, _) => FailoverSteps.StartCheckKeeps(s, e);
    case BeginPass(_, _, _, _) => FailoverWorkers.BeginPassKeeps(s, e);
    case ReportShortage(_) => FailoverWorkers.ReportShortageKeeps(s, e);
    case BeginSpawning(_) => FailoverWorkers.BeginSpawningKeeps(s, e);
    case NewWorker(_) => FailoverWorkers.NewWorkerKeeps(s, e);
    case Charge(_) => FailoverWorkers.ChargeKeeps(s, e);
    case Launch(_) => FailoverWorkers.LaunchKeeps(s, e);
    case EndPass(_) => FailoverWorkers.EndPassKeeps(s, e);
    case FinishCheck(_) => FailoverSteps.FinishCheckKeeps(s, e);
    case AppDone(_) => FailoverSteps.AppDoneKeeps(s, e);
    case EndJob(_) => FailoverSteps.EndJobKeeps(s, e);
    case GetNext(_) => FailoverWorkers.GetNextKeeps(s, e);
    case CallReturns(_, _) => FailoverWorkers.CallReturnsKeeps(s, e);
    case Record(_) => FailoverWorkers.RecordKeeps(s, e);
    case EndRecording(_) => FailoverWorkers.EndRecordingKeeps(s, e);
    case Release(_) => FailoverWorkers.ReleaseKeeps(s, e);
    case SendReply(_) => FailoverSteps.SendReplyKeeps(s, e);
  }

  lemma {:induction false} RunKeeps(es: seq<Event>, ss: seq<State>, n: nat)
    requires IsRun(es, ss) && n < |ss|
    ensures Inv(ss[n])
    decreases n
  {
    if n == 0 {
      FailoverSteps.InitOk();
    } else {
      RunKeeps(es, ss, n - 1);
      StepKeeps(ss[n - 1], es[n - 1]);
    }
  }

  // ---------------------------------------------------------------------------------------------
  // The reply
  // ---------------------------------------------------------------------------------------------

  /** Some create call charged to request i has not returned. */
  ghost predicate CallOutstanding(s: State, i: ReqId) {
    exists w: nat :: IsWorker(s, w) && s.workers[w].stage.Calling? && i in WPass(s, w).reqs
  }

  lemma NoDebtorsNoCalls(s: State, i: ReqId)
    requires Inv(s) && i < |s.requests| && s.requests[i].waiting == 0
    ensures !CallOutstanding(s, i)
    ensures forall w: nat :: IsWorker(s, w) && i in WPass(s, w).reqs && !s.workers[w].stage.Charging? ==>
      s.workers[w].stage.Releasing?
  {
    forall w: nat | IsWorker(s, w) && i in WPass(s, w).reqs && !s.workers[w].stage.Charging?
      ensures s.workers[w].stage.Releasing?
    {
      var k :| 0 <= k < |WPass(s, w).reqs| && WPass(s, w).reqs[k] == i;
      if !s.workers[w].stage.Releasing? {
        FailoverWorkers.OwesAll(s, w, k);
      }
    }
  }

  /**
   In every run: a queued request is answered at most once; when the answer is sent every App ever
   added to it has been through a Check with it attached and no create call charged to it is
   outstanding, and this stays so; the answer is DONE exactly when no error was recorded; and a
   request in the table always has an App left to check.
   */
  lemma ReplySafety(es: seq<Event>, ss: seq<State>, n: nat, i: ReqId)
    requires IsRun(es, ss) && n < |ss| && i < |ss[n].requests|
    ensures var s, r := ss[n], ss[n].requests[i];
      && RepliesFor(s.replies, i) == (if r.progress.Replied? then 1 else 0)
      && (r.progress.Queued? <==> r.cloudlet in s.table && s.table[r.cloudlet] == i)
      && (r.progress.Queued? <==> r.appsToCheck != {})
      && (!r.progress.Queued? ==> r.added <= r.checked)
      && (r.progress.Replied? ==> !CallOutstanding(s, i))
      && (r.progress.Replied? ==> (r.progress.outcome == FailoverDone <==> r.errors == []))
    ensures n < |es| && es[n] == SendReply(i) ==>
      && ss[n].requests[i].added <= ss[n].requests[i].checked
      && !CallOutstanding(ss[n], i)
      && ss[n + 1].replies == ss[n].replies +
           [FromRequest(i, if ss[n].requests[i].errors == [] then FailoverDone else FailoverError)]
  {
    RunKeeps(es, ss, n);
    var s, r := ss[n], ss[n].requests[i];
    assert RequestOk(s.table, i, r);
    if r.waiting == 0 {
      NoDebtorsNoCalls(s, i);
    }
  }

  /** Only sending a reply to request i adds to its replies: nothing else ever answers it. */
  lemma AnsweredIsFinal(s: State, e: Event, i: ReqId)
    requires Inv(s) && Enabled(s, e) && i < |s.requests| && s.requests[i].progress.Replied?
    ensures i < |Apply(s, e).requests| && Apply(s, e).requests[i] == s.requests[i]
  {
    var t := Apply(s, e);
    assert RequestOk(s.table, i, s.requests[i]);
    match e
    case ReportShortage(app) =>
      FailoverWorkers.RunningPassQueued(s, app, PassOf(s, app).stage.next);
    case Charge(app) =>
      FailoverWorkers.RunningPassQueued(s, app, s.workers[Last(PassOf(s, app).workers)].charged);
    case FinishCheck(app) =>
      var j := s.jobs[app];
      assert JobOk(s.requests, s.passes, app, j);
      assert Open(j) == j.attached;
    case AppDone(app) =>
      var j := s.jobs[app];
      assert JobOk(s.requests, s.passes, app, j);
    case Record(w) =>
      FailoverWorkers.OwesAll(s, w, s.workers[w].stage.next);
    case _ =>
  }

  // ---------------------------------------------------------------------------------------------
  // The shared cursor
  // ---------------------------------------------------------------------------------------------

  /** The handouts whose create call succeeded. */
  function Successes(p: Pass): set<nat> {
    set k | 0 <= k < |p.handed| && p.handed[k].outcome == Some(Created)
  }

  /** The worker that took a handout, as a set of workers over a set of handouts. */
  lemma {:induction false} OneHandoutEach(p: Pass, ks: set<nat>)
    requires forall k :: k in ks ==> k < |p.handed|
    requires forall k, m :: k in ks && m in ks && k != m ==> p.handed[k].worker != p.handed[m].worker
    ensures |set k | k in ks :: p.handed[k].worker| == |ks|
    decreases ks
  {
    if ks != {} {
      var k :| k in ks;
      var rest := ks - {k};
      OneHandoutEach(p, rest);
      var takers := set m | m in rest :: p.handed[m].worker;
      assert (set m | m in ks :: p.handed[m].worker) == takers + {p.handed[k].worker};
    }
  }

  /**
   In every run, the sites of a pass are handed out in list order, each at most once; no worker is
   handed a second site unless its first call really failed; and successes never exceed workers,
   nor workers the number of instances needed (min minus online).
   */
  lemma CursorSafety(es: seq<Event>, ss: seq<State>, n: nat, m: PassId)
    requires IsRun(es, ss) && n < |ss| && m < |ss[n].passes|
    ensures var p := ss[n].passes[m];
      && |p.handed| == p.next <= |p.sites|
      && (forall k :: 0 <= k < |p.handed| ==> p.handed[k].site == p.sites[k])
      && (NoDup(p.sites) ==> forall k, l :: 0 <= k < l < |p.handed| ==> p.handed[k].site != p.handed[l].site)
      && (forall k, l :: 0 <= k < l < |p.handed| && p.handed[k].worker == p.handed[l].worker ==>
        p.handed[k].outcome == Some(Failed))
      && |Successes(p)| <= |p.workers| <= (if p.need > 0 then p.need else 0)
  {
    RunKeeps(es, ss, n);
    var s, p := ss[n], ss[n].passes[m];
    assert SpawnOk(s.requests, s.workers, m, p) && CursorOk(s.requests, s.workers, p);
    var won := Successes(p);
    OneHandoutEach(p, won);
    var takers := set k | k in won :: p.handed[k].worker;
    SubsetSize(takers, Elems(p.workers));
    NoDupSize(p.workers);
  }

  /** Every worker of the pass has left its loop. */
  ghost predicate AllStopped(s: State, p: Pass) {
    forall k :: 0 <= k < |p.workers| ==> p.workers[k] < |s.workers| && s.workers[p.workers[k]].stage.Releasing?
  }

  /**
   When the workers of a pass have stopped, each succeeded or was told to ignore an error, or every site was
   tried.
   */
  lemma AllStoppedOutcome(es: seq<Event>, ss: seq<State>, n: nat, m: PassId)
    requires IsRun(es, ss) && n < |ss| && m < |ss[n].passes| && AllStopped(ss[n], ss[n].passes[m])
    ensures var p := ss[n].passes[m];
      (forall k :: 0 <= k < |p.workers| ==> Satisfied(p, p.workers[k])) || p.next == |p.sites|
  {
    RunKeeps(es, ss, n);
    var s, p := ss[n], ss[n].passes[m];
    assert SpawnOk(s.requests, s.workers, m, p);
    forall k | 0 <= k < |p.workers| ensures Satisfied(p, p.workers[k]) || p.next == |p.sites| {
      assert WorkerOk(s.passes, p.workers[k], s.workers[p.workers[k]]);
    }
  }

  // ---------------------------------------------------------------------------------------------
  // What DONE means
  // ---------------------------------------------------------------------------------------------

  /** The numbers below n. */
  function Indices(n: nat): (ks: set<nat>)
    ensures |ks| == n
    ensures forall k: nat :: k in ks <==> k < n
  {
    if n == 0 then {} else Indices(n - 1) + {n - 1}
  }

  /** A pass in which no call failed and nobody shared: every worker took exactly one site. */
  lemma EverybodyServed(s: State, m: PassId, w: WorkerId)
    requires Inv(s) && m < |s.passes| && w in s.passes[m].workers
    requires var p := s.passes[m];
      && AllStopped(s, p)
      && (forall k :: 0 <= k < |p.handed| ==> p.handed[k].outcome != Some(Failed))
    ensures exists k :: 0 <= k < |s.passes[m].handed| && s.passes[m].handed[k].worker == w
  {
    var p := s.passes[m];
    assert SpawnOk(s.requests, s.workers, m, p) && CursorOk(s.requests, s.workers, p);
    assert WorkerOk(s.passes, w, s.workers[w]);
    if !Satisfied(p, w) {
      var all := Indices(|p.handed|);
      OneHandoutEach(p, all);
      var takers := set k | k in all :: p.handed[k].worker;
      NoDupSize(p.workers);
      LargeSubsetIsAll(takers, Elems(p.workers));
      assert w in takers;
    }
  }

  /**
   The pass made exactly the workers it needed, and each ended on its first site with success or an ignorable
   error.
   */
  ghost predicate Filled(p: Pass) {
    && p.stage.Launched?
    && |p.workers| == (if p.need > 0 then p.need else 0)
    && (forall k :: 0 <= k < |p.handed| ==> EndsWorker(p.handed[k].outcome))
    && (forall w :: w in p.workers ==> exists k :: 0 <= k < |p.handed| && p.handed[k].worker == w)
    && (forall k, l :: 0 <= k < l < |p.handed| ==> p.handed[k].worker != p.handed[l].worker)
  }

  lemma AnsweredPassIsOver(s: State, i: ReqId, m: PassId)
    requires Inv(s) && i < |s.requests| && s.requests[i].progress.Replied?
    requires m < |s.passes| && i in s.passes[m].reqs
    ensures s.passes[m].stage.Launched? && AllStopped(s, s.passes[m])
  {
    var p := s.passes[m];
    assert RequestOk(s.table, i, s.requests[i]);
    assert SpawnOk(s.requests, s.workers, m, p);
    var x :| 0 <= x < |p.reqs| && p.reqs[x] == i;
    if !p.stage.Launched? {
      FailoverWorkers.RunningPassQueued(s, p.app, x);
    }
    NoDebtorsNoCalls(s, i);
    forall k | 0 <= k < |p.workers| ensures s.workers[p.workers[k]].stage.Releasing? {
      assert WorkerOk(s.passes, p.workers[k], s.workers[p.workers[k]]);
    }
  }

  /** In every run, a FAILOVER_DONE reply means that every policy pass run for the request was filled. */
  lemma DoneMeansFilled(es: seq<Event>, ss: seq<State>, n: nat, i: ReqId, m: PassId)
    requires IsRun(es, ss) && n < |ss| && i < |ss[n].requests|
    requires ss[n].requests[i].progress == Replied(FailoverDone)
    requires m < |ss[n].passes| && i in ss[n].passes[m].reqs
    ensures Filled(ss[n].passes[m])
  {
    RunKeeps(es, ss, n);
    var s, p := ss[n], ss[n].passes[m];
    assert RequestOk(s.table, i, s.requests[i]);
    assert SpawnOk(s.requests, s.workers, m, p) && CursorOk(s.requests, s.workers, p);
    AnsweredPassIsOver(s, i, m);
    var x :| 0 <= x < |p.reqs| && p.reqs[x] == i;
    assert !Blamed(s.requests, p.reqs) by { assert !HasError(s.requests, p.reqs[x]); }
    forall k | 0 <= k < |p.handed| ensures EndsWorker(p.handed[k].outcome) {
      assert HandoutOk(s.requests, p.reqs, k, p.handed[k], s.workers[p.handed[k].worker].stage);
      var y :| 0 <= y < |p.workers| && p.workers[y] == p.handed[k].worker;
      assert s.workers[p.workers[y]].stage.Releasing?;
      var o := p.handed[k].outcome;
      assert o.Some? && o != Some(Failed);
      match o.value { case Created => case Ignorable => case Failed => }
    }
    forall w | w in p.workers ensures exists k :: 0 <= k < |p.handed| && p.handed[k].worker == w {
      EverybodyServed(s, m, w);
    }
  }
}
