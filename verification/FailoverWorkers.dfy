/** The events of policy passes and create workers keep the failover protocol's invariant. */
module FailoverWorkers {
  import opened Keys
  import opened Seqs
  import opened FailoverProtocol
  import opened FailoverInvariant
  import opened Options

  /** A replier cannot have answered a request that some worker is still charged to. */
  lemma DebtKeepsWaiting(s: State, w: WorkerId, i: ReqId)
    requires Inv(s) && w < |s.workers| && Owes(s.passes, s.workers[w], i)
    ensures i < |s.requests| && s.requests[i].waiting > 0 && !s.requests[i].progress.Replied?
  {
    var p := s.passes[s.workers[w].pass];
    assert SpawnOk(s.requests, s.workers, s.workers[w].pass, p);
    assert w in Debtors(s.passes, s.workers, i);
    assert RequestOk(s.table, i, s.requests[i]);
  }

  /** The requests of a pass that is still being run are all queued. */
  lemma RunningPassQueued(s: State, app: AppKey, k: nat)
    requires TableOk(s) && JobsOk(s) && HasPass(s, app) && k < |PassOf(s, app).reqs|
    ensures PassOf(s, app).reqs[k] < |s.requests| && s.requests[PassOf(s, app).reqs[k]].progress.Queued?
  {
    var j := s.jobs[app];
    assert JobOk(s.requests, s.passes, app, j);
    var i := j.attached[k];
    assert i in Open(j);
    assert RequestOk(s.table, i, s.requests[i]);
  }

  // ---------------------------------------------------------------------------------------------
  // The checking job: pass by pass
  // ---------------------------------------------------------------------------------------------

  lemma BeginPassJobs(s: State, t: State, e: Event)
    requires JobsOk(s) && Enabled(s, e) && e.BeginPass? && t == Apply(s, e)
    ensures JobsOk(t)
  {
    forall i, a | 0 <= i < |t.requests| && a in t.requests[i].appsToCheck
      ensures WillBeChecked(t.pending, t.jobs, i, a)
    {
      assert WillBeChecked(s.pending, s.jobs, i, a);
    }
  }

  lemma BeginPassKeeps(s: State, e: Event)
    requires Inv(s) && Enabled(s, e) && e.BeginPass?
    ensures Inv(Apply(s, e))
  {
    var t := Apply(s, e);
    assert JobOk(s.requests, s.passes, e.app, s.jobs[e.app]);
    BeginPassJobs(s, t, e);
    PassesStep(s, t, |s.passes|);
    WorkersFrame(s, t);
    DebtsSame(s, t);
  }

  lemma ReportShortagePass(s: State, t: State, e: Event)
    requires PassesOk(s) && Enabled(s, e) && e.ReportShortage? && t == Apply(s, e)
    ensures PassesOk(t)
  {
    var n := s.jobs[e.app].stage.pass;
    var p, q := s.passes[n], t.passes[n];
    var k := p.stage.next;
    assert SpawnOk(s.requests, s.workers, n, p) && CursorOk(s.requests, s.workers, p);
    SpawnFrame(s, t, n, p);
    CursorFrame(s, t, n, p);
    assert p.reqs[..k + 1] == p.reqs[..k] + [p.reqs[k]];
    PassesStep(s, t, n);
  }

  /** The shortage is noted on one request, which is still queued, and the pass moves to the next. */
  lemma ReportShortageShape(s: State, t: State, e: Event)
    requires TableOk(s) && JobsOk(s) && PassesOk(s) && Enabled(s, e) && e.ReportShortage? && t == Apply(s, e)
    ensures t.table == s.table && t.pending == s.pending && t.jobs == s.jobs && t.workers == s.workers
      && t.replies == s.replies
    ensures SameBooks(s.requests, t.requests) && ErrorsKept(s.requests, t.requests)
    ensures forall i :: 0 <= i < |t.requests| ==> t.requests[i].waiting == s.requests[i].waiting
    ensures |t.passes| == |s.passes|
    ensures forall n :: 0 <= n < |s.passes| ==>
      && PassGrows(s.passes[n], t.passes[n])
      && t.passes[n].app == s.passes[n].app && t.passes[n].workers == s.passes[n].workers
      && (t.passes[n].stage.Launched? <==> s.passes[n].stage.Launched?)
  {
    RunningPassQueued(s, e.app, PassOf(s, e.app).stage.next);
  }

  lemma ReportShortageKeeps(s: State, e: Event)
    requires Inv(s) && Enabled(s, e) && e.ReportShortage?
    ensures Inv(Apply(s, e))
  {
    var t := Apply(s, e);
    ReportShortageShape(s, t, e);
    hide Apply, TableOk, JobsOk, PassesOk, WorkersOk, ChargesOk, RepliesOk;
    ReportShortagePass(s, t, e);
    TableFrame(s, t);
    JobsFrame(s, t);
    WorkersFrame(s, t);
    DebtsSame(s, t);
    NoReplySent(s, t);
  }

  lemma BeginSpawningPass(s: State, t: State, e: Event)
    requires PassesOk(s) && Enabled(s, e) && e.BeginSpawning? && t == Apply(s, e)
    ensures PassesOk(t)
  {
    var n := s.jobs[e.app].stage.pass;
    var p := s.passes[n];
    assert SpawnOk(s.requests, s.workers, n, p) && CursorOk(s.requests, s.workers, p);
    assert p.reqs[..|p.reqs|] == p.reqs;
    PassesStep(s, t, n);
  }

  lemma BeginSpawningKeeps(s: State, e: Event)
    requires Inv(s) && Enabled(s, e) && e.BeginSpawning?
    ensures Inv(Apply(s, e))
  {
    var t := Apply(s, e);
    BeginSpawningPass(s, t, e);
    JobsFrame(s, t);
    WorkersFrame(s, t);
    DebtsSame(s, t);
  }

  /** A pass that charges no worker has no worker at stage Charging. */
  lemma NobodyCharging(s: State, n: PassId, v: WorkerId)
    requires PassesOk(s) && WorkersOk(s) && n < |s.passes| && !ChargesWorker(s, s.passes[n])
    requires v < |s.workers| && s.workers[v].pass == n
    ensures !s.workers[v].stage.Charging?
  {
    assert WorkerOk(s.passes, v, s.workers[v]);
  }

  lemma NewWorkerPass(s: State, t: State, e: Event)
    requires PassesOk(s) && Enabled(s, e) && e.NewWorker? && t == Apply(s, e)
    ensures PassesOk(t)
  {
    var n := s.jobs[e.app].stage.pass;
    var p := s.passes[n];
    assert SpawnOk(s.requests, s.workers, n, p) && CursorOk(s.requests, s.workers, p);
    CursorFrame(s, t, n, p);
    PassesStep(s, t, n);
  }

  lemma NewWorkerKeeps(s: State, e: Event)
    requires Inv(s) && Enabled(s, e) && e.NewWorker?
    ensures Inv(Apply(s, e))
  {
    var t := Apply(s, e);
    var n := s.jobs[e.app].stage.pass;
    NewWorkerPass(s, t, e);
    JobsFrame(s, t);
    forall v | 0 <= v < |s.workers| && s.workers[v].stage.Charging?
      ensures s.workers[v].pass != n
    {
      if s.workers[v].pass == n { NobodyCharging(s, n, v); }
    }
    WorkersStep(s, t, |s.workers|);
    DebtsSame(s, t);
  }

  /** One more worker owes request i, and nobody's other debts change. */
  lemma OneMoreDebtor(s: State, t: State, w: WorkerId, i0: ReqId)
    requires |t.workers| == |s.workers| && w < |s.workers|
    requires !Owes(s.passes, s.workers[w], i0) && Owes(t.passes, t.workers[w], i0)
    requires forall v: nat, i: nat :: v < |t.workers| && !(v == w && i == i0) ==>
      (Owes(t.passes, t.workers[v], i) <==> Owes(s.passes, s.workers[v], i))
    ensures |Debtors(t.passes, t.workers, i0)| == |Debtors(s.passes, s.workers, i0)| + 1
    ensures forall i: nat :: i != i0 ==> Debtors(t.passes, t.workers, i) == Debtors(s.passes, s.workers, i)
  {
    assert Debtors(t.passes, t.workers, i0) == Debtors(s.passes, s.workers, i0) + {w};
    forall i: nat | i != i0 ensures Debtors(t.passes, t.workers, i) == Debtors(s.passes, s.workers, i) {
      forall v: nat ensures v in Debtors(t.passes, t.workers, i) <==> v in Debtors(s.passes, s.workers, i) {
      }
    }
  }

  lemma ChargeDebts(s: State, t: State, e: Event)
    requires PassesOk(s) && WorkersOk(s) && ChargesOk(s) && Enabled(s, e) && e.Charge? && t == Apply(s, e)
    ensures ChargesOk(t)
  {
    var n := s.jobs[e.app].stage.pass;
    var p := s.passes[n];
    var w := Last(p.workers);
    var k := s.workers[w].charged;
    assert SpawnOk(s.requests, s.workers, n, p) && WorkerOk(s.passes, w, s.workers[w]);
    assert p.reqs[..k + 1] == p.reqs[..k] + [p.reqs[k]];
    assert p.reqs[0..k] == p.reqs[..k] && p.reqs[0..k + 1] == p.reqs[..k + 1];
    assert p.reqs[k] !in p.reqs[..k];
    OneMoreDebtor(s, t, w, p.reqs[k]);
  }

  /** The passes only look at the stages of their workers. */
  lemma PassesSameStages(s: State, t: State)
    requires PassesOk(s) && t.passes == s.passes && ErrorsKept(s.requests, t.requests)
    requires forall m :: 0 <= m < |s.passes| ==> SameCrew(s.workers, t.workers, m)
    ensures PassesOk(t)
  {
    forall m | 0 <= m < |t.passes|
      ensures SpawnOk(t.requests, t.workers, m, t.passes[m]) && CursorOk(t.requests, t.workers, t.passes[m])
    {
      SpawnFrame(s, t, m, s.passes[m]);
      CursorFrame(s, t, m, s.passes[m]);
    }
  }

  lemma ChargeWorker(s: State, t: State, e: Event)
    requires PassesOk(s) && WorkersOk(s) && Enabled(s, e) && e.Charge? && t == Apply(s, e)
    ensures PassesOk(t) && WorkersOk(t)
  {
    var n := s.jobs[e.app].stage.pass;
    var p := s.passes[n];
    var w := Last(p.workers);
    assert SpawnOk(s.requests, s.workers, n, p) && WorkerOk(s.passes, w, s.workers[w]);
    PassesSameStages(s, t);
    WorkersStep(s, t, w);
  }

  /** Charging a request that is still queued changes nothing but its wait count and the worker's. */
  lemma ChargeShape(s: State, t: State, e: Event)
    requires TableOk(s) && JobsOk(s) && Enabled(s, e) && e.Charge? && t == Apply(s, e)
    ensures t.table == s.table && t.pending == s.pending && t.jobs == s.jobs && t.passes == s.passes
      && t.replies == s.replies
    ensures |t.requests| == |s.requests| && SameBooks(s.requests, t.requests)
    ensures forall i :: 0 <= i < |t.requests| ==> t.requests[i].progress == s.requests[i].progress
  {
    RunningPassQueued(s, e.app, s.workers[Last(PassOf(s, e.app).workers)].charged);
  }

  lemma ChargeKeeps(s: State, e: Event)
    requires Inv(s) && Enabled(s, e) && e.Charge?
    ensures Inv(Apply(s, e))
  {
    hide Apply, TableOk, JobsOk, PassesOk, WorkersOk, ChargesOk, RepliesOk;
    var t := Apply(s, e);
    ChargeShape(s, t, e);
    ChargeDebts(s, t, e);
    ChargeWorker(s, t, e);
    TableFrame(s, t);
    JobsFrame(s, t);
    NoReplySent(s, t);
  }

  lemma LaunchPass(s: State, t: State, e: Event)
    requires PassesOk(s) && WorkersOk(s) && Enabled(s, e) && e.Launch? && t == Apply(s, e)
    ensures PassesOk(t)
  {
    var n := s.jobs[e.app].stage.pass;
    var p := s.passes[n];
    var w := Last(p.workers);
    assert SpawnOk(s.requests, s.workers, n, p) && CursorOk(s.requests, s.workers, p);
    assert s.workers[w].pass == n by { assert p.workers[|p.workers| - 1] == w; }
    forall k | 0 <= k < |p.handed| ensures p.handed[k].worker != w {
      assert HandoutOk(s.requests, p.reqs, k, p.handed[k], s.workers[p.handed[k].worker].stage);
    }
    PassesStep(s, t, n);
  }

  lemma LaunchKeeps(s: State, e: Event)
    requires Inv(s) && Enabled(s, e) && e.Launch?
    ensures Inv(Apply(s, e))
  {
    var t := Apply(s, e);
    var n := s.jobs[e.app].stage.pass;
    var w := Last(s.passes[n].workers);
    assert SpawnOk(s.requests, s.workers, n, s.passes[n]) && WorkerOk(s.passes, w, s.workers[w]);
    LaunchPass(s, t, e);
    WorkersStep(s, t, w);
    DebtsSame(s, t);
  }

  lemma EndPassJobs(s: State, t: State, e: Event)
    requires JobsOk(s) && Enabled(s, e) && e.EndPass? && t == Apply(s, e)
    ensures JobsOk(t)
  {
    assert JobOk(s.requests, s.passes, e.app, s.jobs[e.app]);
    forall a | a in t.jobs ensures JobOk(t.requests, t.passes, a, t.jobs[a]) {
      assert JobOk(s.requests, s.passes, a, s.jobs[a]);
    }
    forall i, a | 0 <= i < |t.requests| && a in t.requests[i].appsToCheck
      ensures WillBeChecked(t.pending, t.jobs, i, a)
    {
      assert WillBeChecked(s.pending, s.jobs, i, a);
    }
  }

  lemma EndPassKeeps(s: State, e: Event)
    requires Inv(s) && Enabled(s, e) && e.EndPass?
    ensures Inv(Apply(s, e))
  {
    var t := Apply(s, e);
    var n := s.jobs[e.app].stage.pass;
    var p := s.passes[n];
    assert SpawnOk(s.requests, s.workers, n, p) && CursorOk(s.requests, s.workers, p);
    EndPassJobs(s, t, e);
    PassesStep(s, t, n);
    forall v | 0 <= v < |s.workers| && s.workers[v].stage.Charging?
      ensures s.workers[v].pass != n
    {
      if s.workers[v].pass == n { NobodyCharging(s, n, v); }
    }
    WorkersFrame(s, t);
    DebtsSame(s, t);
  }

  // ---------------------------------------------------------------------------------------------
  // The create workers
  // ---------------------------------------------------------------------------------------------

  /** A worker step that only touches its pass's handouts, its own stage and the info lists keeps everything else. */
  lemma WorkerStepKeeps(s: State, t: State, w: WorkerId, q: Pass, stage: WorkerStage)
    requires Inv(s) && IsWorker(s, w)
    requires t == s.(passes := s.passes[s.workers[w].pass := q],
                     workers := s.workers[w := s.workers[w].(stage := stage)],
                     requests := t.requests)
    requires SameBooks(s.requests, t.requests)
    requires forall i :: 0 <= i < |s.requests| ==> t.requests[i].waiting == s.requests[i].waiting
    requires PassGrows(WPass(s, w), q)
    requires q.app == WPass(s, w).app && q.stage == WPass(s, w).stage && q.workers == WPass(s, w).workers
    requires PassesOk(t) && WorkerOk(t.passes, w, t.workers[w])
    ensures Inv(t)
  {
    TableFrame(s, t);
    JobsFrame(s, t);
    WorkersStep(s, t, w);
    DebtsSame(s, t);
    NoReplySent(s, t);
  }

  /** What a worker's pass and the worker itself satisfy. */
  lemma WorkerFacts(s: State, w: WorkerId)
    requires Inv(s) && IsWorker(s, w)
    ensures WorkerOk(s.passes, w, s.workers[w])
    ensures SpawnOk(s.requests, s.workers, s.workers[w].pass, WPass(s, w))
      && CursorOk(s.requests, s.workers, WPass(s, w))
  {
  }

  lemma HandOutCursor(s: State, t: State, w: WorkerId, p: Pass, q: Pass)
    requires Enabled(s, GetNext(w)) && t == Apply(s, GetNext(w)) && p == WPass(s, w) && q == t.passes[s.workers[w].pass]
    requires p.next < |p.sites|
    requires CursorOk(s.requests, s.workers, p) && w in p.workers
    ensures CursorOk(t.requests, t.workers, q)
  {
    forall k | 0 <= k < |q.handed|
      ensures q.handed[k].worker < |t.workers|
      ensures HandoutOk(t.requests, q.reqs, k, q.handed[k], t.workers[q.handed[k].worker].stage)
    {
      if k < |p.handed| {
        assert HandoutOk(s.requests, p.reqs, k, p.handed[k], s.workers[p.handed[k].worker].stage);
      }
    }
    forall k, m | 0 <= k < m < |q.handed| && q.handed[k].worker == q.handed[m].worker
      ensures q.handed[k].outcome == Some(Failed) && Blamed(t.requests, q.reqs)
    {
      assert HandoutOk(s.requests, p.reqs, k, p.handed[k], s.workers[p.handed[k].worker].stage);
    }
  }

  lemma HandOutSite(s: State, t: State, w: WorkerId)
    requires PassesOk(s) && w < |s.workers| && WorkerOk(s.passes, w, s.workers[w])
    requires Enabled(s, GetNext(w)) && t == Apply(s, GetNext(w))
    requires WPass(s, w).next < |WPass(s, w).sites|
    ensures PassesOk(t)
  {
    var n := s.workers[w].pass;
    var p, q := s.passes[n], t.passes[n];
    assert SpawnOk(s.requests, s.workers, n, p) && CursorOk(s.requests, s.workers, p);
    HandOutCursor(s, t, w, p, q);
    PassesStep(s, t, n);
  }

  lemma GetNextHands(s: State, t: State, w: WorkerId)
    requires Inv(s) && Enabled(s, GetNext(w)) && t == Apply(s, GetNext(w)) && WPass(s, w).next < |WPass(s, w).sites|
    ensures Inv(t)
  {
    var p := WPass(s, w);
    var q := t.passes[s.workers[w].pass];
    WorkerFacts(s, w);
    HandOutSite(s, t, w);
    assert t == s.(passes := s.passes[s.workers[w].pass := q],
      workers := s.workers[w := s.workers[w].(stage := t.workers[w].stage)]);
    assert PassGrows(p, q) && WorkerOk(t.passes, w, t.workers[w]);
    hide Apply, Enabled, Inv, WorkerOk, SpawnOk, CursorOk, PassesOk, PassGrows;
    WorkerStepKeeps(s, t, w, q, t.workers[w].stage);
  }

  lemma GetNextFindsNone(s: State, t: State, w: WorkerId)
    requires Inv(s) && Enabled(s, GetNext(w)) && t == Apply(s, GetNext(w)) && WPass(s, w).next >= |WPass(s, w).sites|
    ensures Inv(t)
  {
    var p := WPass(s, w);
    WorkerFacts(s, w);
    assert t == s.(workers := s.workers[w := s.workers[w].(stage := Releasing)]);
    hide Apply, Enabled;
    forall k | 0 <= k < |p.handed| && p.handed[k].worker == w
      ensures HandoutOk(s.requests, p.reqs, k, p.handed[k], Releasing)
    {
      assert HandoutOk(s.requests, p.reqs, k, p.handed[k], Ready);
    }
    StageStep(s, t, w, p);
    WorkerStepKeeps(s, t, w, p, Releasing);
  }

  lemma GetNextKeeps(s: State, e: Event)
    requires Inv(s) && Enabled(s, e) && e.GetNext?
    ensures Inv(Apply(s, e))
  {
    var t := Apply(s, e);
    hide Apply, Inv;
    if WPass(s, e.worker).next < |WPass(s, e.worker).sites| {
      GetNextHands(s, t, e.worker);
    } else {
      GetNextFindsNone(s, t, e.worker);
    }
  }

  lemma CallReturnsPass(s: State, t: State, w: WorkerId, result: CallResult)
    requires PassesOk(s) && WorkersOk(s) && Enabled(s, CallReturns(w, result)) && t == Apply(s, CallReturns(w, result))
    ensures PassesOk(t)
    ensures PassGrows(WPass(s, w), t.passes[s.workers[w].pass])
  {
    var n := s.workers[w].pass;
    var p, q := s.passes[n], t.passes[n];
    var h := s.workers[w].stage.handout;
    assert SpawnOk(s.requests, s.workers, n, p) && CursorOk(s.requests, s.workers, p)
      && WorkerOk(s.passes, w, s.workers[w]);
    CallReturnsCursor(s, t, w, result, p, q);
    PassesStep(s, t, n);
  }

  lemma CallReturnsCursor(s: State, t: State, w: WorkerId, result: CallResult, p: Pass, q: Pass)
    requires Enabled(s, CallReturns(w, result)) && t == Apply(s, CallReturns(w, result))
    requires p == WPass(s, w) && q == t.passes[s.workers[w].pass]
    requires CursorOk(s.requests, s.workers, p) && WorkerOk(s.passes, w, s.workers[w])
    ensures CursorOk(t.requests, t.workers, q)
    ensures p.handed[s.workers[w].stage.handout].outcome == None
  {
    var h := s.workers[w].stage.handout;
    assert HandoutOk(s.requests, p.reqs, h, p.handed[h], s.workers[p.handed[h].worker].stage);
    forall k | 0 <= k < |q.handed|
      ensures HandoutOk(t.requests, q.reqs, k, q.handed[k], t.workers[q.handed[k].worker].stage)
    {
      assert HandoutOk(s.requests, p.reqs, k, p.handed[k], s.workers[p.handed[k].worker].stage);
    }
  }

  lemma CallReturnsKeeps(s: State, e: Event)
    requires Inv(s) && Enabled(s, e) && e.CallReturns?
    ensures Inv(Apply(s, e))
  {
    var t := Apply(s, e);
    var w := e.worker;
    var q := t.passes[s.workers[w].pass];
    var h := s.workers[w].stage.handout;
    WorkerFacts(s, w);
    CallReturnsPass(s, t, w, e.result);
    if e.result == Ignorable {
      assert q.handed[h].worker == w && EndsWorker(q.handed[h].outcome);
    }
    WorkerStepKeeps(s, t, w, q, t.workers[w].stage);
  }

  /** The stage of one worker moves on; the passes must only agree about its handouts. */
  lemma StageStep(s: State, t: State, w: WorkerId, p: Pass)
    requires PassesOk(s) && WorkersOk(s) && IsWorker(s, w)
    requires t.passes == s.passes && |t.workers| == |s.workers| && ErrorsKept(s.requests, t.requests)
    requires forall v :: 0 <= v < |s.workers| && v != w ==> t.workers[v] == s.workers[v]
    requires t.workers[w].pass == s.workers[w].pass
    requires p == WPass(s, w)
    requires forall k :: 0 <= k < |p.handed| && p.handed[k].worker == w ==>
      HandoutOk(t.requests, p.reqs, k, p.handed[k], t.workers[w].stage)
    ensures PassesOk(t)
  {
    var n := s.workers[w].pass;
    assert SpawnOk(s.requests, s.workers, n, p) && CursorOk(s.requests, s.workers, p);
    forall k | 0 <= k < |p.handed|
      ensures HandoutOk(t.requests, p.reqs, k, p.handed[k], t.workers[p.handed[k].worker].stage)
    {
      var v := p.handed[k].worker;
      if v != w {
        var stage := s.workers[v].stage;
        assert t.workers[v].stage == stage;
        HandoutFrame(s.requests, t.requests, p.reqs, k, p.handed[k], stage);
        assert HandoutOk(t.requests, p.reqs, k, p.handed[k], stage);
      }
    }
    if Blamed(s.requests, p.reqs) { BlamedKept(s.requests, t.requests, p.reqs); }
    BlamedPrefix(s, t, p);
    PassesStep(s, t, n);
  }

  lemma BlamedPrefix(s: State, t: State, p: Pass)
    requires ErrorsKept(s.requests, t.requests)
    requires p.stage.Reporting? ==> p.stage.next <= |p.reqs| && Blamed(s.requests, p.reqs[..p.stage.next])
    ensures p.stage.Reporting? ==> Blamed(t.requests, p.reqs[..p.stage.next])
  {
  }

  lemma RecordPass(s: State, t: State, w: WorkerId)
    requires PassesOk(s) && WorkersOk(s) && Enabled(s, Record(w)) && t == Apply(s, Record(w))
    ensures PassesOk(t)
  {
    var n := s.workers[w].pass;
    var p := s.passes[n];
    var st := s.workers[w].stage;
    assert SpawnOk(s.requests, s.workers, n, p) && CursorOk(s.requests, s.workers, p)
      && WorkerOk(s.passes, w, s.workers[w]);
    assert p.reqs[..st.next + 1] == p.reqs[..st.next] + [p.reqs[st.next]];
    forall k | 0 <= k < |p.handed| && p.handed[k].worker == w
      ensures HandoutOk(t.requests, p.reqs, k, p.handed[k], t.workers[w].stage)
    {
      HandoutFrame(s.requests, t.requests, p.reqs, k, p.handed[k], st);
      assert HandoutOk(s.requests, p.reqs, k, p.handed[k], st);
    }
    StageStep(s, t, w, p);
  }

  /** A worker that has not begun to release owes every request of its pass. */
  lemma OwesAll(s: State, w: WorkerId, k: nat)
    requires Inv(s) && IsWorker(s, w) && k < |WPass(s, w).reqs|
    requires !s.workers[w].stage.Charging? && (s.workers[w].stage.Releasing? ==> k == s.workers[w].released)
    ensures WPass(s, w).reqs[k] < |s.requests|
    ensures s.requests[WPass(s, w).reqs[k]].waiting > 0 && !s.requests[WPass(s, w).reqs[k]].progress.Replied?
  {
    WorkerFacts(s, w);
    var wk, p := s.workers[w], WPass(s, w);
    assert p.reqs[wk.released..wk.charged][k - wk.released] == p.reqs[k];
    DebtKeepsWaiting(s, w, p.reqs[k]);
  }

  /** Writing to an unanswered request's info lists or wait count leaves the books alone. */
  lemma OneRequestBooks(before: seq<Request>, after: seq<Request>, i: ReqId)
    requires i < |before| && !before[i].progress.Replied? && |after| == |before|
    requires after[i] == before[i].(errors := after[i].errors, completed := after[i].completed,
      waiting := after[i].waiting)
    requires after == before[i := after[i]]
    ensures SameBooks(before, after)
  {
  }

  lemma BooksKeep(s: State, t: State)
    requires TableOk(s) && JobsOk(s) && RepliesOk(s) && SameBooks(s.requests, t.requests)
    requires t == s.(requests := t.requests, workers := t.workers)
    ensures TableOk(t) && JobsOk(t) && RepliesOk(t)
  {
    TableFrame(s, t);
    JobsFrame(s, t);
    NoReplySent(s, t);
  }

  lemma RecordKeeps(s: State, e: Event)
    requires Inv(s) && Enabled(s, e) && e.Record?
    ensures Inv(Apply(s, e))
  {
    var t := Apply(s, e);
    var w := e.worker;
    var k := s.workers[w].stage.next;
    OwesAll(s, w, k);
    OneRequestBooks(s.requests, t.requests, WPass(s, w).reqs[k]);
    RecordPass(s, t, w);
    RecordWorker(s, t, w);
    BooksKeep(s, t);
    RecordCharges(s, t, w);
  }

  lemma RecordCharges(s: State, t: State, w: WorkerId)
    requires ChargesOk(s) && Enabled(s, Record(w)) && t == Apply(s, Record(w))
    ensures ChargesOk(t)
  {
    DebtsSame(s, t);
  }

  lemma RecordWorker(s: State, t: State, w: WorkerId)
    requires WorkersOk(s) && Enabled(s, Record(w)) && t == Apply(s, Record(w))
    ensures WorkersOk(t)
  {
    assert WorkerOk(s.passes, w, s.workers[w]);
    WorkersStep(s, t, w);
  }

  lemma EndRecordingPass(s: State, t: State, w: WorkerId)
    requires PassesOk(s) && WorkersOk(s) && Enabled(s, EndRecording(w)) && t == Apply(s, EndRecording(w))
    ensures PassesOk(t)
    ensures WorkerOk(t.passes, w, t.workers[w])
  {
    var n := s.workers[w].pass;
    var p := s.passes[n];
    var st := s.workers[w].stage;
    var h := st.handout;
    assert SpawnOk(s.requests, s.workers, n, p) && CursorOk(s.requests, s.workers, p)
      && WorkerOk(s.passes, w, s.workers[w]);
    assert HandoutOk(s.requests, p.reqs, h, p.handed[h], st);
    assert p.reqs[..|p.reqs|] == p.reqs;
    forall k | 0 <= k < |p.handed| && p.handed[k].worker == w
      ensures HandoutOk(t.requests, p.reqs, k, p.handed[k], t.workers[w].stage)
    {
      assert HandoutOk(s.requests, p.reqs, k, p.handed[k], st);
    }
    StageStep(s, t, w, p);
    if p.handed[h].outcome == Some(Created) {
      assert Satisfied(p, w);
    }
  }

  lemma EndRecordingKeeps(s: State, e: Event)
    requires Inv(s) && Enabled(s, e) && e.EndRecording?
    ensures Inv(Apply(s, e))
  {
    var t := Apply(s, e);
    EndRecordingPass(s, t, e.worker);
    WorkerStepKeeps(s, t, e.worker, WPass(s, e.worker), t.workers[e.worker].stage);
  }

  lemma ReleaseDebts(s: State, t: State, w: WorkerId)
    requires PassesOk(s) && WorkersOk(s) && ChargesOk(s) && Enabled(s, Release(w)) && t == Apply(s, Release(w))
    ensures ChargesOk(t)
  {
    var n := s.workers[w].pass;
    var p := s.passes[n];
    var k := s.workers[w].released;
    assert SpawnOk(s.requests, s.workers, n, p) && WorkerOk(s.passes, w, s.workers[w]);
    assert p.reqs[k..|p.reqs|] == [p.reqs[k]] + p.reqs[k + 1..|p.reqs|];
    assert p.reqs[k] !in p.reqs[k + 1..|p.reqs|];
    OneMoreDebtor(t, s, w, p.reqs[k]);
  }

  lemma ReleaseWorker(s: State, t: State, w: WorkerId)
    requires PassesOk(s) && WorkersOk(s) && Enabled(s, Release(w)) && t == Apply(s, Release(w))
    ensures PassesOk(t) && WorkersOk(t)
  {
    assert WorkerOk(s.passes, w, s.workers[w]);
    PassesSameStages(s, t);
    WorkersStep(s, t, w);
  }

  lemma ReleaseKeeps(s: State, e: Event)
    requires Inv(s) && Enabled(s, e) && e.Release?
    ensures Inv(Apply(s, e))
  {
    var t := Apply(s, e);
    var w := e.worker;
    var k := s.workers[w].released;
    OwesAll(s, w, k);
    OneRequestBooks(s.requests, t.requests, WPass(s, w).reqs[k]);
    ReleaseDebts(s, t, w);
    ReleaseWorker(s, t, w);
    BooksKeep(s, t);
  }
}
