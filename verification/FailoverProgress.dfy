/**
 Liveness of the failover protocol: workers stop, nothing gets stuck, every request is answered; and what
 exactly decides an answer.
 */
module FailoverProgress {
  import opened Keys
  import opened Seqs
  import opened FailoverProtocol
  import opened FailoverInvariant
  import opened FailoverTheorems
  import opened Options

  // ---------------------------------------------------------------------------------------------
  // Every worker stops
  // ---------------------------------------------------------------------------------------------

  /** What the sites that are left can cost one worker: a getNext, a call and its recording each. */
  function SiteWork(left: int, reqs: nat): nat {
    if left <= 0 then 0 else SiteWork(left - 1, reqs) + reqs + 4
  }

  /** An upper bound on the steps a worker still takes: sites left, weighted, plus what its stage still has to do. */
  function WorkLeft(s: State, w: WorkerId): int
    requires IsWorker(s, w)
  {
    var p, wk := WPass(s, w), s.workers[w];
    var r := |p.reqs|;
    SiteWork(|p.sites| - p.next, r) +
    match wk.stage
    case Charging => r + 1
    case Ready => r + 1
    case Calling(_) => 2 * r + 3
    case Recording(_, next) => 2 * r + 2 - next
    case Releasing => r - wk.released
  }

  /** The steps a worker takes itself. */
  predicate StepOf(e: Event, w: WorkerId) {
    match e
    case GetNext(v) => v == w
    case CallReturns(v, _) => v == w
    case Record(v) => v == w
    case EndRecording(v) => v == w
    case Release(v) => v == w
    case _ => false
  }

  lemma WorkLeftNonNegative(s: State, w: WorkerId)
    requires Inv(s) && IsWorker(s, w)
    ensures WorkLeft(s, w) >= 0
  {
    var p, wk := WPass(s, w), s.workers[w];
    FailoverWorkers.WorkerFacts(s, w);
    if wk.stage.Recording? {
      assert HandoutOk(s.requests, p.reqs, wk.stage.handout, p.handed[wk.stage.handout], wk.stage);
    }
  }

  lemma GetNextProgress(s: State, t: State, w: WorkerId)
    requires Enabled(s, GetNext(w)) && t == Apply(s, GetNext(w))
    requires WPass(s, w).next <= |WPass(s, w).sites| && s.workers[w].released == 0
    ensures IsWorker(t, w) && WorkLeft(t, w) < WorkLeft(s, w)
  {
  }

  lemma CallReturnsProgress(s: State, t: State, w: WorkerId, result: CallResult)
    requires Enabled(s, CallReturns(w, result)) && t == Apply(s, CallReturns(w, result)) && s.workers[w].released == 0
    ensures IsWorker(t, w) && WorkLeft(t, w) < WorkLeft(s, w)
  {
  }

  lemma EndRecordingProgress(s: State, t: State, w: WorkerId)
    requires Enabled(s, EndRecording(w)) && t == Apply(s, EndRecording(w)) && s.workers[w].released == 0
    requires s.workers[w].stage.next <= |WPass(s, w).reqs|
    ensures IsWorker(t, w) && WorkLeft(t, w) < WorkLeft(s, w)
  {
  }

  lemma RecordProgress(s: State, t: State, w: WorkerId)
    requires Enabled(s, Record(w)) && t == Apply(s, Record(w))
    ensures IsWorker(t, w) && WorkLeft(t, w) < WorkLeft(s, w)
  {
  }

  lemma ReleaseProgress(s: State, t: State, w: WorkerId)
    requires Enabled(s, Release(w)) && t == Apply(s, Release(w))
    ensures IsWorker(t, w) && WorkLeft(t, w) < WorkLeft(s, w)
  {
  }

  /** A worker's own step uses some of its work up. */
  lemma OwnStepProgress(s: State, e: Event, t: State, w: WorkerId)
    requires Inv(s) && Enabled(s, e) && t == Apply(s, e) && IsWorker(s, w) && StepOf(e, w)
    ensures IsWorker(t, w) && WorkLeft(t, w) < WorkLeft(s, w)
  {
    var p, wk := WPass(s, w), s.workers[w];
    FailoverWorkers.WorkerFacts(s, w);
    hide Inv, SpawnOk, Apply, WorkLeft;
    match e
    case GetNext(_) => GetNextProgress(s, t, w);
    case CallReturns(_, result) => CallReturnsProgress(s, t, w, result);
    case Record(_) => RecordProgress(s, t, w);
    case EndRecording(_) =>
      assert HandoutOk(s.requests, p.reqs, wk.stage.handout, p.handed[wk.stage.handout], wk.stage);
      EndRecordingProgress(s, t, w);
    case Release(_) => ReleaseProgress(s, t, w);
  }

  /** The step leaves the worker where it is, or launches it, and gives its pass no sites back. */
  ghost predicate Undisturbed(s: State, t: State, w: WorkerId)
    requires IsWorker(s, w)
  {
    && IsWorker(t, w)
    && t.workers[w].pass == s.workers[w].pass && t.workers[w].released == s.workers[w].released
    && (t.workers[w].stage == s.workers[w].stage || (s.workers[w].stage.Charging? && t.workers[w].stage.Ready?))
    && WPass(t, w).reqs == WPass(s, w).reqs && WPass(t, w).sites == WPass(s, w).sites
    && WPass(s, w).next <= WPass(t, w).next
  }

  /** Events of requests, marks and jobs; passes and workers do not take part. */
  predicate JobEvent(e: Event) {
    e.CloudletUpdated? || e.NeedsWork? || e.StartCheck? || e.FinishCheck? || e.AppDone? || e.EndJob? || e.SendReply?
  }

  /** Events of the loop that spawns a pass's workers. */
  predicate PassEvent(e: Event) {
    e.BeginPass? || e.ReportShortage? || e.BeginSpawning? || e.NewWorker? || e.EndPass?
  }

  lemma JobEventQuiet(s: State, e: Event, t: State)
    requires Enabled(s, e) && t == Apply(s, e) && JobEvent(e)
    ensures t.passes == s.passes && t.workers == s.workers
  {
  }

  lemma PassEventLocal(s: State, e: Event, t: State, w: WorkerId)
    requires Enabled(s, e) && t == Apply(s, e) && PassEvent(e) && IsWorker(s, w)
    ensures Undisturbed(s, t, w)
  {
  }

  lemma WorkerEventLocal(s: State, e: Event, t: State, w: WorkerId)
    requires PassesOk(s) && Enabled(s, e) && t == Apply(s, e) && !JobEvent(e) && !PassEvent(e) && IsWorker(s, w)
      && !StepOf(e, w)
    ensures Undisturbed(s, t, w)
  {
  }

  /** A step of somebody else never disturbs a worker. */
  lemma OtherStepLocal(s: State, e: Event, t: State, w: WorkerId)
    requires PassesOk(s) && Enabled(s, e) && t == Apply(s, e) && IsWorker(s, w) && !StepOf(e, w)
    ensures Undisturbed(s, t, w)
  {
    hide Apply, Enabled, PassesOk;
    if JobEvent(e) {
      JobEventQuiet(s, e, t);
    } else if PassEvent(e) {
      PassEventLocal(s, e, t, w);
    } else {
      WorkerEventLocal(s, e, t, w);
    }
  }

  lemma {:induction false} FewerSitesLeft(a: int, b: int, r: nat)
    requires a <= b
    ensures SiteWork(a, r) <= SiteWork(b, r)
    decreases b - a
  {
    if a < b { FewerSitesLeft(a, b - 1, r); }
  }

  /** A step of somebody else never adds to a worker's work. */
  lemma OtherStepHarmless(s: State, e: Event, t: State, w: WorkerId)
    requires Inv(s) && Enabled(s, e) && t == Apply(s, e) && IsWorker(s, w) && !StepOf(e, w)
    ensures IsWorker(t, w) && WorkLeft(t, w) <= WorkLeft(s, w)
  {
    hide Apply, Enabled, PassesOk;
    OtherStepLocal(s, e, t, w);
    FewerSitesLeft(|WPass(s, w).sites| - WPass(t, w).next, |WPass(s, w).sites| - WPass(s, w).next, |WPass(s, w).reqs|);
  }

  lemma StepProgress(s: State, e: Event, t: State, w: WorkerId)
    requires Inv(s) && Enabled(s, e) && t == Apply(s, e) && IsWorker(s, w)
    ensures IsWorker(t, w)
    ensures (if StepOf(e, w) then 1 else 0) + WorkLeft(t, w) <= WorkLeft(s, w)
  {
    if StepOf(e, w) { OwnStepProgress(s, e, t, w); } else { OtherStepHarmless(s, e, t, w); }
  }

  /** How many of the events are steps of worker w. */
  function StepsOf(es: seq<Event>, w: WorkerId): nat {
    if es == [] then 0 else StepsOf(es[..|es| - 1], w) + (if StepOf(Last(es), w) then 1 else 0)
  }

  lemma RunStepProgress(es: seq<Event>, ss: seq<State>, k: nat, w: WorkerId)
    requires IsRun(es, ss) && k < |es| && IsWorker(ss[k], w)
    ensures IsWorker(ss[k + 1], w) && WorkLeft(ss[k + 1], w) >= 0
    ensures (if StepOf(es[k], w) then 1 else 0) + WorkLeft(ss[k + 1], w) <= WorkLeft(ss[k], w)
  {
    RunKeeps(es, ss, k);
    RunKeeps(es, ss, k + 1);
    StepProgress(ss[k], es[k], ss[k + 1], w);
    WorkLeftNonNegative(ss[k + 1], w);
  }

  /** A quantity that every step of w lowers and no step raises bounds the number of w's steps. */
  lemma {:induction false} Telescopes(es: seq<Event>, left: seq<int>, w: WorkerId)
    requires |left| == |es| + 1
    requires forall k :: 0 <= k < |es| ==> (if StepOf(es[k], w) then 1 else 0) + left[k + 1] <= left[k]
    ensures StepsOf(es, w) + left[|es|] <= left[0]
    decreases |es|
  {
    if es != [] {
      var n := |es| - 1;
      assert left[..n + 1][n] == left[n];
      Telescopes(es[..n], left[..n + 1], w);
    }
  }

  /** The step keeps the worker, and uses some of its work up if it is its own. */
  predicate Shrinks(s: State, e: Event, t: State, w: WorkerId) {
    IsWorker(s, w) ==>
      IsWorker(t, w) && WorkLeft(t, w) >= 0 && (if StepOf(e, w) then 1 else 0) + WorkLeft(t, w) <= WorkLeft(s, w)
  }

  /** The work a worker has left at each point of a stretch of steps. */
  lemma {:induction false} WorkTrace(es: seq<Event>, ss: seq<State>, w: WorkerId) returns (left: seq<int>)
    requires |ss| == |es| + 1 && IsWorker(ss[0], w) && WorkLeft(ss[0], w) >= 0
    requires forall k :: 0 <= k < |es| ==> Shrinks(ss[k], es[k], ss[k + 1], w)
    ensures |left| == |ss| && left[0] == WorkLeft(ss[0], w)
    ensures IsWorker(ss[|es|], w) && left[|es|] == WorkLeft(ss[|es|], w) >= 0
    ensures forall k :: 0 <= k < |es| ==> (if StepOf(es[k], w) then 1 else 0) + left[k + 1] <= left[k]
    decreases |es|
  {
    if es == [] {
      left := [WorkLeft(ss[0], w)];
    } else {
      var n := |es| - 1;
      var shorter := WorkTrace(es[..n], ss[..n + 1], w);
      assert Shrinks(ss[n], es[n], ss[n + 1], w);
      left := shorter + [WorkLeft(ss[n + 1], w)];
    }
  }

  /**
   In every run, a worker takes at most WorkLeft steps after any point, so it stops however the others are
   scheduled.
   */
  lemma WorkersStop(es: seq<Event>, ss: seq<State>, start: nat, end: nat, w: WorkerId)
    requires IsRun(es, ss) && start <= end < |ss| && IsWorker(ss[start], w)
    ensures StepsOf(es[start..end], w) <= WorkLeft(ss[start], w)
  {
    forall k | start <= k < end ensures Shrinks(ss[k], es[k], ss[k + 1], w) {
      if IsWorker(ss[k], w) { RunStepProgress(es, ss, k, w); }
    }
    RunKeeps(es, ss, start);
    WorkLeftNonNegative(ss[start], w);
    var part, states := es[start..end], ss[start..end + 1];
    forall k | 0 <= k < |part| ensures Shrinks(states[k], part[k], states[k + 1], w) {
      assert Shrinks(ss[start + k], es[start + k], ss[start + k + 1], w);
    }
    var left := WorkTrace(part, states, w);
    Telescopes(part, left, w);
  }

  // ---------------------------------------------------------------------------------------------
  // Nothing gets stuck
  // ---------------------------------------------------------------------------------------------

  predicate WorkerGone(s: State, w: WorkerId)
    requires IsWorker(s, w)
  {
    s.workers[w].stage.Releasing? && s.workers[w].released == |WPass(s, w).reqs|
  }

  /** Nothing is marked, running or waiting. */
  ghost predicate Quiescent(s: State) {
    && s.pending == {}
    && s.jobs == map[]
    && (forall w: nat :: IsWorker(s, w) ==> WorkerGone(s, w))
    && (forall i :: 0 <= i < |s.requests| ==> !s.requests[i].progress.Draining?)
  }

  /** Events that come from outside: cache updates. */
  predicate External(e: Event) {
    e.CloudletUpdated? || e.NeedsWork?
  }

  ghost predicate CanMove(s: State) {
    exists e :: !External(e) && Enabled(s, e)
  }

  /** A finite set of requests in some order. */
  lemma {:induction false} Enumerate(ids: set<ReqId>) returns (order: seq<ReqId>)
    ensures NoDup(order) && forall i :: i in order <==> i in ids
    decreases ids
  {
    if ids == {} {
      order := [];
    } else {
      var i :| i in ids;
      var rest := Enumerate(ids - {i});
      order := rest + [i];
    }
  }

  lemma MayMove(s: State, e: Event)
    requires !External(e) && Enabled(s, e)
    ensures CanMove(s)
  {
  }

  lemma PassCanMove(s: State, a: AppKey, p: Pass)
    requires HasPass(s, a) && p == PassOf(s, a) && !p.stage.Launched?
    requires forall k :: 0 <= k < |p.reqs| ==> p.reqs[k] < |s.requests|
    ensures CanMove(s)
  {
    if p.stage.Reporting? {
      MayMove(s, if p.stage.next < |p.reqs| then ReportShortage(a) else BeginSpawning(a));
    } else if ChargesWorker(s, p) {
      MayMove(s, if s.workers[Last(p.workers)].charged < |p.reqs| then Charge(a) else Launch(a));
    } else {
      MayMove(s, if WantsWorker(p) then NewWorker(a) else EndPass(a));
    }
  }

  lemma JobCanMove(s: State, a: AppKey)
    requires JobsOk(s) && PassesOk(s) && a in s.jobs
    ensures CanMove(s)
  {
    var j := s.jobs[a];
    assert JobOk(s.requests, s.passes, a, j);
    match j.stage
    case Checking =>
      MayMove(s, FinishCheck(a));
    case InPass(n) =>
      assert SpawnOk(s.requests, s.workers, n, s.passes[n]);
      PassCanMove(s, a, s.passes[n]);
    case Finishing(k) =>
      MayMove(s, if k < |j.attached| then AppDone(a) else EndJob(a));
  }

  lemma WorkerCanMove(s: State, w: WorkerId)
    requires Inv(s) && IsWorker(s, w) && !WorkerGone(s, w)
    ensures CanMove(s)
  {
    var wk, p := s.workers[w], WPass(s, w);
    FailoverWorkers.WorkerFacts(s, w);
    match wk.stage
    case Charging =>
      JobCanMove(s, p.app);
    case Ready => MayMove(s, GetNext(w));
    case Calling(_) => MayMove(s, CallReturns(w, Created));
    case Recording(_, next) => MayMove(s, if next < |p.reqs| then Record(w) else EndRecording(w));
    case Releasing =>
      FailoverWorkers.OwesAll(s, w, wk.released);
      MayMove(s, Release(w));
  }

  lemma PendingCanMove(s: State, a: AppKey)
    requires Inv(s) && a in s.pending
    ensures CanMove(s)
  {
    if a in s.jobs {
      JobCanMove(s, a);
    } else {
      var wanted := set c | c in s.table && a in s.requests[s.table[c]].appsToCheck :: s.table[c];
      var order := Enumerate(wanted);
      assert CollectsFor(s, a, order);
      MayMove(s, StartCheck(a, order));
    }
  }

  /** A reachable state in which no internal step is possible has no work of any kind left. */
  lemma NoDeadlock(s: State)
    requires Inv(s) && !CanMove(s)
    ensures Quiescent(s)
  {
    if a :| a in s.pending { PendingCanMove(s, a); }
    if a :| a in s.jobs { JobCanMove(s, a); }
    forall w: nat | IsWorker(s, w) ensures WorkerGone(s, w) {
      if !WorkerGone(s, w) { WorkerCanMove(s, w); }
    }
    forall i | 0 <= i < |s.requests| ensures !s.requests[i].progress.Draining? {
      if s.requests[i].progress.Draining? {
        if s.requests[i].waiting == 0 {
          MayMove(s, SendReply(i));
        } else {
          var w :| w in Debtors(s.passes, s.workers, i);
          WorkerCanMove(s, w);
        }
      }
    }
  }

  lemma QueuedMeansWork(s: State, i: ReqId)
    requires Inv(s) && i < |s.requests| && s.requests[i].progress.Queued?
    ensures s.pending != {} || s.jobs != map[]
  {
    assert RequestOk(s.table, i, s.requests[i]);
    var a :| a in s.requests[i].appsToCheck;
    assert WillBeChecked(s.pending, s.jobs, i, a);
  }

  /** In every run that has come to rest, every request ever queued has had exactly one reply. */
  lemma EveryRequestAnswered(es: seq<Event>, ss: seq<State>, n: nat, i: ReqId)
    requires IsRun(es, ss) && n < |ss| && !CanMove(ss[n]) && i < |ss[n].requests|
    ensures ss[n].requests[i].progress.Replied?
    ensures RepliesFor(ss[n].replies, i) == 1
  {
    RunKeeps(es, ss, n);
    var s, r := ss[n], ss[n].requests[i];
    NoDeadlock(s);
    if r.progress.Queued? {
      QueuedMeansWork(s, i);
    }
  }

  // ---------------------------------------------------------------------------------------------
  // What decides the answer
  // ---------------------------------------------------------------------------------------------

  /** The pass had too few sites, or one of its create calls really failed. */
  ghost predicate Troubled(p: Pass) {
    |p.sites| < p.need || exists k :: 0 <= k < |p.handed| && p.handed[k].outcome == Some(Failed)
  }

  /** An error message reports something that went wrong in a pass run for the request. */
  ghost predicate Justified(passes: seq<Pass>, i: ReqId, note: Note) {
    match note
    case NotEnoughSites(n) => n < |passes| && i in passes[n].reqs && |passes[n].sites| < passes[n].need
    case CreateFailed(n, site) => n < |passes| && i in passes[n].reqs && HasHandout(passes[n], site, Failed)
    case CreateDone(_, _) => false
  }

  ghost predicate HasHandout(p: Pass, site: CloudletKey, result: CallResult) {
    exists k :: 0 <= k < |p.handed| && p.handed[k].site == site && p.handed[k].outcome == Some(result)
  }

  ghost predicate NotesOk(s: State) {
    forall i, k :: 0 <= i < |s.requests| && 0 <= k < |s.requests[i].errors| ==>
      Justified(s.passes, i, s.requests[i].errors[k])
  }

  /** Passes never take back what they did. */
  ghost predicate PassesGrow(before: seq<Pass>, after: seq<Pass>) {
    && |before| <= |after|
    && forall n :: 0 <= n < |before| ==>
         && after[n].reqs == before[n].reqs && after[n].sites == before[n].sites && after[n].need == before[n].need
         && |before[n].handed| <= |after[n].handed|
         && forall k :: 0 <= k < |before[n].handed| ==>
              after[n].handed[k].site == before[n].handed[k].site
              && (before[n].handed[k].outcome != None ==> after[n].handed[k].outcome == before[n].handed[k].outcome)
  }

  lemma OnePassGrows(before: seq<Pass>, n: PassId, q: Pass)
    requires n < |before| && PassesGrow([before[n]], [q])
    ensures PassesGrow(before, before[n := q])
  {
    assert [before[n]][0] == before[n] && [q][0] == q;
  }

  lemma PassesOnlyGrow(s: State, e: Event)
    requires Inv(s) && Enabled(s, e)
    ensures PassesGrow(s.passes, Apply(s, e).passes)
  {
    if e.CallReturns? {
      var w := e.worker;
      var p, h := WPass(s, w), s.workers[w].stage.handout;
      FailoverWorkers.WorkerFacts(s, w);
      assert HandoutOk(s.requests, p.reqs, h, p.handed[h], s.workers[p.handed[h].worker].stage);
      OnePassGrows(s.passes, s.workers[w].pass, p.(handed := p.handed[h := p.handed[h].(outcome := Some(e.result))]));
    } else {
      OtherPassesGrow(s, e);
    }
  }

  lemma PassEventGrows(s: State, e: Event)
    requires Enabled(s, e) && PassEvent(e)
    ensures PassesGrow(s.passes, Apply(s, e).passes)
  {
  }

  lemma WorkerEventGrows(s: State, e: Event)
    requires Enabled(s, e) && !JobEvent(e) && !PassEvent(e) && !e.CallReturns?
    ensures PassesGrow(s.passes, Apply(s, e).passes)
  {
  }

  lemma OtherPassesGrow(s: State, e: Event)
    requires Enabled(s, e) && !e.CallReturns?
    ensures PassesGrow(s.passes, Apply(s, e).passes)
  {
    if JobEvent(e) {
      JobEventQuiet(s, e, Apply(s, e));
    } else if PassEvent(e) {
      PassEventGrows(s, e);
    } else {
      WorkerEventGrows(s, e);
    }
  }

  lemma JustifiedStays(before: seq<Pass>, after: seq<Pass>, i: ReqId, note: Note)
    requires PassesGrow(before, after) && Justified(before, i, note)
    ensures Justified(after, i, note)
  {
    if note.CreateFailed? {
      var p, q := before[note.pass], after[note.pass];
      var k :| 0 <= k < |p.handed| && p.handed[k].site == note.site && p.handed[k].outcome == Some(Failed);
      assert q.handed[k].site == note.site && q.handed[k].outcome == Some(Failed);
    }
  }

  /** The only new error a step writes is the one it has just seen. */
  lemma NewErrorJustified(s: State, e: Event, i: ReqId)
    requires PassesOk(s) && Enabled(s, e) && i < |Apply(s, e).requests|
    ensures var t := Apply(s, e);
      var before := if i < |s.requests| then s.requests[i].errors else [];
      t.requests[i].errors == before ||
        exists note :: t.requests[i].errors == before + [note] && Justified(t.passes, i, note)
  {
    var t := Apply(s, e);
    match e
    case ReportShortage(app) =>
      var n := s.jobs[app].stage.pass;
      assert SpawnOk(s.requests, s.workers, n, s.passes[n]);
      if i == s.passes[n].reqs[s.passes[n].stage.next] {
        assert Justified(t.passes, i, NotEnoughSites(n));
      }
    case Record(w) =>
      var n, h := s.workers[w].pass, s.workers[w].stage.handout;
      if i == s.passes[n].reqs[s.workers[w].stage.next] && s.passes[n].handed[h].outcome == Some(Failed) {
        assert HasHandout(t.passes[n], s.passes[n].handed[h].site, Failed);
        assert Justified(t.passes, i, CreateFailed(n, s.passes[n].handed[h].site));
      }
    case CloudletUpdated(_, _, _, _) =>
    case NeedsWork(_) =>
    case StartCheck(_, _) =>
    case BeginPass(_, _, _, _) =>
    case BeginSpawning(_) =>
    case NewWorker(_) =>
    case Charge(_) =>
    case Launch(_) =>
    case EndPass(_) =>
    case FinishCheck(_) =>
    case AppDone(_) =>
    case EndJob(_) =>
    case GetNext(_) =>
    case CallReturns(_, _) =>
    case EndRecording(_) =>
    case Release(_) =>
    case SendReply(_) =>
  }

  lemma NotesKeep(s: State, e: Event)
    requires Inv(s) && NotesOk(s) && Enabled(s, e)
    ensures NotesOk(Apply(s, e))
  {
    var t := Apply(s, e);
    PassesOnlyGrow(s, e);
    forall i, k | 0 <= i < |t.requests| && 0 <= k < |t.requests[i].errors|
      ensures Justified(t.passes, i, t.requests[i].errors[k])
    {
      NewErrorJustified(s, e, i);
      if i < |s.requests| && k < |s.requests[i].errors| {
        JustifiedStays(s.passes, t.passes, i, s.requests[i].errors[k]);
      }
    }
  }

  lemma {:induction false} RunNotes(es: seq<Event>, ss: seq<State>, n: nat)
    requires IsRun(es, ss) && n < |ss|
    ensures NotesOk(ss[n])
    decreases n
  {
    if n > 0 {
      RunKeeps(es, ss, n - 1);
      RunNotes(es, ss, n - 1);
      NotesKeep(ss[n - 1], es[n - 1]);
    }
  }

  /**
   In every run, the reply to a request is FAILOVER_ERROR exactly when some pass run for it was in
   trouble: too few sites, or a create call that really failed, even if a later site took the instance.
   */
  lemma AnswerDecidedByPasses(es: seq<Event>, ss: seq<State>, n: nat, i: ReqId)
    requires IsRun(es, ss) && n < |ss| && i < |ss[n].requests| && ss[n].requests[i].progress.Replied?
    ensures ss[n].requests[i].progress.outcome == FailoverError <==>
      exists m :: 0 <= m < |ss[n].passes| && i in ss[n].passes[m].reqs && Troubled(ss[n].passes[m])
  {
    RunKeeps(es, ss, n);
    RunNotes(es, ss, n);
    var s, r := ss[n], ss[n].requests[i];
    assert RequestOk(s.table, i, r);
    if r.progress.outcome == FailoverError {
      var note := r.errors[0];
      assert Justified(s.passes, i, note);
      assert Troubled(s.passes[note.pass]);
    } else {
      forall m | 0 <= m < |s.passes| && i in s.passes[m].reqs ensures !Troubled(s.passes[m]) {
        DoneMeansFilled(es, ss, n, i, m);
        var p := s.passes[m];
        assert SpawnOk(s.requests, s.workers, m, p);
      }
    }
  }
}
