/** The invariant of the failover protocol, and its preservation by every event. */
module FailoverInvariant {
  import opened Keys
  import opened Seqs
  import opened FailoverProtocol
  import opened Options

  // ---------------------------------------------------------------------------------------------
  // What every reachable state satisfies
  // ---------------------------------------------------------------------------------------------

  /** The requests an App's job has not yet passed through appDone. */
  function Open(j: Job): seq<ReqId> {
    if j.stage.Finishing? then (if j.stage.next <= |j.attached| then j.attached[j.stage.next..] else []) else j.attached
  }

  /** A worker is charged to request i and has not released it. */
  predicate Owes(passes: seq<Pass>, wk: Worker, i: ReqId) {
    && wk.pass < |passes|
    && wk.released <= wk.charged <= |passes[wk.pass].reqs|
    && i in passes[wk.pass].reqs[wk.released..wk.charged]
  }

  /** The workers whose calls the replier of request i waits for. */
  function Debtors(passes: seq<Pass>, workers: seq<Worker>, i: ReqId): set<WorkerId> {
    set w: nat | w < |workers| && Owes(passes, workers[w], i)
  }

  /** Request i has an error recorded. */
  predicate HasError(requests: seq<Request>, i: ReqId) {
    i < |requests| && requests[i].errors != []
  }

  ghost predicate Blamed(requests: seq<Request>, reqs: seq<ReqId>) {
    forall k :: 0 <= k < |reqs| ==> HasError(requests, reqs[k])
  }

  predicate RequestOk(table: map<CloudletKey, ReqId>, i: ReqId, r: Request) {
    && (r.progress.Queued? <==> r.appsToCheck != {})
    && (r.progress.Queued? ==> r.cloudlet in table && table[r.cloudlet] == i)
    && r.appsToCheck <= r.added
    && r.added - r.appsToCheck <= r.checked
    && (r.progress.Replied? ==> r.waiting == 0)
    && (r.progress.Replied? ==> (r.progress.outcome == FailoverDone <==> r.errors == []))
  }

  ghost predicate TableOk(s: State) {
    && (forall c :: c in s.table ==>
         s.table[c] < |s.requests| && s.requests[s.table[c]].cloudlet == c && s.requests[s.table[c]].progress.Queued?)
    && (forall i :: 0 <= i < |s.requests| ==> RequestOk(s.table, i, s.requests[i]))
  }

  ghost predicate JobOk(requests: seq<Request>, passes: seq<Pass>, a: AppKey, j: Job) {
    && NoDup(j.attached)
    && (forall k :: 0 <= k < |j.attached| ==> j.attached[k] < |requests|)
    && (j.stage.Finishing? ==> j.stage.next <= |j.attached|)
    && (forall i :: i in Open(j) ==> i < |requests| && a in requests[i].appsToCheck)
    && (j.stage.Finishing? ==> forall k :: 0 <= k < |j.attached| ==> a in requests[j.attached[k]].checked)
    && (j.stage.InPass? ==>
         j.stage.pass < |passes| && passes[j.stage.pass].app == a && passes[j.stage.pass].reqs == j.attached
         && !passes[j.stage.pass].stage.Launched?)
  }

  /** An App that a request still lists will be checked: it is marked, or its running job carries the request. */
  predicate WillBeChecked(pending: set<AppKey>, jobs: map<AppKey, Job>, i: ReqId, a: AppKey) {
    a in pending || (a in jobs && i in Open(jobs[a]))
  }

  ghost predicate JobsOk(s: State) {
    && (forall a :: a in s.jobs ==> JobOk(s.requests, s.passes, a, s.jobs[a]))
    && (forall i, a :: 0 <= i < |s.requests| && a in s.requests[i].appsToCheck ==>
      WillBeChecked(s.pending, s.jobs, i, a))
    && (forall n :: 0 <= n < |s.passes| && !s.passes[n].stage.Launched? ==>
         s.passes[n].app in s.jobs && s.jobs[s.passes[n].app].stage == InPass(n))
  }

  /** The spawning loop of a pass: which workers it has made. */
  ghost predicate SpawnOk(requests: seq<Request>, workers: seq<Worker>, n: PassId, p: Pass) {
    && NoDup(p.reqs)
    && (forall k :: 0 <= k < |p.reqs| ==> p.reqs[k] < |requests|)
    && NoDup(p.workers)
    && (forall k :: 0 <= k < |p.workers| ==> p.workers[k] < |workers| && workers[p.workers[k]].pass == n)
    && |p.workers| <= |p.sites|
    && (p.workers != [] ==> |p.workers| <= p.need)
    && (p.stage.Launched? ==> !WantsWorker(p))
    && (p.stage.Reporting? ==> |p.sites| < p.need && p.workers == [] && p.stage.next <= |p.reqs|)
    && (p.stage.Reporting? ==> Blamed(requests, p.reqs[..p.stage.next]))
    && (!p.stage.Reporting? && |p.sites| < p.need ==> Blamed(requests, p.reqs))
  }

  /** The shared cursor of a pass: which sites it has handed out, and to whom. */
  ghost predicate CursorOk(requests: seq<Request>, workers: seq<Worker>, p: Pass) {
    && |p.handed| == p.next <= |p.sites|
    && (forall k :: 0 <= k < |p.handed| ==> p.handed[k].site == p.sites[k] && p.handed[k].worker in p.workers)
    && (forall k :: 0 <= k < |p.handed| ==>
         p.handed[k].worker < |workers|
           && HandoutOk(requests, p.reqs, k, p.handed[k], workers[p.handed[k].worker].stage))
    && (forall k, m :: 0 <= k < m < |p.handed| && p.handed[k].worker == p.handed[m].worker ==>
         p.handed[k].outcome == Some(Failed) && Blamed(requests, p.reqs))
  }

  /** How the k-th handout stands, given the stage of the worker that took it. */
  ghost predicate HandoutOk(requests: seq<Request>, reqs: seq<ReqId>, k: nat, h: Handout, stage: WorkerStage) {
    match stage
    case Charging => false
    case Ready => h.outcome == Some(Failed) && Blamed(requests, reqs)
    case Calling(m) => if k == m then h.outcome == None else h.outcome == Some(Failed) && Blamed(requests, reqs)
    case Recording(m, next) =>
      if k == m then
        && (h.outcome == Some(Created) || h.outcome == Some(Failed))
        && next <= |reqs|
        && (h.outcome == Some(Failed) ==> Blamed(requests, reqs[..next]))
      else h.outcome == Some(Failed) && Blamed(requests, reqs)
    case Releasing => h.outcome != None && (h.outcome == Some(Failed) ==> Blamed(requests, reqs))
  }

  /** The worker was told to stop: one of its calls succeeded or was ignorable. */
  ghost predicate Satisfied(p: Pass, w: WorkerId) {
    exists k :: 0 <= k < |p.handed| && p.handed[k].worker == w && EndsWorker(p.handed[k].outcome)
  }

  predicate EndsWorker(o: Option<CallResult>) {
    o == Some(Created) || o == Some(Ignorable)
  }

  ghost predicate WorkerOk(passes: seq<Pass>, w: WorkerId, wk: Worker) {
    && wk.pass < |passes|
    && var p := passes[wk.pass];
    && w in p.workers
    && wk.released <= wk.charged <= |p.reqs|
    && (wk.stage.Charging? ==> p.stage.Spawning? && p.workers != [] && Last(p.workers) == w)
    && (!wk.stage.Releasing? ==> wk.released == 0)
    && (!wk.stage.Charging? ==> wk.charged == |p.reqs|)
    && (wk.stage.Calling? || wk.stage.Recording? ==>
         wk.stage.handout < |p.handed| && p.handed[wk.stage.handout].worker == w)
    && (wk.stage.Releasing? ==> Satisfied(p, w) || p.next == |p.sites|)
  }

  ghost predicate ChargesOk(s: State) {
    forall i :: 0 <= i < |s.requests| ==> s.requests[i].waiting == |Debtors(s.passes, s.workers, i)|
  }

  /** How many replies request i has had from CheckApp. */
  function RepliesFor(replies: seq<Reply>, i: ReqId): nat {
    if replies == [] then 0
    else RepliesFor(replies[..|replies| - 1], i) +
         (match Last(replies) case FromRequest(j, _) => (if i == j then 1 else 0) case Immediate(_) => 0)
  }

  ghost predicate RepliesOk(s: State) {
    forall i: nat :: RepliesFor(s.replies, i) == if i < |s.requests| && s.requests[i].progress.Replied? then 1 else 0
  }

  ghost predicate PassesOk(s: State) {
    forall n :: 0 <= n < |s.passes| ==>
      SpawnOk(s.requests, s.workers, n, s.passes[n]) && CursorOk(s.requests, s.workers, s.passes[n])
  }

  ghost predicate WorkersOk(s: State) {
    forall w :: 0 <= w < |s.workers| ==> WorkerOk(s.passes, w, s.workers[w])
  }

  ghost predicate Inv(s: State) {
    TableOk(s) && JobsOk(s) && PassesOk(s) && WorkersOk(s) && ChargesOk(s) && RepliesOk(s)
  }

  // ---------------------------------------------------------------------------------------------
  // Frames: what a step that leaves most of the state alone cannot break
  // ---------------------------------------------------------------------------------------------

  /** Nobody's debts change, so no wait count has to. */
  lemma DebtsSame(s: State, t: State)
    requires |s.workers| <= |t.workers|
    requires forall w: nat, i: nat :: w < |t.workers| ==>
      (Owes(t.passes, t.workers[w], i) <==> w < |s.workers| && Owes(s.passes, s.workers[w], i))
    ensures forall i: nat :: Debtors(t.passes, t.workers, i) == Debtors(s.passes, s.workers, i)
  {
    forall i: nat ensures Debtors(t.passes, t.workers, i) == Debtors(s.passes, s.workers, i) {
      forall w: nat ensures w in Debtors(t.passes, t.workers, i) <==> w in Debtors(s.passes, s.workers, i) {
      }
    }
  }

  /** Recorded errors stay recorded. */
  ghost predicate ErrorsKept(before: seq<Request>, after: seq<Request>) {
    |before| <= |after| && forall i :: 0 <= i < |before| && before[i].errors != [] ==> after[i].errors != []
  }

  /** Everything about a request that the table and the jobs depend on. */
  ghost predicate SameBooks(before: seq<Request>, after: seq<Request>) {
    && |after| == |before|
    && forall i :: 0 <= i < |before| ==>
         && after[i].cloudlet == before[i].cloudlet
         && after[i].appsToCheck == before[i].appsToCheck
         && after[i].progress == before[i].progress
         && after[i].added == before[i].added
         && after[i].checked == before[i].checked
         && (before[i].progress.Replied? ==>
           after[i].waiting == before[i].waiting && after[i].errors == before[i].errors)
  }

  lemma TableFrame(s: State, t: State)
    requires TableOk(s) && t.table == s.table && SameBooks(s.requests, t.requests)
    ensures TableOk(t)
  {
  }

  lemma JobsFrame(s: State, t: State)
    requires JobsOk(s) && t.pending == s.pending && t.jobs == s.jobs && SameBooks(s.requests, t.requests)
    requires |t.passes| == |s.passes|
    requires forall n :: 0 <= n < |s.passes| ==>
      && t.passes[n].app == s.passes[n].app && t.passes[n].reqs == s.passes[n].reqs
      && (t.passes[n].stage.Launched? <==> s.passes[n].stage.Launched?)
    ensures JobsOk(t)
  {
  }

  /** The workers of pass m are the same ones at the same stages. */
  ghost predicate SameCrew(before: seq<Worker>, after: seq<Worker>, m: PassId) {
    |before| <= |after| && forall v :: 0 <= v < |before| && before[v].pass == m ==>
      after[v].pass == m && after[v].stage == before[v].stage
  }

  lemma BlamedKept(before: seq<Request>, after: seq<Request>, reqs: seq<ReqId>)
    requires ErrorsKept(before, after) && Blamed(before, reqs)
    ensures Blamed(after, reqs)
  {
  }

  lemma SpawnFrame(s: State, t: State, m: PassId, p: Pass)
    requires SpawnOk(s.requests, s.workers, m, p)
    requires ErrorsKept(s.requests, t.requests) && SameCrew(s.workers, t.workers, m)
    ensures SpawnOk(t.requests, t.workers, m, p)
  {
  }

  lemma HandoutFrame(before: seq<Request>, after: seq<Request>, reqs: seq<ReqId>, k: nat, h: Handout,
      stage: WorkerStage)
    requires ErrorsKept(before, after) && HandoutOk(before, reqs, k, h, stage)
    ensures HandoutOk(after, reqs, k, h, stage)
  {
  }

  lemma CursorFrame(s: State, t: State, m: PassId, p: Pass)
    requires SpawnOk(s.requests, s.workers, m, p) && CursorOk(s.requests, s.workers, p)
    requires ErrorsKept(s.requests, t.requests) && SameCrew(s.workers, t.workers, m)
    ensures CursorOk(t.requests, t.workers, p)
  {
    forall k | 0 <= k < |p.handed|
      ensures p.handed[k].worker < |t.workers|
      ensures HandoutOk(t.requests, p.reqs, k, p.handed[k], t.workers[p.handed[k].worker].stage)
    {
      var v := p.handed[k].worker;
      assert v in p.workers && s.workers[v].pass == m;
      HandoutFrame(s.requests, t.requests, p.reqs, k, p.handed[k], s.workers[v].stage);
    }
    if exists k, m' :: 0 <= k < m' < |p.handed| && p.handed[k].worker == p.handed[m'].worker {
      BlamedKept(s.requests, t.requests, p.reqs);
    }
  }

  /** A step that only changes pass n (or adds it) keeps every pass in order if it keeps n. */
  lemma PassesStep(s: State, t: State, n: PassId)
    requires PassesOk(s) && ErrorsKept(s.requests, t.requests)
    requires n < |t.passes| && |s.passes| <= |t.passes| <= |s.passes| + 1
    requires |t.passes| == |s.passes| + 1 ==> n == |s.passes|
    requires forall m :: 0 <= m < |s.passes| && m != n ==>
      t.passes[m] == s.passes[m] && SameCrew(s.workers, t.workers, m)
    requires SpawnOk(t.requests, t.workers, n, t.passes[n]) && CursorOk(t.requests, t.workers, t.passes[n])
    ensures PassesOk(t)
  {
    forall m | 0 <= m < |t.passes|
      ensures SpawnOk(t.requests, t.workers, m, t.passes[m]) && CursorOk(t.requests, t.workers, t.passes[m])
    {
      if m != n {
        SpawnFrame(s, t, m, s.passes[m]);
        CursorFrame(s, t, m, s.passes[m]);
      }
    }
  }

  /** A step that touches no pass and no worker. */
  lemma PassesFrame(s: State, t: State)
    requires PassesOk(s) && WorkersOk(s) && t.passes == s.passes && t.workers == s.workers
      && ErrorsKept(s.requests, t.requests)
    ensures PassesOk(t) && WorkersOk(t)
  {
    forall m | 0 <= m < |t.passes|
      ensures SpawnOk(t.requests, t.workers, m, t.passes[m]) && CursorOk(t.requests, t.workers, t.passes[m])
    {
      SpawnFrame(s, t, m, s.passes[m]);
      CursorFrame(s, t, m, s.passes[m]);
    }
  }

  /** What a pass may do while one of its workers sits at its stage. */
  ghost predicate PassGrows(p: Pass, q: Pass) {
    && q.reqs == p.reqs && q.sites == p.sites
    && p.workers <= q.workers
    && |p.handed| <= |q.handed|
    && (forall k :: 0 <= k < |p.handed| ==>
         q.handed[k].worker == p.handed[k].worker
           && (EndsWorker(p.handed[k].outcome) ==> EndsWorker(q.handed[k].outcome)))
    && (p.next == |p.sites| ==> q.next == |q.sites|)
  }

  lemma WorkerFrame(before: seq<Pass>, after: seq<Pass>, v: WorkerId, wk: Worker)
    requires WorkerOk(before, v, wk)
    requires |before| <= |after| && PassGrows(before[wk.pass], after[wk.pass])
    requires wk.stage.Charging? ==>
      after[wk.pass].workers == before[wk.pass].workers && after[wk.pass].stage == before[wk.pass].stage
    ensures WorkerOk(after, v, wk)
  {
    var p, q := before[wk.pass], after[wk.pass];
    assert v in q.workers;
    if wk.stage.Releasing? && Satisfied(p, v) {
      var k :| 0 <= k < |p.handed| && p.handed[k].worker == v && EndsWorker(p.handed[k].outcome);
      assert q.handed[k].worker == v && EndsWorker(q.handed[k].outcome);
    }
  }

  /** A step that changes at most worker w (or adds it) keeps every worker in order if it keeps w. */
  lemma WorkersStep(s: State, t: State, w: WorkerId)
    requires WorkersOk(s)
    requires w < |t.workers| && |s.workers| <= |t.workers| <= |s.workers| + 1
    requires |t.workers| == |s.workers| + 1 ==> w == |s.workers|
    requires forall v :: 0 <= v < |s.workers| && v != w ==> t.workers[v] == s.workers[v]
    requires |s.passes| <= |t.passes|
    requires forall n :: 0 <= n < |s.passes| ==> PassGrows(s.passes[n], t.passes[n])
    requires forall v :: 0 <= v < |s.workers| && v != w && s.workers[v].stage.Charging? ==>
      && t.passes[s.workers[v].pass].workers == s.passes[s.workers[v].pass].workers
      && t.passes[s.workers[v].pass].stage == s.passes[s.workers[v].pass].stage
    requires WorkerOk(t.passes, w, t.workers[w])
    ensures WorkersOk(t)
  {
    forall v | 0 <= v < |t.workers| ensures WorkerOk(t.passes, v, t.workers[v]) {
      if v != w {
        WorkerFrame(s.passes, t.passes, v, s.workers[v]);
      }
    }
  }

  /** The same for a step that changes no worker. */
  lemma WorkersFrame(s: State, t: State)
    requires WorkersOk(s) && t.workers == s.workers && |s.passes| <= |t.passes|
    requires forall n :: 0 <= n < |s.passes| ==> PassGrows(s.passes[n], t.passes[n])
    requires forall v :: 0 <= v < |s.workers| && s.workers[v].stage.Charging? ==>
      && t.passes[s.workers[v].pass].workers == s.passes[s.workers[v].pass].workers
      && t.passes[s.workers[v].pass].stage == s.passes[s.workers[v].pass].stage
    ensures WorkersOk(t)
  {
    forall v | 0 <= v < |t.workers| ensures WorkerOk(t.passes, v, t.workers[v]) {
      WorkerFrame(s.passes, t.passes, v, s.workers[v]);
    }
  }

  lemma NoReplySent(s: State, t: State)
    requires RepliesOk(s) && t.replies == s.replies && |s.requests| <= |t.requests|
    requires forall i :: 0 <= i < |t.requests| ==>
      (t.requests[i].progress.Replied? <==> i < |s.requests| && s.requests[i].progress.Replied?)
    ensures RepliesOk(t)
  {
  }

}
