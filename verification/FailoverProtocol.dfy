/**
 The maintenance-failover protocol of autoprov/autoprov_minmax.go as a step system.

 Each event is one indivisible action: a critical section under MinMaxChecker.mux, one
 failoverReq.addError/addCompleted, one WaitGroup Add/Done, one getNext, one return of a
 Controller call. Events of different Apps, workers and repliers interleave in any order.
 */
module FailoverProtocol {
  import opened Keys
  import opened Seqs
  import opened Options

  type ReqId = nat
  type PassId = nat
  type WorkerId = nat

  /** The three answers a create call can give: success, an error the caller is told to ignore, a real error. */
  datatype CallResult = Created | Ignorable | Failed

  /** What a request's info lists hold. */
  datatype Note =
    | NotEnoughSites(pass: PassId)
    | CreateDone(pass: PassId, site: CloudletKey)
    | CreateFailed(pass: PassId, site: CloudletKey)

  datatype MaintenanceState = FailoverDone | FailoverError

  /**
   Queued: in the table. Draining: removed from the table, a replier waits for API calls. Replied: the reply
   was sent.
   */
  datatype Progress = Queued | Draining | Replied(outcome: MaintenanceState)

  /**
   A failoverReq object. `added` and `checked` are history: every App ever added, every App whose Check
   finished with it attached.
   */
  datatype Request = Request(
    cloudlet: CloudletKey,
    appsToCheck: set<AppKey>,
    errors: seq<Note>,
    completed: seq<Note>,
    waiting: nat,
    progress: Progress,
    added: set<AppKey>,
    checked: set<AppKey>)

  /** One run of CheckApp: the requests it collected, and how far it got. */
  datatype JobStage = Checking | InPass(pass: PassId) | Finishing(next: nat)
  datatype Job = Job(attached: seq<ReqId>, stage: JobStage)

  /** One site handed out by getNext: to which worker, and how its create call ended. */
  datatype Handout = Handout(worker: WorkerId, site: CloudletKey, outcome: Option<CallResult>)

  /** One checkPolicy pass that got past the max check. */
  datatype PassStage = Reporting(next: nat) | Spawning | Launched
  datatype Pass = Pass(
    app: AppKey,
    reqs: seq<ReqId>,
    need: int,
    sites: seq<CloudletKey>,
    next: nat,
    stage: PassStage,
    workers: seq<WorkerId>,
    handed: seq<Handout>)

  /** One create worker. It has been charged to reqs[..charged] and has released reqs[..released]. */
  datatype WorkerStage = Charging | Ready | Calling(handout: nat) | Recording(handout: nat, next: nat) | Releasing
  datatype Worker = Worker(pass: PassId, stage: WorkerStage, charged: nat, released: nat)

  datatype Reply = Immediate(cloudlet: CloudletKey) | FromRequest(req: ReqId, outcome: MaintenanceState)

  datatype State = State(
    table: map<CloudletKey, ReqId>,
    requests: seq<Request>,
    pending: set<AppKey>,
    jobs: map<AppKey, Job>,
    passes: seq<Pass>,
    workers: seq<Worker>,
    replies: seq<Reply>)

  const INIT: State := State(map[], [], {}, map[], [], [], [])

  datatype Event =
    | CloudletUpdated(cloudlet: CloudletKey, onlineChanged: bool, requested: bool, apps: set<AppKey>)
    | NeedsWork(app: AppKey)
    | StartCheck(app: AppKey, attached: seq<ReqId>)
    | BeginPass(app: AppKey, minActive: nat, online: nat, sites: seq<CloudletKey>)
    | ReportShortage(app: AppKey)
    | BeginSpawning(app: AppKey)
    | NewWorker(app: AppKey)
    | Charge(app: AppKey)
    | Launch(app: AppKey)
    | EndPass(app: AppKey)
    | FinishCheck(app: AppKey)
    | AppDone(app: AppKey)
    | EndJob(app: AppKey)
    | GetNext(worker: WorkerId)
    | CallReturns(worker: WorkerId, result: CallResult)
    | Record(worker: WorkerId)
    | EndRecording(worker: WorkerId)
    | Release(worker: WorkerId)
    | SendReply(req: ReqId)

  // ---------------------------------------------------------------------------------------------
  // Guards
  // ---------------------------------------------------------------------------------------------

  /** App's job is at stage InPass, and its pass is known. */
  predicate HasPass(s: State, app: AppKey) {
    app in s.jobs && s.jobs[app].stage.InPass? && s.jobs[app].stage.pass < |s.passes|
  }

  function PassOf(s: State, app: AppKey): Pass
    requires HasPass(s, app)
  {
    s.passes[s.jobs[app].stage.pass]
  }

  /** The worker the spawning loop of `p` is charging, if it is charging one. */
  predicate ChargesWorker(s: State, p: Pass) {
    p.workers != [] && Last(p.workers) < |s.workers| && s.workers[Last(p.workers)].stage.Charging?
  }

  /** The spawning loop's own guard: another worker is wanted and there is a site for it. */
  predicate WantsWorker(p: Pass) {
    |p.workers| < p.need && |p.workers| < |p.sites|
  }

  predicate IsWorker(s: State, w: WorkerId) {
    w < |s.workers| && s.workers[w].pass < |s.passes|
  }

  function WPass(s: State, w: WorkerId): Pass
    requires IsWorker(s, w)
  {
    s.passes[s.workers[w].pass]
  }

  /**
   The requests in the table that list `app`: what CheckApp collects, in the order its map iteration happens
   to take.
   */
  predicate CollectsFor(s: State, app: AppKey, attached: seq<ReqId>) {
    && NoDup(attached)
    && (forall i :: i in attached ==> i in s.table.Values)
    && (forall i :: i in attached ==> i < |s.requests| && app in s.requests[i].appsToCheck)
    && (forall c :: c in s.table && s.table[c] < |s.requests| && app in s.requests[s.table[c]].appsToCheck ==>
      s.table[c] in attached)
  }

  predicate Enabled(s: State, e: Event) {
    match e
    case CloudletUpdated(c, _, _, _) => c in s.table ==> s.table[c] < |s.requests|
    case NeedsWork(_) => true
    case StartCheck(app, attached) => app in s.pending && app !in s.jobs && CollectsFor(s, app, attached)
    case BeginPass(app, _, _, _) => app in s.jobs && s.jobs[app].stage.Checking?
    case ReportShortage(app) =>
      HasPass(s, app) && var p := PassOf(s, app);
      p.stage.Reporting? && p.stage.next < |p.reqs| && p.reqs[p.stage.next] < |s.requests|
    case BeginSpawning(app) =>
      HasPass(s, app) && var p := PassOf(s, app);
      p.stage.Reporting? && p.stage.next >= |p.reqs|
    case NewWorker(app) =>
      HasPass(s, app) && var p := PassOf(s, app);
      p.stage.Spawning? && !ChargesWorker(s, p) && WantsWorker(p)
    case Charge(app) =>
      HasPass(s, app) && var p := PassOf(s, app);
      p.stage.Spawning? && ChargesWorker(s, p) &&
      var k := s.workers[Last(p.workers)].charged;
      k < |p.reqs| && p.reqs[k] < |s.requests|
    case Launch(app) =>
      HasPass(s, app) && var p := PassOf(s, app);
      p.stage.Spawning? && ChargesWorker(s, p) && s.workers[Last(p.workers)].charged >= |p.reqs|
    case EndPass(app) =>
      HasPass(s, app) && var p := PassOf(s, app);
      p.stage.Spawning? && !ChargesWorker(s, p) && !WantsWorker(p)
    case FinishCheck(app) => app in s.jobs && s.jobs[app].stage.Checking?
    case AppDone(app) =>
      app in s.jobs && s.jobs[app].stage.Finishing? && s.jobs[app].stage.next < |s.jobs[app].attached|
      && s.jobs[app].attached[s.jobs[app].stage.next] < |s.requests|
    case EndJob(app) => app in s.jobs && s.jobs[app].stage.Finishing?
      && s.jobs[app].stage.next >= |s.jobs[app].attached|
    case GetNext(w) => IsWorker(s, w) && s.workers[w].stage.Ready?
    case CallReturns(w, _) => IsWorker(s, w) && s.workers[w].stage.Calling?
      && s.workers[w].stage.handout < |WPass(s, w).handed|
    case Record(w) =>
      IsWorker(s, w) && s.workers[w].stage.Recording? && s.workers[w].stage.handout < |WPass(s, w).handed|
      && s.workers[w].stage.next < |WPass(s, w).reqs| && WPass(s, w).reqs[s.workers[w].stage.next] < |s.requests|
    case EndRecording(w) =>
      IsWorker(s, w) && s.workers[w].stage.Recording? && s.workers[w].stage.handout < |WPass(s, w).handed|
      && s.workers[w].stage.next >= |WPass(s, w).reqs|
    case Release(w) =>
      IsWorker(s, w) && s.workers[w].stage.Releasing? && s.workers[w].released < |WPass(s, w).reqs|
      && var i := WPass(s, w).reqs[s.workers[w].released];
      i < |s.requests| && s.requests[i].waiting > 0
    case SendReply(i) => i < |s.requests| && s.requests[i].progress.Draining? && s.requests[i].waiting == 0
  }

  // ---------------------------------------------------------------------------------------------
  // Effects
  // ---------------------------------------------------------------------------------------------

  function SetPass(s: State, app: AppKey, p: Pass): State
    requires HasPass(s, app)
  {
    s.(passes := s.passes[s.jobs[app].stage.pass := p])
  }

  /** handleFailoverReq, lines 180-209. */
  function HandleFailoverReq(s: State, c: CloudletKey, requested: bool, apps: set<AppKey>): State
    requires c in s.table ==> s.table[c] < |s.requests|
  {
    if !requested then s
    else if apps == {} then s.(replies := s.replies + [Immediate(c)])
    else if c !in s.table then
      s.(table := s.table[c := |s.requests|],
         requests := s.requests + [Request(c, apps, [], [], 0, Queued, apps, {})])
    else
      var i := s.table[c];
      var r := s.requests[i];
      s.(requests := s.requests[i := r.(appsToCheck := r.appsToCheck + apps, added := r.added + apps)])
  }

  /** The effect of one addError or addCompleted. */
  function Noted(r: Request, p: PassId, h: Handout): Request {
    if h.outcome == Some(Failed) then r.(errors := r.errors + [CreateFailed(p, h.site)])
    else r.(completed := r.completed + [CreateDone(p, h.site)])
  }

  function Apply(s: State, e: Event): State
    requires Enabled(s, e)
  {
    match e
    case CloudletUpdated(c, onlineChanged, requested, apps) =>
      if !onlineChanged then HandleFailoverReq(s, c, requested, {})
      else
        var s1 := HandleFailoverReq(s, c, requested, apps);
        s1.(pending := s1.pending + apps)
    case NeedsWork(app) => s.(pending := s.pending + {app})
    case StartCheck(app, attached) =>
      s.(pending := s.pending - {app}, jobs := s.jobs[app := Job(attached, Checking)])
    case BeginPass(app, minActive, online, sites) =>
      var need := minActive - online;
      var j := s.jobs[app];
      var stage := if |sites| < need then Reporting(0) else Spawning;
      s.(passes := s.passes + [Pass(app, j.attached, need, sites, 0, stage, [], [])],
         jobs := s.jobs[app := j.(stage := InPass(|s.passes|))])
    case ReportShortage(app) =>
      var p := PassOf(s, app);
      var i := p.reqs[p.stage.next];
      var r := s.requests[i];
      SetPass(s, app, p.(stage := Reporting(p.stage.next + 1)))
        .(requests := s.requests[i := r.(errors := r.errors + [NotEnoughSites(s.jobs[app].stage.pass)])])
    case BeginSpawning(app) => SetPass(s, app, PassOf(s, app).(stage := Spawning))
    case NewWorker(app) =>
      var p := PassOf(s, app);
      SetPass(s, app, p.(workers := p.workers + [|s.workers|]))
        .(workers := s.workers + [Worker(s.jobs[app].stage.pass, Charging, 0, 0)])
    case Charge(app) =>
      var p := PassOf(s, app);
      var w := Last(p.workers);
      var i := p.reqs[s.workers[w].charged];
      s.(workers := s.workers[w := s.workers[w].(charged := s.workers[w].charged + 1)],
         requests := s.requests[i := s.requests[i].(waiting := s.requests[i].waiting + 1)])
    case Launch(app) =>
      var w := Last(PassOf(s, app).workers);
      s.(workers := s.workers[w := s.workers[w].(stage := Ready)])
    case EndPass(app) =>
      SetPass(s, app, PassOf(s, app).(stage := Launched))
        .(jobs := s.jobs[app := s.jobs[app].(stage := Checking)])
    case FinishCheck(app) =>
      var j := s.jobs[app];
      s.(jobs := s.jobs[app := j.(stage := Finishing(0))],
         requests := seq(|s.requests|, i requires 0 <= i < |s.requests| =>
           if i in j.attached then s.requests[i].(checked := s.requests[i].checked + {app}) else s.requests[i]))
    case AppDone(app) =>
      var j := s.jobs[app];
      var i := j.attached[j.stage.next];
      var s1 := s.(jobs := s.jobs[app := j.(stage := Finishing(j.stage.next + 1))]);
      AppDoneOn(s1, i, app)
    case EndJob(app) => s.(jobs := s.jobs - {app})
    case GetNext(w) =>
      var p := WPass(s, w);
      if p.next < |p.sites| then
        s.(passes := s.passes[s.workers[w].pass :=
          p.(next := p.next + 1, handed := p.handed + [Handout(w, p.sites[p.next], None)])],
           workers := s.workers[w := s.workers[w].(stage := Calling(|p.handed|))])
      else s.(workers := s.workers[w := s.workers[w].(stage := Releasing)])
    case CallReturns(w, result) =>
      var p := WPass(s, w);
      var k := s.workers[w].stage.handout;
      var stage := if result.Ignorable? then Releasing else Recording(k, 0);
      s.(passes := s.passes[s.workers[w].pass := p.(handed := p.handed[k := p.handed[k].(outcome := Some(result))])],
         workers := s.workers[w := s.workers[w].(stage := stage)])
    case Record(w) =>
      var p := WPass(s, w);
      var st := s.workers[w].stage;
      var i := p.reqs[st.next];
      s.(requests := s.requests[i := Noted(s.requests[i], s.workers[w].pass, p.handed[st.handout])],
         workers := s.workers[w := s.workers[w].(stage := Recording(st.handout, st.next + 1))])
    case EndRecording(w) =>
      var failed := WPass(s, w).handed[s.workers[w].stage.handout].outcome == Some(Failed);
      s.(workers := s.workers[w := s.workers[w].(stage := if failed then Ready else Releasing)])
    case Release(w) =>
      var i := WPass(s, w).reqs[s.workers[w].released];
      s.(requests := s.requests[i := s.requests[i].(waiting := s.requests[i].waiting - 1)],
         workers := s.workers[w := s.workers[w].(released := s.workers[w].released + 1)])
    case SendReply(i) =>
      var r := s.requests[i];
      var outcome := if r.errors == [] then FailoverDone else FailoverError;
      s.(requests := s.requests[i := r.(progress := Replied(outcome))],
         replies := s.replies + [FromRequest(i, outcome)])
  }

  /** appDone followed by the deletion of a finished request, lines 306-313. */
  function AppDoneOn(s: State, i: ReqId, app: AppKey): State
    requires i < |s.requests|
  {
    var r := s.requests[i];
    if app !in r.appsToCheck then s
    else
      var left := r.appsToCheck - {app};
      if left != {} then s.(requests := s.requests[i := r.(appsToCheck := left)])
      else s.(requests := s.requests[i := r.(appsToCheck := {}, progress := Draining)],
              table := s.table - {r.cloudlet})
  }

}
