/** Every event of the failover protocol keeps its invariant. */
module FailoverSteps {
  import opened Keys
  import opened Seqs
  import opened FailoverProtocol
  import opened FailoverInvariant

  lemma InitOk()
    ensures Inv(INIT)
  {
  }

  // ---------------------------------------------------------------------------------------------
  // Events that leave passes and workers alone
  // ---------------------------------------------------------------------------------------------

  /** No pass refers to a request that does not exist yet. */
  lemma NobodyOwesNew(s: State, i: ReqId)
    requires PassesOk(s) && i >= |s.requests|
    ensures Debtors(s.passes, s.workers, i) == {}
  {
    forall w: nat | w < |s.workers| ensures !Owes(s.passes, s.workers[w], i) {
    }
  }

  lemma HandleTable(s: State, c: CloudletKey, requested: bool, apps: set<AppKey>)
    requires TableOk(s)
    ensures TableOk(HandleFailoverReq(s, c, requested, apps))
  {
    var t := HandleFailoverReq(s, c, requested, apps);
    forall i | 0 <= i < |t.requests| ensures RequestOk(t.table, i, t.requests[i]) {
      if i < |s.requests| {
        assert RequestOk(s.table, i, s.requests[i]);
      }
    }
  }

  lemma HandleJobs(s: State, c: CloudletKey, requested: bool, apps: set<AppKey>, pending: set<AppKey>)
    requires TableOk(s) && JobsOk(s)
    requires s.pending <= pending && (requested ==> apps <= pending)
    ensures JobsOk(HandleFailoverReq(s, c, requested, apps).(pending := pending))
  {
    var t := HandleFailoverReq(s, c, requested, apps).(pending := pending);
    forall a | a in t.jobs ensures JobOk(t.requests, t.passes, a, t.jobs[a]) {
      JobFrame(s.requests, t.requests, s.passes, a, s.jobs[a]);
    }
    forall i, a | 0 <= i < |t.requests| && a in t.requests[i].appsToCheck
      ensures WillBeChecked(t.pending, t.jobs, i, a)
    {
      if i < |s.requests| && a in s.requests[i].appsToCheck {
        assert WillBeChecked(s.pending, s.jobs, i, a);
      }
    }
  }

  /** Apps may be added to requests under a running job. */
  lemma JobFrame(before: seq<Request>, after: seq<Request>, passes: seq<Pass>, a: AppKey, j: Job)
    requires JobOk(before, passes, a, j)
    requires |before| <= |after|
    requires forall i :: 0 <= i < |before| ==>
      && (a in before[i].appsToCheck ==> a in after[i].appsToCheck)
      && before[i].checked <= after[i].checked
    ensures JobOk(after, passes, a, j)
  {
  }

  lemma HandleFrame(s: State, c: CloudletKey, requested: bool, apps: set<AppKey>)
    requires c in s.table ==> s.table[c] < |s.requests|
    ensures var h := HandleFailoverReq(s, c, requested, apps);
      && h.passes == s.passes && h.workers == s.workers && h.jobs == s.jobs && h.pending == s.pending
      && ErrorsKept(s.requests, h.requests)
  {
  }

  /** Queueing a failover request and marking its Apps keeps the invariant. */
  lemma HandleKeeps(s: State, c: CloudletKey, requested: bool, apps: set<AppKey>, h: State, t: State)
    requires Inv(s) && (c in s.table ==> s.table[c] < |s.requests|)
    requires h == HandleFailoverReq(s, c, requested, apps) && t == h.(pending := s.pending + apps)
    ensures Inv(t)
  {
    HandleFrame(s, c, requested, apps);
    HandleTable(s, c, requested, apps);
    HandleCharges(s, c, requested, apps);
    HandleReplies(s, c, requested, apps);
    hide HandleFailoverReq, RequestOk, JobsOk;
    HandleJobs(s, c, requested, apps, s.pending + apps);
    PassesFrame(s, t);
  }

  lemma CloudletUpdatedShape(s: State, t: State, e: Event, apps: set<AppKey>, h: State)
    requires Enabled(s, e) && e.CloudletUpdated? && t == Apply(s, e) && apps == if e.onlineChanged then e.apps else {}
    requires h == HandleFailoverReq(s, e.cloudlet, e.requested, apps)
    ensures t == h.(pending := s.pending + apps)
  {
    HandleFrame(s, e.cloudlet, e.requested, apps);
    hide HandleFailoverReq;
    assert s.pending + {} == s.pending;
  }

  lemma CloudletUpdatedKeeps(s: State, e: Event)
    requires Inv(s) && Enabled(s, e) && e.CloudletUpdated?
    ensures Inv(Apply(s, e))
  {
    var apps := if e.onlineChanged then e.apps else {};
    var h := HandleFailoverReq(s, e.cloudlet, e.requested, apps);
    hide Apply, HandleFailoverReq, Inv;
    CloudletUpdatedShape(s, Apply(s, e), e, apps, h);
    HandleKeeps(s, e.cloudlet, e.requested, apps, h, Apply(s, e));
  }

  lemma HandleCharges(s: State, c: CloudletKey, requested: bool, apps: set<AppKey>)
    requires TableOk(s) && PassesOk(s) && ChargesOk(s)
    ensures ChargesOk(HandleFailoverReq(s, c, requested, apps))
  {
    NobodyOwesNew(s, |s.requests|);
  }

  lemma HandleReplies(s: State, c: CloudletKey, requested: bool, apps: set<AppKey>)
    requires TableOk(s) && RepliesOk(s)
    ensures RepliesOk(HandleFailoverReq(s, c, requested, apps))
  {
    var t := HandleFailoverReq(s, c, requested, apps);
    if t.replies != s.replies {
      assert t.replies[..|t.replies| - 1] == s.replies;
    }
  }

  lemma NeedsWorkKeeps(s: State, e: Event)
    requires Inv(s) && Enabled(s, e) && e.NeedsWork?
    ensures Inv(Apply(s, e))
  {
  }

  lemma StartCheckJobs(s: State, app: AppKey, attached: seq<ReqId>)
    requires TableOk(s) && JobsOk(s) && app in s.pending && app !in s.jobs && CollectsFor(s, app, attached)
    ensures JobsOk(s.(pending := s.pending - {app}, jobs := s.jobs[app := Job(attached, Checking)]))
  {
    var t := s.(pending := s.pending - {app}, jobs := s.jobs[app := Job(attached, Checking)]);
    forall a | a in t.jobs ensures JobOk(t.requests, t.passes, a, t.jobs[a]) {
      if a == app {
        assert forall k :: 0 <= k < |attached| ==> attached[k] in attached;
      }
    }
    forall i, a | 0 <= i < |t.requests| && a in t.requests[i].appsToCheck
      ensures WillBeChecked(t.pending, t.jobs, i, a)
    {
      assert WillBeChecked(s.pending, s.jobs, i, a);
      assert RequestOk(s.table, i, s.requests[i]);
      if a == app {
        assert s.table[s.requests[i].cloudlet] == i;
      }
    }
  }

  lemma StartCheckKeeps(s: State, e: Event)
    requires Inv(s) && Enabled(s, e) && e.StartCheck?
    ensures Inv(Apply(s, e))
  {
    StartCheckJobs(s, e.app, e.attached);
  }

  lemma FinishCheckJobs(s: State, t: State, e: Event)
    requires JobsOk(s) && Enabled(s, e) && e.FinishCheck? && t == Apply(s, e)
    ensures JobsOk(t)
  {
    var j, j' := s.jobs[e.app], t.jobs[e.app];
    assert j'.attached[0..] == j.attached;
    assert Open(j') == Open(j);
    forall a | a in t.jobs ensures JobOk(t.requests, t.passes, a, t.jobs[a]) {
      JobFrame(s.requests, t.requests, s.passes, a, s.jobs[a]);
    }
    forall i, a | 0 <= i < |t.requests| && a in t.requests[i].appsToCheck
      ensures WillBeChecked(t.pending, t.jobs, i, a)
    {
      assert WillBeChecked(s.pending, s.jobs, i, a);
    }
  }

  lemma FinishCheckKeeps(s: State, e: Event)
    requires Inv(s) && Enabled(s, e) && e.FinishCheck?
    ensures Inv(Apply(s, e))
  {
    var t := Apply(s, e);
    assert TableOk(t) by {
      forall i | 0 <= i < |t.requests| ensures RequestOk(t.table, i, t.requests[i]) {
        assert RequestOk(s.table, i, s.requests[i]);
      }
    }
    FinishCheckJobs(s, t, e);
    PassesFrame(s, t);
    NoReplySent(s, t);
  }

  lemma OpenStep(j: Job)
    requires j.stage.Finishing? && j.stage.next < |j.attached|
    ensures Open(j) == [j.attached[j.stage.next]] + Open(j.(stage := Finishing(j.stage.next + 1)))
  {
  }

  /** The job that ran appDone on its next request still has every later one open. */
  lemma AppDoneOwnJob(before: seq<Request>, after: seq<Request>, passes: seq<Pass>, a: AppKey, j: Job)
    requires JobOk(before, passes, a, j) && j.stage.Finishing? && j.stage.next < |j.attached|
    requires |before| == |after|
    requires forall i :: 0 <= i < |before| ==> after[i].checked == before[i].checked
    requires forall i :: 0 <= i < |before| && i != j.attached[j.stage.next] ==>
      after[i].appsToCheck == before[i].appsToCheck
    ensures JobOk(after, passes, a, j.(stage := Finishing(j.stage.next + 1)))
  {
    var rest := j.(stage := Finishing(j.stage.next + 1));
    forall i | i in Open(rest) ensures i in Open(j) && i != j.attached[j.stage.next] {
      LaterOpen(j, i);
    }
    hide Open, NoDup;
    assert JobOk(after, passes, a, rest);
  }

  lemma LaterOpen(j: Job, i: ReqId)
    requires NoDup(j.attached) && j.stage.Finishing? && j.stage.next < |j.attached|
    requires i in Open(j.(stage := Finishing(j.stage.next + 1)))
    ensures i in Open(j) && i != j.attached[j.stage.next]
  {
    var k := j.stage.next;
    var rest := Open(j.(stage := Finishing(k + 1)));
    var x :| 0 <= x < |rest| && rest[x] == i;
    assert rest[x] == j.attached[k + 1 + x] == Open(j)[x + 1];
  }

  /** Taking one App off one request leaves every other App's job and obligation alone. */
  lemma AppDoneJobs(s: State, t: State, e: Event)
    requires JobsOk(s) && Enabled(s, e) && e.AppDone? && t == Apply(s, e)
    ensures JobsOk(t)
  {
    var j := s.jobs[e.app];
    AppDoneShape(s, t, e);
    AppDoneOwnJob(s.requests, t.requests, s.passes, e.app, j);
    OpenStep(j);
    forall a | a in t.jobs ensures JobOk(t.requests, t.passes, a, t.jobs[a]) {
      if a != e.app {
        JobFrame(s.requests, t.requests, s.passes, a, s.jobs[a]);
      }
    }
    AppDoneOthers(s, t, e);
  }

  /** What appDone does to the obligations: one App leaves one request. */
  lemma AppDoneShape(s: State, t: State, e: Event)
    requires Enabled(s, e) && e.AppDone? && t == Apply(s, e)
    ensures t.pending == s.pending && |t.requests| == |s.requests|
    ensures t == AppDoneOn(s.(jobs := t.jobs), s.jobs[e.app].attached[s.jobs[e.app].stage.next], e.app)
    ensures t.jobs == s.jobs[e.app := s.jobs[e.app].(stage := Finishing(s.jobs[e.app].stage.next + 1))]
    ensures var i0 := s.jobs[e.app].attached[s.jobs[e.app].stage.next];
      forall i :: 0 <= i < |t.requests| ==>
        t.requests[i].appsToCheck == if i == i0 then s.requests[i].appsToCheck - {e.app} else s.requests[i].appsToCheck
  {
  }

  lemma AppDoneOthers(s: State, t: State, e: Event)
    requires JobsOk(s) && Enabled(s, e) && e.AppDone? && t == Apply(s, e)
    requires Open(s.jobs[e.app]) == [s.jobs[e.app].attached[s.jobs[e.app].stage.next]] + Open(t.jobs[e.app])
    ensures forall i, a :: 0 <= i < |t.requests| && a in t.requests[i].appsToCheck ==>
      WillBeChecked(t.pending, t.jobs, i, a)
  {
    AppDoneShape(s, t, e);
    hide Apply, Enabled, Open, JobOk;
    forall i, a | 0 <= i < |t.requests| && a in t.requests[i].appsToCheck
      ensures WillBeChecked(t.pending, t.jobs, i, a)
    {
      assert WillBeChecked(s.pending, s.jobs, i, a);
    }
  }

  lemma AppDoneTable(s: State, i0: ReqId, app: AppKey)
    requires TableOk(s) && i0 < |s.requests| && app in s.requests[i0].appsToCheck && app in s.requests[i0].checked
    ensures TableOk(AppDoneOn(s, i0, app))
  {
    var t := AppDoneOn(s, i0, app);
    assert RequestOk(s.table, i0, s.requests[i0]);
    forall i | 0 <= i < |t.requests| ensures RequestOk(t.table, i, t.requests[i]) {
      assert RequestOk(s.table, i, s.requests[i]);
    }
  }

  /** Taking a listed App off a request does not concern passes, workers, wait counts or replies. */
  lemma AppDoneRest(s: State, i0: ReqId, app: AppKey)
    requires TableOk(s) && PassesOk(s) && WorkersOk(s) && ChargesOk(s) && RepliesOk(s)
    requires i0 < |s.requests| && app in s.requests[i0].appsToCheck
    ensures var t := AppDoneOn(s, i0, app); PassesOk(t) && WorkersOk(t) && ChargesOk(t) && RepliesOk(t)
  {
    var t := AppDoneOn(s, i0, app);
    assert RequestOk(s.table, i0, s.requests[i0]);
    PassesFrame(s, t);
    NoReplySent(s, t);
  }

  lemma AppDoneKeeps(s: State, e: Event)
    requires Inv(s) && Enabled(s, e) && e.AppDone?
    ensures Inv(Apply(s, e))
  {
    var t := Apply(s, e);
    var j := s.jobs[e.app];
    var i0 := j.attached[j.stage.next];
    AppDoneShape(s, t, e);
    hide Apply, AppDoneOn;
    assert JobOk(s.requests, s.passes, e.app, j);
    assert i0 in Open(j) by { OpenStep(j); }
    AppDoneJobs(s, t, e);
    hide JobsOk;
    AppDoneTable(s.(jobs := t.jobs), i0, e.app);
    AppDoneRest(s.(jobs := t.jobs), i0, e.app);
  }

  lemma EndJobKeeps(s: State, e: Event)
    requires Inv(s) && Enabled(s, e) && e.EndJob?
    ensures Inv(Apply(s, e))
  {
    var t := Apply(s, e);
    assert JobOk(s.requests, s.passes, e.app, s.jobs[e.app]);
    assert Open(s.jobs[e.app]) == [];
    assert JobsOk(t) by {
      forall i, a | 0 <= i < |t.requests| && a in t.requests[i].appsToCheck
        ensures WillBeChecked(t.pending, t.jobs, i, a)
      {
        assert WillBeChecked(s.pending, s.jobs, i, a);
      }
    }
  }

  lemma SendReplyKeeps(s: State, e: Event)
    requires Inv(s) && Enabled(s, e) && e.SendReply?
    ensures Inv(Apply(s, e))
  {
    var t := Apply(s, e);
    PassesFrame(s, t);
    SendReplyTable(s, t, e);
    SendReplyJobs(s, t, e);
    assert t.replies[..|t.replies| - 1] == s.replies;
    assert RepliesOk(t);
  }

  lemma SendReplyTable(s: State, t: State, e: Event)
    requires TableOk(s) && Enabled(s, e) && e.SendReply? && t == Apply(s, e)
    ensures TableOk(t)
  {
    forall i | 0 <= i < |t.requests| ensures RequestOk(t.table, i, t.requests[i]) {
      assert RequestOk(s.table, i, s.requests[i]);
    }
  }

  lemma SendReplyJobs(s: State, t: State, e: Event)
    requires JobsOk(s) && Enabled(s, e) && e.SendReply? && t == Apply(s, e)
    ensures JobsOk(t)
  {
    forall a | a in t.jobs ensures JobOk(t.requests, t.passes, a, t.jobs[a]) {
      JobFrame(s.requests, t.requests, s.passes, a, s.jobs[a]);
    }
  }
}
