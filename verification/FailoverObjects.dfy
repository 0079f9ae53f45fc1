/**
 The objects of the failover protocol as the source keeps them: requests on the heap, a table of
 pointers to them, a cursor over create sites. What touches them is proved to take the step of
 FailoverProtocol that models it: queueing, collecting and finishing requests, noting errors and
 completions, counting calls, handing out sites, replying.
 */
module FailoverObjects {
  import opened Keys
  import opened Seqs
  import P = FailoverProtocol
  import opened Options

  /** failoverReq. `model` is the protocol's view of it. */
  class FailoverReq {
    const cloudlet: CloudletKey
    var appsToCheck: set<AppKey>
    var errors: seq<P.Note>
    var completed: seq<P.Note>
    var waitApiCalls: nat
    ghost var model: P.Request

    ghost predicate Valid()
      reads this
    {
      && model.cloudlet == cloudlet && model.appsToCheck == appsToCheck
      && model.errors == errors && model.completed == completed && model.waiting == waitApiCalls
    }

    constructor (cloudlet: CloudletKey, apps: set<AppKey>)
      ensures Valid()
      ensures model == P.Request(cloudlet, apps, [], [], 0, P.Queued, apps, {})
      ensures this.cloudlet == cloudlet
    {
      this.cloudlet := cloudlet;
      appsToCheck, errors, completed, waitApiCalls := apps, [], [], 0;
      model := P.Request(cloudlet, apps, [], [], 0, P.Queued, apps, {});
    }

    method AddCompleted(msg: P.Note)
      requires Valid()
      modifies this
      ensures Valid() && model == old(model).(completed := old(model).completed + [msg])
    {
      completed := completed + [msg];
      model := model.(completed := completed);
    }

    method AddError(err: P.Note)
      requires Valid()
      modifies this
      ensures Valid() && model == old(model).(errors := old(model).errors + [err])
    {
      errors := errors + [err];
      model := model.(errors := errors);
    }

    /** Returns true if this App was the last one to be processed. */
    method AppDone(key: AppKey) returns (finished: bool)
      requires Valid()
      modifies this
      ensures Valid()
      ensures model == old(model).(appsToCheck := old(model).appsToCheck - {key})
      ensures finished <==> key in old(model).appsToCheck && model.appsToCheck == {}
    {
      if key !in appsToCheck {
        // avoid spawning another replier if already finished
        assert appsToCheck - {key} == appsToCheck;
        return false;
      }
      appsToCheck := appsToCheck - {key};
      model := model.(appsToCheck := appsToCheck);
      finished := appsToCheck == {};
    }

    /** waitApiCalls.Add(1) and waitApiCalls.Done(). */
    method AddCall()
      requires Valid()
      modifies this
      ensures Valid() && model == old(model).(waiting := old(model).waiting + 1)
    {
      waitApiCalls := waitApiCalls + 1;
      model := model.(waiting := waitApiCalls);
    }

    method CallDone()
      requires Valid() && waitApiCalls > 0
      modifies this
      ensures Valid() && model == old(model).(waiting := old(model).waiting - 1)
    {
      waitApiCalls := waitApiCalls - 1;
      model := model.(waiting := waitApiCalls);
    }

    /** Merges the Apps of a repeated request into this one, one key at a time. */
    method AddApps(apps: set<AppKey>)
      requires Valid()
      modifies this
      ensures Valid()
      ensures model == old(model).(appsToCheck := old(model).appsToCheck + apps, added := old(model).added + apps)
    {
      var rest := apps;
      while rest != {}
        invariant rest <= apps
        invariant appsToCheck == old(appsToCheck) + (apps - rest)
        invariant errors == old(errors) && completed == old(completed) && waitApiCalls == old(waitApiCalls)
        invariant model == old(model)
        decreases rest
      {
        var key :| key in rest;
        appsToCheck := appsToCheck + {key};
        rest := rest - {key};
      }
      model := model.(appsToCheck := appsToCheck, added := model.added + apps);
    }
  }

  /** potentialCreateSites: the cursor that the create workers of one pass share. */
  class PotentialCreateSites {
    const sites: seq<CloudletKey>
    var next: nat

    ghost predicate Valid()
      reads this
    {
      next <= |sites|
    }

    constructor (sites: seq<CloudletKey>)
      ensures Valid() && this.sites == sites && next == 0
    {
      this.sites := sites;
      next := 0;
    }

    /** The sites still to come lose their head, and the caller gets it. */
    method GetNext() returns (site: Option<CloudletKey>)
      requires Valid()
      modifies this
      ensures Valid()
      ensures sites[old(next)..] == (if site.Some? then [site.value] + sites[next..] else [])
      ensures site == None ==> next == old(next)
    {
      site := None;
      if next < |sites| {
        site := Some(sites[next]);
        next := next + 1;
      }
    }
  }

  /** The cursor object is where the pass's cursor is. */
  ghost predicate Mirrors(c: PotentialCreateSites, p: P.Pass)
    reads c
  {
    c.sites == p.sites && c.next == p.next
  }

  /** A worker's getNext is the protocol's: it gets the site of its new handout, or nothing, and then stops. */
  method TakeSite(c: PotentialCreateSites, ghost s: P.State, ghost w: P.WorkerId)
      returns (site: Option<CloudletKey>, ghost t: P.State)
    requires c.Valid() && P.Enabled(s, P.GetNext(w)) && Mirrors(c, P.WPass(s, w))
    modifies c
    ensures c.Valid() && t == P.Apply(s, P.GetNext(w)) && Mirrors(c, P.WPass(t, w))
    ensures t.workers[w].stage == if site.Some? then P.Calling(|P.WPass(s, w).handed|) else P.Releasing
    ensures P.WPass(t, w).handed == P.WPass(s, w).handed + (if site.Some? then [P.Handout(w, site.value, None)] else [])
  {
    t := P.Apply(s, P.GetNext(w));
    ghost var before := c.next;
    site := c.GetNext();
    assert before < |c.sites| ==> c.sites[before..][0] == c.sites[before];
  }

  /**
   The part of MinMaxChecker that the failover protocol uses. `st` is the protocol state; objs[i] is its i-th
   request.
   */
  class MinMaxChecker {
    var failoverRequests: map<CloudletKey, FailoverReq>
    var replies: seq<P.Reply>
    ghost var objs: seq<FailoverReq>
    ghost var st: P.State

    ghost predicate Valid()
      reads this, objs
    {
      && NoDup(objs)
      && |objs| == |st.requests|
      && (forall i :: 0 <= i < |objs| ==> objs[i].Valid() && Books(objs[i].model, st.requests[i]))
      && failoverRequests.Keys == st.table.Keys
      && (forall c :: c in st.table ==> st.table[c] < |objs| && failoverRequests[c] == objs[st.table[c]])
      && (forall c :: c in st.table ==> st.requests[st.table[c]].cloudlet == c)
      && replies == st.replies
    }

    /** The object agrees with the protocol's request on everything the object stores. */
    static ghost predicate Books(m: P.Request, r: P.Request) {
      && m.cloudlet == r.cloudlet && m.appsToCheck == r.appsToCheck && m.errors == r.errors
      && m.completed == r.completed && m.waiting == r.waiting
    }

    constructor ()
      ensures Valid() && st == P.INIT
    {
      failoverRequests, replies := map[], [];
      objs, st := [], P.INIT;
    }

    /** Lines 180-209: answer at once, put a new request in the table, or extend the one there. */
    method HandleFailoverReq(cloudlet: CloudletKey, requested: bool, appsToCheck: set<AppKey>)
      requires Valid()
      modifies this, objs
      ensures Valid() && fresh(set o | o in objs && o !in old(objs))
      ensures st == P.HandleFailoverReq(old(st), cloudlet, requested, appsToCheck)
    {
      if !requested {
        return;
      }
      if appsToCheck == {} {
        replies := replies + [P.Immediate(cloudlet)];
        st := P.HandleFailoverReq(st, cloudlet, requested, appsToCheck);
        return;
      }
      if cloudlet !in failoverRequests {
        Queue(cloudlet, appsToCheck);
      } else {
        Extend(cloudlet, appsToCheck);
      }
    }

    /** Lines 195-201. */
    method Queue(cloudlet: CloudletKey, appsToCheck: set<AppKey>)
      requires Valid() && cloudlet !in failoverRequests && appsToCheck != {}
      modifies this
      ensures Valid() && fresh(set o | o in objs && o !in old(objs))
      ensures st == P.HandleFailoverReq(old(st), cloudlet, true, appsToCheck)
    {
      st := P.HandleFailoverReq(st, cloudlet, true, appsToCheck);
      var req := new FailoverReq(cloudlet, appsToCheck);
      failoverRequests := failoverRequests[cloudlet := req];
      objs := objs + [req];
    }

    /** Lines 202-208. */
    method Extend(cloudlet: CloudletKey, appsToCheck: set<AppKey>)
      requires Valid() && cloudlet in failoverRequests && appsToCheck != {}
      modifies this, objs
      ensures Valid() && objs == old(objs)
      ensures st == P.HandleFailoverReq(old(st), cloudlet, true, appsToCheck)
    {
      st := P.HandleFailoverReq(st, cloudlet, true, appsToCheck);
      var req := failoverRequests[cloudlet];
      req.AddApps(appsToCheck);
    }

    /** Lines 292-299: the requests in the table that list the App, in any order. */
    method CollectRequests(key: AppKey) returns (reqs: seq<FailoverReq>, ghost attached: seq<P.ReqId>)
      requires Valid()
      ensures P.CollectsFor(st, key, attached)
      ensures Denote(reqs, attached)
    {
      reqs, attached := [], [];
      NothingCollected(key);
      hide CollectedFrom, Valid, Lists, P.CollectsFor, Denote;
      var rest := failoverRequests.Keys;
      ghost var seen: set<CloudletKey> := {};
      while rest != {}
        invariant seen + rest == failoverRequests.Keys && seen !! rest
        invariant Denote(reqs, attached)
        invariant CollectedFrom(seen, key, attached)
        decreases rest
      {
        var c :| c in rest;
        var req := failoverRequests[c];
        RequestOf(c);
        CollectOne(seen, key, attached, c);
        DenoteOneMore(reqs, attached, c);
        rest, seen := rest - {c}, seen + {c};
        if key in req.appsToCheck {
          reqs, attached := reqs + [req], attached + [st.table[c]];
        }
      }
      assert seen == failoverRequests.Keys;
      AllCollected(key, attached);
    }

    lemma RequestOf(c: CloudletKey)
      requires Valid() && c in failoverRequests
      ensures c in st.table && st.table[c] < |objs| == |st.requests| && failoverRequests[c] == objs[st.table[c]]
      ensures failoverRequests[c].appsToCheck == st.requests[st.table[c]].appsToCheck
    {
    }

    /** Exactly the requests of the given cloudlets that list the App, once each. */
    ghost predicate CollectedFrom(cs: set<CloudletKey>, key: AppKey, attached: seq<P.ReqId>)
      reads this
    {
      && NoDup(attached)
      && (forall i :: i in attached ==> exists c :: c in cs && Lists(c, key) && st.table[c] == i)
      && (forall c :: c in cs && Lists(c, key) ==> st.table[c] in attached)
    }

    /** The cloudlet's request in the table lists the App. */
    ghost predicate Lists(c: CloudletKey, key: AppKey)
      reads this
    {
      c in st.table && st.table[c] < |st.requests| && key in st.requests[st.table[c]].appsToCheck
    }

    lemma CollectOne(cs: set<CloudletKey>, key: AppKey, attached: seq<P.ReqId>, c: CloudletKey)
      requires Valid() && CollectedFrom(cs, key, attached) && c in st.table && c !in cs
      ensures CollectedFrom(cs + {c}, key, if key in st.requests[st.table[c]].appsToCheck then attached + [st.table[c]]
        else attached)
    {
      forall d | d in cs && d in st.table ensures st.table[d] != st.table[c] {
        assert st.requests[st.table[d]].cloudlet == d;
      }
      AppendNew(attached, st.table[c]);
    }

    lemma NothingCollected(key: AppKey)
      requires Valid()
      ensures CollectedFrom({}, key, []) && Denote([], [])
    {
    }

    /** The objects are those of the requests with these ids. */
    ghost predicate Denote(reqs: seq<FailoverReq>, ids: seq<P.ReqId>)
      reads this
    {
      |reqs| == |ids| && forall k :: 0 <= k < |reqs| ==> ids[k] < |objs| && reqs[k] == objs[ids[k]]
    }

    lemma DenoteOneMore(reqs: seq<FailoverReq>, ids: seq<P.ReqId>, c: CloudletKey)
      requires Valid() && Denote(reqs, ids) && c in failoverRequests
      ensures c in st.table && Denote(reqs + [failoverRequests[c]], ids + [st.table[c]])
    {
    }

    lemma AllCollected(key: AppKey, attached: seq<P.ReqId>)
      requires Valid() && CollectedFrom(failoverRequests.Keys, key, attached)
      ensures P.CollectsFor(st, key, attached)
    {
    }

    /** Lines 521-525, for one request of the pass. */
    method ReportShortage(req: FailoverReq, ghost app: AppKey, ghost i: P.ReqId, note: P.Note)
      requires Valid() && P.Enabled(st, P.ReportShortage(app))
      requires i == P.PassOf(st, app).reqs[P.PassOf(st, app).stage.next] && objs[i] == req
      requires note == P.NotEnoughSites(st.jobs[app].stage.pass)
      modifies this, objs
      ensures Valid() && objs == old(objs) && st == P.Apply(old(st), P.ReportShortage(app))
    {
      st := P.Apply(st, P.ReportShortage(app));
      req.AddError(note);
    }

    /** Lines 535-537, for one request: it waits for one more worker. */
    method Charge(req: FailoverReq, ghost app: AppKey, ghost i: P.ReqId)
      requires Valid() && P.Enabled(st, P.Charge(app))
      requires var p := P.PassOf(st, app); i == p.reqs[st.workers[Last(p.workers)].charged] && objs[i] == req
      modifies this, objs
      ensures Valid() && objs == old(objs) && st == P.Apply(old(st), P.Charge(app))
    {
      st := P.Apply(st, P.Charge(app));
      req.AddCall();
    }

    /** Lines 557-571, for one request: the result of a call that was not ignored. */
    method Record(req: FailoverReq, ghost w: P.WorkerId, ghost i: P.ReqId, failed: bool, note: P.Note)
      requires Valid() && P.Enabled(st, P.Record(w))
      requires i == P.WPass(st, w).reqs[st.workers[w].stage.next] && objs[i] == req
      requires var h := P.WPass(st, w).handed[st.workers[w].stage.handout];
        && (failed <==> h.outcome == Some(P.Failed))
        && note == (if failed then P.CreateFailed(st.workers[w].pass, h.site)
          else P.CreateDone(st.workers[w].pass, h.site))
      modifies this, objs
      ensures Valid() && objs == old(objs) && st == P.Apply(old(st), P.Record(w))
    {
      st := P.Apply(st, P.Record(w));
      if failed {
        req.AddError(note);
      } else {
        req.AddCompleted(note);
      }
    }

    /** Lines 578-580, for one request: the worker is done. */
    method Release(req: FailoverReq, ghost w: P.WorkerId, ghost i: P.ReqId)
      requires Valid() && P.Enabled(st, P.Release(w)) && i == P.WPass(st, w).reqs[st.workers[w].released]
        && objs[i] == req
      modifies this, objs
      ensures Valid() && objs == old(objs) && st == P.Apply(old(st), P.Release(w))
    {
      st := P.Apply(st, P.Release(w));
      req.CallDone();
    }

    /** Lines 318-327: once nobody is waited for, the reply. */
    method Reply(req: FailoverReq, i: P.ReqId)
      requires Valid() && i < |objs| && objs[i] == req && st.requests[i].progress.Draining? && req.waitApiCalls == 0
      modifies this
      ensures Valid() && objs == old(objs) && st == P.Apply(old(st), P.SendReply(i))
    {
      st := P.Apply(st, P.SendReply(i));
      if req.errors == [] {
        replies := replies + [P.FromRequest(i, P.FailoverDone)];
      } else {
        replies := replies + [P.FromRequest(i, P.FailoverError)];
      }
    }

    /** Lines 305-313: one request of a finished Check; a finished request leaves the table. */
    method AppDone(req: FailoverReq, ghost i: P.ReqId, key: AppKey) returns (finished: bool)
      requires Valid() && i < |objs| && objs[i] == req
      modifies this, objs
      ensures Valid() && objs == old(objs)
      ensures st == P.AppDoneOn(old(st), i, key)
      ensures finished <==> key in old(st).requests[i].appsToCheck && st.requests[i].appsToCheck == {}
    {
      st := P.AppDoneOn(st, i, key);
      finished := req.AppDone(key);
      if finished {
        failoverRequests := failoverRequests - {req.cloudlet};
      }
    }
  }
}
