/** What a cloudlet is told while a failover request for it waits. */
module FailoverReplies {
  import opened Keys
  import opened Seqs
  import opened FailoverProtocol
  import opened FailoverInvariant
  import opened FailoverTheorems

  /** An UpdatedCloudlet event that answers DONE on the spot: a failover request that brings no Apps. */
  predicate AnswersAtOnce(e: Event, c: CloudletKey) {
    e.CloudletUpdated? && e.cloudlet == c && e.requested && (!e.onlineChanged || e.apps == {})
  }

  /** The event sends a DONE for the cloudlet. */
  ghost predicate SendsDone(s: State, e: Event, c: CloudletKey)
    requires Enabled(s, e)
  {
    || Apply(s, e).replies == s.replies + [Immediate(c)]
    || exists i ::
      0 <= i < |s.requests| && s.requests[i].cloudlet == c
      && Apply(s, e).replies == s.replies + [FromRequest(i, FailoverDone)]
  }

  lemma OneMoreReply(before: seq<Reply>, a: Reply, b: Reply)
    ensures before + [a] == before + [b] <==> a == b
    ensures before + [a] != before
  {
    assert (before + [a])[|before|] == a && (before + [b])[|before|] == b;
  }

  /**
   A reply goes out on the spot exactly for a failover request that brings no Apps: no online change, or no
   App affected.
   */
  lemma ImmediateReplyExactly(s: State, e: Event, c: CloudletKey)
    requires Inv(s) && Enabled(s, e)
    ensures Apply(s, e).replies == s.replies + [Immediate(c)] <==> AnswersAtOnce(e, c)
  {
    hide Inv;
    OneMoreReply(s.replies, Immediate(c), Immediate(c));
    if e.CloudletUpdated? { OneMoreReply(s.replies, Immediate(e.cloudlet), Immediate(c)); }
    if e.SendReply? { OneMoreReply(s.replies, Last(Apply(s, e).replies), Immediate(c)); }
  }

  lemma RequestReplyExactly(s: State, e: Event, i: ReqId)
    requires Inv(s) && Enabled(s, e)
    ensures Apply(s, e).replies == s.replies + [FromRequest(i, FailoverDone)] <==>
      e.SendReply? && e.req == i && s.requests[i].errors == []
  {
    hide Inv;
    OneMoreReply(s.replies, FromRequest(i, FailoverDone), FromRequest(i, FailoverDone));
    if e.CloudletUpdated? { OneMoreReply(s.replies, Immediate(e.cloudlet), FromRequest(i, FailoverDone)); }
    if e.SendReply? { OneMoreReply(s.replies, Last(Apply(s, e).replies), FromRequest(i, FailoverDone)); }
  }

  lemma RepliesKeepTable(s: State, e: Event, c: CloudletKey)
    requires Enabled(s, e) && (AnswersAtOnce(e, c) || e.SendReply?)
    ensures Apply(s, e).table == s.table
  {
  }

  lemma RequestRepliesExactly(s: State, e: Event, c: CloudletKey)
    requires Inv(s) && Enabled(s, e)
    ensures (exists i ::
        0 <= i < |s.requests| && s.requests[i].cloudlet == c
        && Apply(s, e).replies == s.replies + [FromRequest(i, FailoverDone)])
      <==> e.SendReply? && s.requests[e.req].cloudlet == c && s.requests[e.req].errors == []
  {
    var replies := Apply(s, e).replies;
    forall i | 0 <= i < |s.requests|
      ensures replies == s.replies + [FromRequest(i, FailoverDone)] <==>
        e.SendReply? && e.req == i && s.requests[i].errors == []
    {
      RequestReplyExactly(s, e, i);
    }
    hide Apply, Inv;
  }

  lemma SendsDoneExactly(s: State, e: Event, c: CloudletKey)
    requires Inv(s) && Enabled(s, e)
    ensures SendsDone(s, e, c) <==>
      AnswersAtOnce(e, c) || (e.SendReply? && s.requests[e.req].cloudlet == c && s.requests[e.req].errors == [])
  {
    ImmediateReplyExactly(s, e, c);
    RequestRepliesExactly(s, e, c);
    hide Apply, Inv;
  }

  /**
   The claim that a queued cloudlet is never told DONE before its request is answered is false. Over all
   events, a DONE for a cloudlet goes out while a request for it is in the table exactly in two cases:
   an update for it is answered on the spot, or an earlier request for it, already out of the table and
   without errors, is answered late.
   */
  lemma DoneWhileQueuedExactly(s: State, e: Event, c: CloudletKey)
    requires Inv(s) && Enabled(s, e)
    ensures SendsDone(s, e, c) && c in Apply(s, e).table <==>
      c in s.table
      && (AnswersAtOnce(e, c) || (e.SendReply? && s.requests[e.req].cloudlet == c && s.requests[e.req].errors == []))
  {
    hide Inv, SendsDone, Apply;
    SendsDoneExactly(s, e, c);
    if AnswersAtOnce(e, c) || e.SendReply? { RepliesKeepTable(s, e, c); }
  }

  /** The first case: an update without online change, with the request waiting. */
  lemma DoneWhileQueued(c: CloudletKey, a: AppKey)
    ensures var es := [CloudletUpdated(c, true, true, {a}), CloudletUpdated(c, false, true, {})];
      exists ss: seq<State> :: IsRun(es, ss) && c in ss[2].table && ss[2].replies == [Immediate(c)]
  {
    var es := [CloudletUpdated(c, true, true, {a}), CloudletUpdated(c, false, true, {})];
    var s1 := Apply(INIT, es[0]);
    var s2 := Apply(s1, es[1]);
    var ss := [INIT, s1, s2];
    assert IsRun(es, ss);
    assert c in s2.table && s2.replies == [Immediate(c)];
  }

  /** A first request of one App is checked and drains; a second one arrives before the reply to the first. */
  function LateRun(c: CloudletKey, a: AppKey): seq<Event> {
    [CloudletUpdated(c, true, true, {a}), StartCheck(a, [0]), FinishCheck(a), AppDone(a),
      CloudletUpdated(c, true, true, {a}), SendReply(0)]
  }

  function LateStates(c: CloudletKey, a: AppKey): seq<State> {
    var waiting, checked := Request(c, {a}, [], [], 0, Queued, {a}, {}), Request(c, {a}, [], [], 0, Queued, {a}, {a});
    var drained := Request(c, {}, [], [], 0, Draining, {a}, {a});
    var done := map[a := Job([0], Finishing(1))];
    [INIT,
     State(map[c := 0], [waiting], {a}, map[], [], [], []),
     State(map[c := 0], [waiting], {}, map[a := Job([0], Checking)], [], [], []),
     State(map[c := 0], [checked], {}, map[a := Job([0], Finishing(0))], [], [], []),
     State(map[], [drained], {}, done, [], [], []),
     State(map[c := 1], [drained, waiting], {a}, done, [], [], []),
     State(map[c := 1], [drained.(progress := Replied(FailoverDone)), waiting], {a}, done, [], [],
       [FromRequest(0, FailoverDone)])]
  }

  lemma LateStepFirst(c: CloudletKey, a: AppKey, k: nat)
    requires k < 3
    ensures var s, t, e := LateStates(c, a)[k], LateStates(c, a)[k + 1], LateRun(c, a)[k];
      Enabled(s, e) && Apply(s, e) == t
  {
    var s, e := LateStates(c, a)[k], LateRun(c, a)[k];
    assert {a} - {a} == {} && {} + {a} == {a};
    if k == 1 {
      assert s.table[c] == 0 && 0 in s.table.Values;
      assert CollectsFor(s, a, [0]);
    } else if k == 2 {
      assert Apply(s, e).requests == LateStates(c, a)[3].requests;
    }
  }

  lemma LateStepSecond(c: CloudletKey, a: AppKey, k: nat)
    requires 3 <= k < 6
    ensures var s, t, e := LateStates(c, a)[k], LateStates(c, a)[k + 1], LateRun(c, a)[k];
      Enabled(s, e) && Apply(s, e) == t
  {
    assert {a} - {a} == {} && {} + {a} == {a};
    assert map[c := 0] - {c} == map[];
  }

  /** The second case: DONE is sent for the first request while the second one is queued and unchecked. */
  lemma LateDone(c: CloudletKey, a: AppKey)
    ensures IsRun(LateRun(c, a), LateStates(c, a))
    ensures var s := LateStates(c, a)[6];
      && s.replies == [FromRequest(0, FailoverDone)] && s.requests[0].cloudlet == c
      && c in s.table && s.table[c] == 1 && s.requests[1].appsToCheck == {a} && s.requests[1].checked == {}
  {
    forall k | 0 <= k < 6
      ensures Enabled(LateStates(c, a)[k], LateRun(c, a)[k])
        && LateStates(c, a)[k + 1] == Apply(LateStates(c, a)[k], LateRun(c, a)[k])
    {
      if k < 3 { LateStepFirst(c, a, k); } else { LateStepSecond(c, a, k); }
    }
  }
}
