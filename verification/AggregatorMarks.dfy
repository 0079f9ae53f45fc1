/**
 What deployIntervalsMet counts over all histories: counts may fall, and the init query may come back at
 any time. It is the streak of the log as the aggregator sees it, which is not always the log.
 */
module AggregatorMarks {
  import opened Aggregator
  import opened AggregatorHistory
  import H = AggregatorHistory
  import opened CreateOrder
  import opened Keys
  import opened Seqs

  /**
   What happened to a cloudlet: it grew enough in an interval, did not, was not reported, or was counted by
   an init query.
   */
  datatype Mark = Grew | Flat | Missed | Requeried

  /** The growth test of the code: on the count last reported, in uint64 arithmetic. */
  predicate Grows(es: seq<Event>, app: AppKey, n: string, c: CloudletKey)
    requires es != [] && Watches(After(Front(es)), app, n, c) && H.Reports(After(Front(es)), Last(es), app, c)
  {
    Sub64(Last(es).stats[app][c], LastCount(Front(es), app, c))
      >= After(Front(es)).allStats[app].policies[n].deployClientCount
  }

  /** What happened to the cloudlet since the tracker was made. */
  function Marks(es: seq<Event>, app: AppKey, n: string, c: CloudletKey): seq<Mark> {
    if es == [] || !Watches(After(es), app, n, c) || !Watches(After(Front(es)), app, n, c) then []
    else
      var before, reported := Marks(Front(es), app, n, c), H.Reports(After(Front(es)), Last(es), app, c);
      if Last(es).Iter? then before + [if !reported then Missed else if Grows(es, app, n, c) then Grew else Flat]
      else if reported then before + [Requeried]
      else before
  }

  /**
   Nothing between the latest report and now is noticed: there was nothing, or the last thing was one
   missed interval right after an init query.
   */
  predicate Unnoticed(ms: seq<Mark>) {
    || ms == [] || Last(ms).Grew? || Last(ms).Flat?
    || (|ms| >= 2 && ms[|ms| - 2].Requeried? && Last(ms).Missed?)
  }

  /**
   The log as the aggregator sees it: one verdict a report, with a bad one before it if something was noticed
   in between.
   */
  function Seen(ms: seq<Mark>): seq<bool> {
    if ms == [] then []
    else
      match Last(ms)
      case Grew => Seen(Front(ms)) + (if Unnoticed(Front(ms)) then [] else [false]) + [true]
      case Flat => Seen(Front(ms)) + [false]
      case Missed => Seen(Front(ms))
      case Requeried => Seen(Front(ms))
  }

  /** How far the cloudlet's interval number is behind. */
  function Lag(ms: seq<Mark>): int {
    if ms == [] then 0
    else
      match Last(ms)
      case Grew => 0
      case Flat => 0
      case Missed => Lag(Front(ms)) + 1
      case Requeried => -1
  }

  lemma {:induction false} LagReads(ms: seq<Mark>)
    ensures Lag(ms) >= -1 && (Lag(ms) == -1 <==> ms != [] && Last(ms).Requeried?)
    ensures Lag(ms) == 0 <==> Unnoticed(ms)
    decreases |ms|
  {
    if ms != [] { LagReads(Front(ms)); }
  }

  lemma StreakSteps(log: seq<bool>)
    ensures Streak(log + [true]) == Streak(log) + 1 && Streak(log + [false]) == 0
  {
    assert (log + [true])[..|log|] == log;
  }

  /**
   The counter is the streak of what was seen; while it is not zero, the cloudlet's interval number lags as
   the marks say.
   */
  ghost predicate Counts(es: seq<Event>, app: AppKey, n: string, c: CloudletKey)
    requires Watches(After(es), app, n, c)
  {
    var s, ms := After(es), Marks(es, app, n, c);
    && Met(s, app, n, c) == Streak(Seen(ms))
    && (Met(s, app, n, c) > 0 ==>
         c in s.allStats[app].cloudlets && s.allStats[app].cloudlets[c].intervalNum + Lag(ms) == s.intervalNum)
  }

  /** The count kept is the one last reported. */
  lemma {:induction false} CountKept(es: seq<Event>, app: AppKey, c: CloudletKey)
    ensures var s := After(es);
      LastCount(es, app, c) ==
        if app in s.allStats && c in s.allStats[app].cloudlets then s.allStats[app].cloudlets[c].count else 0
    decreases |es|
  {
    if es != [] {
      CountKept(Front(es), app, c);
      CountKeptStep(After(Front(es)), Last(es), app, c);
    }
  }

  lemma CountKeptStep(s: AggrState, e: Event, app: AppKey, c: CloudletKey)
    ensures var t := Next(s, e);
      app in t.allStats ==>
        if H.Reports(s, e, app, c) then
          c in t.allStats[app].cloudlets && t.allStats[app].cloudlets[c].count == e.stats[app][c]
        else if app in s.allStats then
          && (c in t.allStats[app].cloudlets <==> c in s.allStats[app].cloudlets)
          && (c in s.allStats[app].cloudlets ==> t.allStats[app].cloudlets[c] == s.allStats[app].cloudlets[c])
        else c !in t.allStats[app].cloudlets
  {
    match e
    case Init(_, _) =>
    case Iter(_, _) =>
    case UpdateApp(_, _, _, _) =>
    case DeleteApp(_) =>
    case UpdatePolicy(_, _, _) =>
  }

  /** What a reported interval does to the counter. */
  lemma ReportStep(s: AggrState, e: Event, app: AppKey, n: string, c: CloudletKey, last: nat)
    requires e.Iter? && Watches(s, app, n, c) && H.Reports(s, e, app, c)
    requires last == if c in s.allStats[app].cloudlets then s.allStats[app].cloudlets[c].count else 0
    ensures var t := Next(s, e);
      var continues := c in s.allStats[app].cloudlets ==> s.allStats[app].cloudlets[c].intervalNum == s.intervalNum;
      && Watches(t, app, n, c)
      && Met(t, app, n, c) ==
           (if Sub64(e.stats[app][c], last) >= s.allStats[app].policies[n].deployClientCount
            then (if continues then Met(s, app, n, c) else 0) + 1
            else 0)
      && c in t.allStats[app].cloudlets && t.allStats[app].cloudlets[c].intervalNum == t.intervalNum
  {
  }

  /** What an interval without a report, or an init query, does. */
  lemma OtherQueryStep(s: AggrState, e: Event, app: AppKey, n: string, c: CloudletKey)
    requires (e.Iter? && !H.Reports(s, e, app, c)) || e.Init?
    requires Watches(Next(s, e), app, n, c)
    ensures var t := Next(s, e);
      && Watches(s, app, n, c) && Met(t, app, n, c) == Met(s, app, n, c)
      && t.intervalNum == s.intervalNum + (if e.Iter? then 1 else 0)
      && (if H.Reports(s, e, app, c) then
            c in t.allStats[app].cloudlets && t.allStats[app].cloudlets[c].intervalNum == s.intervalNum + 1
          else c in s.allStats[app].cloudlets ==>
            c in t.allStats[app].cloudlets && t.allStats[app].cloudlets[c] == s.allStats[app].cloudlets[c])
  {
  }

  lemma GrewSteps(ms: seq<Mark>)
    requires ms != [] && Last(ms).Grew?
    ensures Streak(Seen(ms)) == (if Unnoticed(Front(ms)) then Streak(Seen(Front(ms))) else 0) + 1
  {
    hide Unnoticed, Streak;
    var seen := Seen(Front(ms));
    StreakSteps(seen);
    StreakSteps(seen + [false]);
    assert seen + [] == seen;
  }

  /** What one more mark does to the streak seen and to the lag. */
  lemma OneMoreMark(before: seq<Mark>, m: Mark)
    ensures m.Grew? ==>
      Streak(Seen(before + [m])) == (if Unnoticed(before) then Streak(Seen(before)) else 0) + 1
        && Lag(before + [m]) == 0
    ensures m.Flat? ==> Streak(Seen(before + [m])) == 0 && Lag(before + [m]) == 0
    ensures m.Missed? ==> Seen(before + [m]) == Seen(before) && Lag(before + [m]) == Lag(before) + 1
    ensures m.Requeried? ==> Seen(before + [m]) == Seen(before) && Lag(before + [m]) == -1
  {
    hide Unnoticed, Streak;
    assert Front(before + [m]) == before;
    StreakSteps(Seen(before));
    if m.Grew? { GrewSteps(before + [m]); }
  }

  /** The mark an interval makes. */
  function IterMark(es: seq<Event>, app: AppKey, n: string, c: CloudletKey): Mark
    requires es != [] && Watches(After(Front(es)), app, n, c)
  {
    if !H.Reports(After(Front(es)), Last(es), app, c) then Missed else if Grows(es, app, n, c) then Grew else Flat
  }

  lemma ReportCounts(es: seq<Event>, app: AppKey, n: string, c: CloudletKey)
    requires es != [] && Last(es).Iter? && H.Reports(After(Front(es)), Last(es), app, c)
    requires Watches(After(Front(es)), app, n, c) && Watches(After(es), app, n, c) && Counts(Front(es), app, n, c)
    requires Marks(es, app, n, c) == Marks(Front(es), app, n, c) + [IterMark(es, app, n, c)]
    requires After(es) == Next(After(Front(es)), Last(es))
    ensures Counts(es, app, n, c)
  {
    hide Next, After, Marks, Seen, Lag, Unnoticed, Streak, Sub64, LastCount;
    var before := Marks(Front(es), app, n, c);
    OneMoreMark(before, IterMark(es, app, n, c));
    LagReads(before);
    CountKept(Front(es), app, c);
    ReportStep(After(Front(es)), Last(es), app, n, c, LastCount(Front(es), app, c));
  }

  lemma MissCounts(es: seq<Event>, app: AppKey, n: string, c: CloudletKey)
    requires es != [] && Last(es).Iter? && !H.Reports(After(Front(es)), Last(es), app, c)
    requires Watches(After(Front(es)), app, n, c) && Watches(After(es), app, n, c) && Counts(Front(es), app, n, c)
    requires Marks(es, app, n, c) == Marks(Front(es), app, n, c) + [Missed]
    requires After(es) == Next(After(Front(es)), Last(es))
    ensures Counts(es, app, n, c)
  {
    hide Next, After, Marks, Seen, Lag, Streak;
    OneMoreMark(Marks(Front(es), app, n, c), Missed);
    OtherQueryStep(After(Front(es)), Last(es), app, n, c);
  }

  lemma IterCounts(es: seq<Event>, app: AppKey, n: string, c: CloudletKey)
    requires es != [] && Last(es).Iter? && Watches(After(es), app, n, c)
    requires Watches(After(Front(es)), app, n, c) && Counts(Front(es), app, n, c)
    ensures Counts(es, app, n, c)
  {
    hide Counts, Next, Grows, LastCount;
    assert After(es) == Next(After(Front(es)), Last(es));
    assert Marks(es, app, n, c) == Marks(Front(es), app, n, c) + [IterMark(es, app, n, c)];
    hide After, Marks;
    if H.Reports(After(Front(es)), Last(es), app, c) {
      ReportCounts(es, app, n, c);
    } else {
      MissCounts(es, app, n, c);
    }
  }

  lemma OtherCounts(es: seq<Event>, app: AppKey, n: string, c: CloudletKey)
    requires es != [] && !Last(es).Iter? && Watches(After(es), app, n, c)
    requires Watches(After(Front(es)), app, n, c) ==> Counts(Front(es), app, n, c)
    ensures Counts(es, app, n, c)
  {
    hide Next;
    if Last(es).Init? {
      OtherQueryStep(After(Front(es)), Last(es), app, n, c);
      assert H.Reports(After(Front(es)), Last(es), app, c) ==>
        Front(Marks(es, app, n, c)) == Marks(Front(es), app, n, c);
    } else {
      QuietStep(es, app, n, c);
    }
  }

  /**
   Over every history, with re-runs of the init query, falling counts and policy updates, deployIntervalsMet
   is the streak of the log as seen: an init query counts as a bad interval, unless exactly one interval was
   missed after it, and then neither is noticed.
   */
  lemma {:induction false} CountedExactly(es: seq<Event>, app: AppKey, n: string, c: CloudletKey)
    requires Watches(After(es), app, n, c)
    ensures Met(After(es), app, n, c) == Streak(Seen(Marks(es, app, n, c)))
    ensures Counts(es, app, n, c)
    decreases |es|
  {
    hide Next, Counts, Marks;
    if es != [] {
      if Watches(After(Front(es)), app, n, c) {
        CountedExactly(Front(es), app, n, c);
      }
      if Last(es).Iter? {
        IterWatched(es, app, n, c);
        IterCounts(es, app, n, c);
      } else {
        OtherCounts(es, app, n, c);
      }
    }
    CountsMeans(es, app, n, c);
  }

  lemma IterWatched(es: seq<Event>, app: AppKey, n: string, c: CloudletKey)
    requires es != [] && Last(es).Iter? && Watches(After(es), app, n, c)
    ensures Watches(After(Front(es)), app, n, c)
  {
  }

  lemma CountsMeans(es: seq<Event>, app: AppKey, n: string, c: CloudletKey)
    requires Watches(After(es), app, n, c) && Counts(es, app, n, c)
    ensures Met(After(es), app, n, c) == Streak(Seen(Marks(es, app, n, c)))
  {
  }

  /**
   Over every history, an iteration deploys to a reporting cloudlet exactly if some policy's streak as seen
   is long enough.
   */
  lemma DeployAlways(es: seq<Event>, app: AppKey, c: CloudletKey)
    requires es != [] && Last(es).Iter? && H.Reports(After(Front(es)), Last(es), app, c)
    ensures Wanted(After(es).allStats[app], c) <==>
      exists n :: Watches(After(es), app, n, c)
                  && Streak(Seen(Marks(es, app, n, c))) >= After(es).allStats[app].policies[n].deployIntervalCount
  {
    var a := After(es).allStats[app];
    hide Next, Marks, Seen, Streak;
    forall n | Watches(After(es), app, n, c)
      ensures Meets(a.policies[n], c) <==> Streak(Seen(Marks(es, app, n, c))) >= a.policies[n].deployIntervalCount
    {
      CountedExactly(es, app, n, c);
    }
    if Wanted(a, c) {
      var n :| n in a.policies && Meets(a.policies[n], c);
      assert Watches(After(es), app, n, c);
    }
  }

  // ---------------------------------------------------------------------------------------------
  // Against the log
  // ---------------------------------------------------------------------------------------------

  /** The log: one verdict an interval. */
  function Verdicts(ms: seq<Mark>): seq<bool> {
    if ms == [] then []
    else Verdicts(Front(ms)) + (if Last(ms).Requeried? then [] else [Last(ms).Grew?])
  }

  lemma GoodVerdict(ms: seq<Mark>)
    requires ms != [] && Last(ms).Grew?
    ensures Streak(Verdicts(ms)) == Streak(Verdicts(Front(ms))) + 1
  {
    hide Streak;
    StreakSteps(Verdicts(Front(ms)));
  }

  lemma OtherSteps(ms: seq<Mark>)
    requires ms != []
    ensures Last(ms).Flat? ==> Streak(Seen(ms)) == 0
    ensures Last(ms).Flat? || Last(ms).Missed? ==> Streak(Verdicts(ms)) == 0
  {
    hide Unnoticed, Streak;
    StreakSteps(Seen(Front(ms)));
    StreakSteps(Verdicts(Front(ms)));
  }

  /** Without re-runs of the init query the aggregator sees the log: after each report the two streaks agree. */
  lemma {:induction false} SeenWithoutRequery(ms: seq<Mark>)
    requires forall i :: 0 <= i < |ms| ==> ms[i] != Requeried
    ensures ms != [] && !Last(ms).Missed? ==> Streak(Seen(ms)) == Streak(Verdicts(ms))
    decreases |ms|
  {
    if ms != [] {
      OtherSteps(ms);
      if Last(ms).Grew? {
        var before := Front(ms);
        SeenWithoutRequery(before);
        GrewSteps(ms);
        GoodVerdict(ms);
        if before != [] { OtherSteps(before); }
      }
    }
  }

  /**
   A count that falls from one to nothing wraps and passes for growth: the counter goes on to 2, the log's
   streak ends.
   */
  lemma FallingHappens(app: AppKey, n: string, c: CloudletKey)
    ensures var es := BeforeReinit(app, n, c) + [Iter(Report(app, c, 0), {app})];
      Watches(After(es), app, n, c) && Met(After(es), app, n, c) == 2 && Streak(Log(es, app, n, c)) == 0
  {
    var before, e := BeforeReinit(app, n, c), Iter(Report(app, c, 0), {app});
    var es := before + [e];
    BeforeReinitStreak(app, n, c);
    assert Streak([true]) == 1 by { assert [true][..0] == []; }
    OneMore(before, e);
    CountersAgree(before);
    assert CounterAgrees(After(before), Log(before, app, n, c), app, n, c);
    LastOfBefore(app, n, c);
    CountKept(before, app, c);
    hide After, Next, BeforeReinit, Streak, Agrees, Sane;
    ReportStep(After(before), e, app, n, c, 1);
    assert !Good(es, app, n, c);
    assert Log(es, app, n, c) == Log(before, app, n, c) + [false];
    StreakSteps(Log(before, app, n, c));
  }

  lemma LastOfBefore(app: AppKey, n: string, c: CloudletKey)
    ensures LastCount(BeforeReinit(app, n, c), app, c) == 1
  {
    BeforeReinitStreak(app, n, c);
    FirstPolicy(app, n, c);
    var es := BeforeReinit(app, n, c);
    assert Front(es) == es[..1];
    assert H.Reports(After(Front(es)), Last(es), app, c);
  }
}
