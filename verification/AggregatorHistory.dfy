/**
 What the aggregator's streak counters mean over whole runs: deployIntervalsMet is the number of
 latest consecutive good intervals since the tracker was made.
 */
module AggregatorHistory {
  import opened Keys
  import opened CreateOrder
  import opened Aggregator
  import opened Seqs

  datatype Event =
    | Init(stats: AllReports, inCache: set<AppKey>)
    | Iter(stats: AllReports, inCache: set<AppKey>)
    | UpdateApp(app: AppKey, found: bool, names: set<string>, cache: map<string, Policy>)
    | DeleteApp(app: AppKey)
    | UpdatePolicy(organization: string, name: string, policy: Policy)

  function Next(s: AggrState, e: Event): AggrState {
    match e
    case Init(stats, inCache) => AfterInit(s, stats, inCache)
    case Iter(stats, inCache) => AfterIter(s, stats, inCache)
    case UpdateApp(app, found, names, cache) => AfterUpdateApp(s, app, found, names, cache)
    case DeleteApp(app) => s.(allStats := s.allStats - {app})
    case UpdatePolicy(org, name, p) => AfterUpdatePolicy(s, org, name, p)
  }

  /** The aggregator after a history of events. */
  function After(es: seq<Event>): AggrState {
    if es == [] then FRESH else Next(After(Front(es)), Last(es))
  }

  // ---------------------------------------------------------------------------------------------
  // The history, read without the counters
  // ---------------------------------------------------------------------------------------------

  /** A policy of the App has a tracker for the cloudlet. */
  predicate Watches(s: AggrState, app: AppKey, n: string, c: CloudletKey) {
    app in s.allStats && n in s.allStats[app].policies && c in s.allStats[app].policies[n].intervalsMet
  }

  function Met(s: AggrState, app: AppKey, n: string, c: CloudletKey): nat
    requires Watches(s, app, n, c)
  {
    s.allStats[app].policies[n].intervalsMet[c]
  }

  /** The query of this event returned a count for the App on the cloudlet, and the App is known. */
  predicate Reports(s: AggrState, e: Event, app: AppKey, c: CloudletKey) {
    (e.Init? || e.Iter?) && Processed(s, e.stats, e.inCache, app) && c in e.stats[app]
  }

  /** The count last reported since the App has been known without a break; 0 if there was none. */
  function LastCount(es: seq<Event>, app: AppKey, c: CloudletKey): nat {
    if es == [] then 0
    else if app !in After(es).allStats then 0
    else if Reports(After(Front(es)), Last(es), app, c) then Last(es).stats[app][c]
    else LastCount(Front(es), app, c)
  }

  /**
   The interval ended by the last event was good: it reported the cloudlet, with growth at the threshold then
   in force.
   */
  predicate Good(es: seq<Event>, app: AppKey, n: string, c: CloudletKey)
    requires es != [] && Watches(After(Front(es)), app, n, c)
  {
    var s := After(Front(es));
    && Reports(s, Last(es), app, c)
    && Last(es).stats[app][c] >= LastCount(Front(es), app, c) + s.allStats[app].policies[n].deployClientCount
  }

  /** For each interval since the tracker was made, whether it was good. */
  function Log(es: seq<Event>, app: AppKey, n: string, c: CloudletKey): seq<bool> {
    if es == [] || !Watches(After(es), app, n, c) || !Watches(After(Front(es)), app, n, c) then []
    else if Last(es).Iter? then Log(Front(es), app, n, c) + [Good(es, app, n, c)]
    else Log(Front(es), app, n, c)
  }

  /** The length of the longest all-true suffix. */
  function Streak(log: seq<bool>): (k: nat)
    ensures k <= |log|
    ensures forall i :: |log| - k <= i < |log| ==> log[i]
    ensures k < |log| ==> !log[|log| - 1 - k]
  {
    if log == [] || !log[|log| - 1] then 0 else Streak(log[..|log| - 1]) + 1
  }

  // ---------------------------------------------------------------------------------------------
  // Which histories
  // ---------------------------------------------------------------------------------------------

  /** Counts are uint64 and never fall; the init query runs before the first iteration. */
  ghost predicate Sane(es: seq<Event>) {
    es == [] ||
    (&& Sane(Front(es))
     && (Last(es).Init? ==> After(Front(es)).intervalNum == 0)
     && (forall app, c :: Reports(After(Front(es)), Last(es), app, c) ==>
          LastCount(Front(es), app, c) <= Last(es).stats[app][c] < UINT64_SIZE))
  }

  // ---------------------------------------------------------------------------------------------
  // The counters agree with the history
  // ---------------------------------------------------------------------------------------------

  /** The counts kept for one App and cloudlet. */
  predicate CountsAgree(s: AggrState, known: nat, app: AppKey, c: CloudletKey) {
    if app in s.allStats && c in s.allStats[app].cloudlets then
      var cs := s.allStats[app].cloudlets[c];
      && cs.count == known
      && cs.intervalNum <= s.intervalNum + 1 && (cs.intervalNum == s.intervalNum + 1 ==> s.intervalNum == 0)
      && (s.intervalNum == 0 ==> cs.intervalNum == 1 && cs.lastCount == 0)
    else known == 0
  }

  /** One counter against the streak of its log: exact if the last interval reported, otherwise about to be reset. */
  predicate CounterAgrees(s: AggrState, log: seq<bool>, app: AppKey, n: string, c: CloudletKey)
    requires Watches(s, app, n, c)
  {
    var cloudlets := s.allStats[app].cloudlets;
    && (s.intervalNum == 0 ==> log == [] && Met(s, app, n, c) == 0)
    && (c !in cloudlets ==> Met(s, app, n, c) == 0 && Streak(log) == 0)
    && (c in cloudlets && cloudlets[c].intervalNum == s.intervalNum ==> Met(s, app, n, c) == Streak(log))
    && (c in cloudlets && cloudlets[c].intervalNum != s.intervalNum ==> Streak(log) == 0)
  }

  ghost predicate Agrees(es: seq<Event>) {
    var s := After(es);
    && (forall app, c :: CountsAgree(s, LastCount(es, app, c), app, c))
    && (forall app, n, c :: Watches(s, app, n, c) ==> CounterAgrees(s, Log(es, app, n, c), app, n, c))
  }

  lemma CountsStep(es: seq<Event>, app: AppKey, c: CloudletKey)
    requires es != [] && Sane(es) && CountsAgree(After(Front(es)), LastCount(Front(es), app, c), app, c)
    ensures CountsAgree(After(es), LastCount(es, app, c), app, c)
  {
  }

  /** An iteration appends its verdict to the log, and the counter follows. */
  lemma IterStep(es: seq<Event>, app: AppKey, n: string, c: CloudletKey)
    requires es != [] && Sane(es) && Last(es).Iter? && Watches(After(es), app, n, c)
    requires CountsAgree(After(Front(es)), LastCount(Front(es), app, c), app, c)
    requires Watches(After(Front(es)), app, n, c)
    requires CounterAgrees(After(Front(es)), Log(Front(es), app, n, c), app, n, c)
    ensures CounterAgrees(After(es), Log(es, app, n, c), app, n, c)
  {
    var s, t, e := After(Front(es)), After(es), Last(es);
    var log := Log(Front(es), app, n, c);
    var log' := Log(es, app, n, c);
    assert log' == log + [Good(es, app, n, c)];
    assert log'[..|log'| - 1] == log;
    if Reports(s, e, app, c) {
      var known := Known(s.allStats[app].cloudlets, c, t.intervalNum);
      assert known.count == LastCount(Front(es), app, c);
      assert Met(t, app, n, c) ==
        NextMet(known, Met(s, app, n, c), s.allStats[app].policies[n].deployClientCount, e.stats[app][c],
          t.intervalNum);
    } else {
      assert Met(t, app, n, c) == Met(s, app, n, c);
    }
  }

  /** Any other event leaves a tracker it keeps alone, and starts a tracker it makes at zero. */
  lemma QuietStep(es: seq<Event>, app: AppKey, n: string, c: CloudletKey)
    requires es != [] && !Last(es).Iter? && !Last(es).Init? && Watches(After(es), app, n, c)
    ensures var s, t := After(Front(es)), After(es);
      && t.intervalNum == s.intervalNum
      && Met(t, app, n, c) == (if Watches(s, app, n, c) then Met(s, app, n, c) else 0)
      && (Watches(s, app, n, c) ==> t.allStats[app].cloudlets == s.allStats[app].cloudlets)
  {
    match Last(es)
    case UpdateApp(_, _, _, _) =>
    case DeleteApp(_) =>
    case UpdatePolicy(_, _, _) =>
  }

  lemma InitStep(es: seq<Event>, app: AppKey, n: string, c: CloudletKey)
    requires es != [] && Last(es).Init? && Watches(After(es), app, n, c)
    ensures var s, t := After(Front(es)), After(es);
      && t.intervalNum == s.intervalNum && Watches(s, app, n, c) && Met(t, app, n, c) == Met(s, app, n, c)
  {
  }

  lemma CounterStep(es: seq<Event>, app: AppKey, n: string, c: CloudletKey)
    requires es != [] && Sane(es) && Watches(After(es), app, n, c)
    requires CountsAgree(After(Front(es)), LastCount(Front(es), app, c), app, c)
    requires Watches(After(Front(es)), app, n, c) ==>
      CounterAgrees(After(Front(es)), Log(Front(es), app, n, c), app, n, c)
    ensures CounterAgrees(After(es), Log(es, app, n, c), app, n, c)
  {
    if Last(es).Iter? {
      assert Watches(After(Front(es)), app, n, c);
      IterStep(es, app, n, c);
    } else if Last(es).Init? {
      InitStep(es, app, n, c);
    } else {
      QuietStep(es, app, n, c);
    }
  }

  lemma {:induction false} CountersAgree(es: seq<Event>)
    requires Sane(es)
    ensures Agrees(es)
    decreases |es|
  {
    if es != [] {
      CountersAgree(Front(es));
      forall app, c ensures CountsAgree(After(es), LastCount(es, app, c), app, c) {
        CountsStep(es, app, c);
      }
      forall app, n, c | Watches(After(es), app, n, c) ensures CounterAgrees(After(es), Log(es, app, n, c), app, n, c) {
        CounterStep(es, app, n, c);
      }
    }
  }

  /**
   In every sane history, after an iteration that reported the cloudlet, deployIntervalsMet is the
   number of latest consecutive good intervals since the tracker was made.
   */
  lemma StreakExact(es: seq<Event>, app: AppKey, n: string, c: CloudletKey)
    requires Sane(es) && es != [] && Last(es).Iter? && Watches(After(es), app, n, c)
    requires Reports(After(Front(es)), Last(es), app, c)
    ensures Met(After(es), app, n, c) == Streak(Log(es, app, n, c))
  {
    CountersAgree(es);
    assert CounterAgrees(After(es), Log(es, app, n, c), app, n, c);
  }

  /**
   In every sane history, an iteration deploys the App to a cloudlet exactly when the cloudlet
   reported and some policy has had as many consecutive good intervals as it asks for.
   */
  lemma DeployExact(es: seq<Event>, app: AppKey, c: CloudletKey)
    requires Sane(es) && es != [] && Last(es).Iter? && Reports(After(Front(es)), Last(es), app, c)
    ensures Wanted(After(es).allStats[app], c) <==>
      exists n :: Watches(After(es), app, n, c)
                  && Streak(Log(es, app, n, c)) >= After(es).allStats[app].policies[n].deployIntervalCount
  {
    var a := After(es).allStats[app];
    forall n | Watches(After(es), app, n, c)
      ensures Meets(a.policies[n], c) <==> Streak(Log(es, app, n, c)) >= a.policies[n].deployIntervalCount
    {
      StreakExact(es, app, n, c);
    }
    if Wanted(a, c) {
      var n :| n in a.policies && Meets(a.policies[n], c);
      assert Watches(After(es), app, n, c);
    }
  }

  // ---------------------------------------------------------------------------------------------
  // The demand that sorts create sites
  // ---------------------------------------------------------------------------------------------

  /** What the create-order comparator reads of the aggregator. */
  function DemandOf(s: AggrState, app: AppKey): Demand {
    if app in s.allStats then Demand(true, s.allStats[app].cloudlets, s.intervalNum)
      else Demand(false, map[], s.intervalNum)
  }

  /**
   In every sane history, right after an iteration the demand of a cloudlet is what it gained in that
   iteration, or nothing if it did not report. There is one exception: right after the very first
   iteration, a cloudlet that only the init query knew counts with all its clients.
   */
  lemma DemandExactly(es: seq<Event>, app: AppKey, c: CloudletKey)
    requires Sane(es) && es != [] && Last(es).Iter? && app in After(es).allStats
    ensures Increase(DemandOf(After(es), app), c) ==
      if Reports(After(Front(es)), Last(es), app, c) then Last(es).stats[app][c] - LastCount(Front(es), app, c)
      else if After(es).intervalNum == 1 then LastCount(es, app, c)
      else 0
  {
    CountersAgree(Front(es));
    CountBound(Front(es), app, c);
    var s := After(Front(es));
    assert CountsAgree(s, LastCount(Front(es), app, c), app, c);
    hide Agrees, CounterAgrees, Log, Streak, Watches;
    DemandStep(s, Last(es), app, c, LastCount(Front(es), app, c));
  }

  lemma {:induction false} CountBound(es: seq<Event>, app: AppKey, c: CloudletKey)
    requires Sane(es)
    ensures LastCount(es, app, c) < UINT64_SIZE
    decreases |es|
  {
    if es != [] { CountBound(Front(es), app, c); }
  }

  lemma DemandStep(s: AggrState, e: Event, app: AppKey, c: CloudletKey, known: nat)
    requires e.Iter? && app in s.allStats && CountsAgree(s, known, app, c)
    requires Reports(s, e, app, c) ==> known <= e.stats[app][c] < UINT64_SIZE
    requires known < UINT64_SIZE
    ensures Increase(DemandOf(Next(s, e), app), c) ==
      if Reports(s, e, app, c) then e.stats[app][c] - known
      else if s.intervalNum == 0 then known
      else 0
  {
  }

  // ---------------------------------------------------------------------------------------------
  // Where the claim stops
  // ---------------------------------------------------------------------------------------------

  /**
   When a count falls, the uint64 difference wraps. The code's test agrees with "grew by at least
   the threshold" exactly if the count did not fall, or fell by more than 2^64 - threshold.
   */
  lemma FallingCounts(before: nat, after: nat, threshold: nat)
    requires before < UINT64_SIZE && after < UINT64_SIZE
    ensures (Sub64(after, before) >= threshold <==> after - before >= threshold)
      <==> after >= before || before - after > UINT64_SIZE - threshold
  {
    if after < before {
      assert (after - before) % UINT64_SIZE == after - before + UINT64_SIZE;
    }
  }

  /** The events are iterations in which the cloudlet is not reported. */
  ghost predicate AllQuiet(es: seq<Event>, quiet: seq<Event>, app: AppKey, c: CloudletKey) {
    forall k :: 0 <= k < |quiet| ==> quiet[k].Iter? && !Reports(After(es + quiet[..k]), quiet[k], app, c)
  }

  function Misses(count: nat): seq<bool> {
    seq(count, _ => false)
  }

  /** What the aggregator knows some quiet iterations after an init query. */
  ghost predicate KnownSince(es: seq<Event>, init: Event, hs: seq<Event>, count: nat, app: AppKey, n: string,
      c: CloudletKey)
    requires Watches(After(es), app, n, c) && init.Init? && Reports(After(es), init, app, c)
  {
    var s, t := After(es), After(hs);
    && Watches(t, app, n, c) && Met(t, app, n, c) == Met(s, app, n, c)
    && t.allStats[app].policies[n].deployClientCount == s.allStats[app].policies[n].deployClientCount
    && t.intervalNum == s.intervalNum + count
    && c in t.allStats[app].cloudlets && t.allStats[app].cloudlets[c].count == init.stats[app][c]
    && t.allStats[app].cloudlets[c].intervalNum == s.intervalNum + 1
    && LastCount(hs, app, c) == init.stats[app][c]
    && Log(hs, app, n, c) == Log(es, app, n, c) + Misses(count)
  }

  lemma OneMore(es: seq<Event>, e: Event)
    ensures Front(es + [e]) == es && Last(es + [e]) == e
    ensures After(es + [e]) == Next(After(es), e)
  {
    assert Front(es + [e]) == es;
  }

  lemma KnownAfterInit(es: seq<Event>, init: Event, app: AppKey, n: string, c: CloudletKey)
    requires Watches(After(es), app, n, c) && init.Init? && Reports(After(es), init, app, c)
    ensures KnownSince(es, init, es + [init], 0, app, n, c)
  {
    OneMore(es, init);
  }

  lemma KnownAfterMiss(es: seq<Event>, init: Event, hs: seq<Event>, count: nat, e: Event, app: AppKey, n: string,
      c: CloudletKey)
    requires Watches(After(es), app, n, c) && init.Init? && Reports(After(es), init, app, c)
    requires KnownSince(es, init, hs, count, app, n, c) && e.Iter? && !Reports(After(hs), e, app, c)
    ensures KnownSince(es, init, hs + [e], count + 1, app, n, c)
  {
    OneMore(hs, e);
    assert Log(hs + [e], app, n, c) == Log(hs, app, n, c) + [false];
    assert Misses(count + 1) == Misses(count) + [false];
  }

  lemma {:induction false} InitThenQuiet(es: seq<Event>, init: Event, quiet: seq<Event>, app: AppKey, n: string,
      c: CloudletKey)
    requires Watches(After(es), app, n, c) && init.Init? && Reports(After(es), init, app, c)
    requires AllQuiet(es + [init], quiet, app, c)
    ensures KnownSince(es, init, es + [init] + quiet, |quiet|, app, n, c)
    decreases |quiet|
  {
    hide KnownSince, After, Reports, Watches;
    if quiet == [] {
      KnownAfterInit(es, init, app, n, c);
      assert es + [init] + quiet == es + [init];
    } else {
      var m := |quiet| - 1;
      var front := quiet[..m];
      forall k | 0 <= k < m ensures front[k].Iter? && !Reports(After(es + [init] + front[..k]), front[k], app, c) {
        assert front[..k] == quiet[..k];
      }
      InitThenQuiet(es, init, front, app, n, c);
      KnownAfterMiss(es, init, es + [init] + front, m, quiet[m], app, n, c);
      assert es + [init] + quiet == es + [init] + front + [quiet[m]];
    }
  }

  lemma {:induction false} StreakOfMisses(log: seq<bool>, count: nat)
    ensures Streak(log + Misses(count) + [true]) == if count == 0 then Streak(log) + 1 else 1
  {
    var all := log + Misses(count) + [true];
    assert all[..|all| - 1] == log + Misses(count);
    if count == 0 {
      assert log + Misses(count) == log;
    } else {
      assert !(log + Misses(count))[|log| + count - 1];
    }
  }

  /**
   An init query between iterations breaks the count. Whatever the history before it, when the cloudlet
   then misses some intervals and reports a good one, deployIntervalsMet is the streak exactly if it
   missed none and the streak was zero before, or it missed one and the counter was zero, or it missed
   more: reported at once, the streak is forgotten; after one miss, the miss is not noticed.
   */
  lemma ReinitBreaksStreak(es: seq<Event>, init: Event, quiet: seq<Event>, last: Event, app: AppKey, n: string,
      c: CloudletKey)
    requires Watches(After(es), app, n, c) && init.Init? && Reports(After(es), init, app, c)
    requires AllQuiet(es + [init], quiet, app, c)
    requires last.Iter? && Reports(After(es + [init] + quiet), last, app, c)
    requires init.stats[app][c]
      + After(es).allStats[app].policies[n].deployClientCount <= last.stats[app][c] < UINT64_SIZE
    ensures var hs := es + [init] + quiet + [last];
      && Watches(After(hs), app, n, c)
      && (Met(After(hs), app, n, c) == Streak(Log(hs, app, n, c)) <==>
           || (|quiet| == 0 && Streak(Log(es, app, n, c)) == 0)
           || (|quiet| == 1 && Met(After(es), app, n, c) == 0)
           || |quiet| >= 2)
  {
    var before := es + [init] + quiet;
    InitThenQuiet(es, init, quiet, app, n, c);
    hide After, Log;
    GoodAfter(es, init, before, |quiet|, last, app, n, c);
    StreakOfMisses(Log(es, app, n, c), |quiet|);
  }

  /** The counter and the log after the good report. */
  lemma GoodAfter(es: seq<Event>, init: Event, before: seq<Event>, count: nat, last: Event, app: AppKey, n: string,
      c: CloudletKey)
    requires Watches(After(es), app, n, c) && init.Init? && Reports(After(es), init, app, c)
    requires KnownSince(es, init, before, count, app, n, c) && last.Iter? && Reports(After(before), last, app, c)
    requires init.stats[app][c]
      + After(es).allStats[app].policies[n].deployClientCount <= last.stats[app][c] < UINT64_SIZE
    ensures Watches(After(before + [last]), app, n, c)
    ensures Met(After(before + [last]), app, n, c) == (if count == 1 then Met(After(es), app, n, c) else 0) + 1
    ensures Log(before + [last], app, n, c) == Log(es, app, n, c) + Misses(count) + [true]
  {
    OneMore(before, last);
    assert Good(before + [last], app, n, c);
  }

  /** One good interval before an init query, and a good one after it, at once or after a miss. */
  function BeforeReinit(app: AppKey, n: string, c: CloudletKey): seq<Event> {
    [UpdateApp(app, true, {n}, map[n := Policy(1, 1, [c])]), Iter(map[app := map[c := 1]], {app})]
  }

  lemma FirstPolicy(app: AppKey, n: string, c: CloudletKey)
    ensures After(BeforeReinit(app, n, c)[..1])
      == AggrState(map[app := AppStats(map[n := PolicyTracker(1, 1, map[c := 0])], map[])], 0)
    ensures Sane(BeforeReinit(app, n, c)[..1])
  {
    var u := BeforeReinit(app, n, c)[0];
    assert BeforeReinit(app, n, c)[..1] == [] + [u];
    OneMore([], u);
    var p := Policy(1, 1, [c]);
    assert UpdatedTracker(map[], p).intervalsMet == map[c := 0];
    assert SyncedPolicies(map[], {n}, map[n := p]) == map[n := UpdatedTracker(map[], p)];
    assert Sane([]);
    assert FRESH.allStats[app := AppStats(map[], map[])] == map[app := AppStats(map[], map[])];
  }

  lemma BeforeReinitStreak(app: AppKey, n: string, c: CloudletKey)
    ensures var es := BeforeReinit(app, n, c);
      && Sane(es) && app in After(es).allStats && Watches(After(es), app, n, c)
      && After(es).allStats[app].policies[n].deployClientCount == 1
      && Met(After(es), app, n, c) == 1 && Log(es, app, n, c) == [true]
  {
    var es := BeforeReinit(app, n, c);
    FirstPolicy(app, n, c);
    OneMore(es[..1], es[1]);
    assert es[..1] + [es[1]] == es;
    assert LastCount(es[..1], app, c) == 0 by { assert Front(es[..1]) == []; }
    assert Log(es[..1], app, n, c) == [] by { assert Front(es[..1]) == []; }
  }

  function Report(app: AppKey, c: CloudletKey, count: nat): AllReports {
    map[app := map[c := count]]
  }

  /** A report that fails at once: the counter is 1, the streak 2. */
  lemma ReinitAtOnceFails(app: AppKey, n: string, c: CloudletKey)
    ensures var es := BeforeReinit(app, n, c);
      var hs := es + [Init(Report(app, c, 1), {app})] + [] + [Iter(Report(app, c, 2), {app})];
      Watches(After(hs), app, n, c) && Met(After(hs), app, n, c) != Streak(Log(hs, app, n, c))
  {
    var es := BeforeReinit(app, n, c);
    var init, good := Init(Report(app, c, 1), {app}), Iter(Report(app, c, 2), {app});
    BeforeReinitStreak(app, n, c);
    KnownAfterInit(es, init, app, n, c);
    assert es + [init] + [] == es + [init];
    assert Streak([true]) == 1 by { assert [true][..0] == []; }
    hide After, Log, Streak, BeforeReinit;
    ReinitBreaksStreak(es, init, [], good, app, n, c);
  }

  /** A report that fails after one miss: the streak is 1, the counter 2. */
  lemma ReinitLateFails(app: AppKey, n: string, c: CloudletKey)
    ensures var es := BeforeReinit(app, n, c);
      var hs := es + [Init(Report(app, c, 1), {app})] + [Iter(map[], {app})] + [Iter(Report(app, c, 2), {app})];
      Watches(After(hs), app, n, c) && Met(After(hs), app, n, c) != Streak(Log(hs, app, n, c))
  {
    var es := BeforeReinit(app, n, c);
    var init, miss, good := Init(Report(app, c, 1), {app}), Iter(map[], {app}), Iter(Report(app, c, 2), {app});
    BeforeReinitStreak(app, n, c);
    KnownAfterInit(es, init, app, n, c);
    KnownAfterMiss(es, init, es + [init], 0, miss, app, n, c);
    assert es + [init] + [miss][..0] == es + [init];
    assert AllQuiet(es + [init], [miss], app, c);
    hide After, Log, Streak, BeforeReinit, AllQuiet;
    ReinitBreaksStreak(es, init, [miss], good, app, n, c);
  }
}
