/**
 The single operations of AlertCacheRuns against the methods of the cache: one scrape, one flush or one
 autoscaler check that nobody interrupts does to the cache what the method does.
 */
module AlertCacheAlone {
  import opened AlertCache
  import opened AlertCacheRuns
  import Autoscale
  import opened Keys
  import opened Options

  /** The operations lead from s to t. */
  ghost predicate Leads(monitored: Labels -> bool, s: CacheState, os: seq<Operation>, t: CacheState)
    decreases |os|
  {
    if os == [] then t == s
    else Enabled(monitored, s, os[0]) && Leads(monitored, Apply(monitored, s, os[0]), os[1..], t)
  }

  lemma Nothing(monitored: Labels -> bool, s: CacheState)
    ensures Leads(monitored, s, [], s)
  {
  }

  lemma First(monitored: Labels -> bool, s: CacheState, o: Operation, mid: CacheState, os: seq<Operation>,
      t: CacheState)
    requires Enabled(monitored, s, o) && mid == Apply(monitored, s, o) && Leads(monitored, mid, os, t)
    ensures Leads(monitored, s, [o] + os, t)
  {
    assert ([o] + os)[1..] == os;
  }

  lemma {:induction false} Both(monitored: Labels -> bool, s: CacheState, a: seq<Operation>, mid: CacheState,
      b: seq<Operation>, t: CacheState)
    requires Leads(monitored, s, a, mid) && Leads(monitored, mid, b, t)
    ensures Leads(monitored, s, a + b, t)
    decreases |a|
  {
    hide Enabled, Apply;
    if a == [] {
      assert a + b == b;
    } else {
      Both(monitored, Apply(monitored, s, a[0]), a[1..], mid, b, t);
      assert (a + b)[1..] == a[1..] + b;
    }
  }

  // ---------------------------------------------------------------------------------------------
  // One scrape
  // ---------------------------------------------------------------------------------------------

  /** What others own is as before. */
  ghost predicate OthersSame(s: CacheState, t: CacheState, d: Domain) {
    && t.flushes == s.flushes && t.inProgress == s.inProgress && t.setting == s.setting
    && forall other :: other != d ==>
      ScraperOf(t, other) == ScraperOf(s, other) && Returned(t, other) == Returned(s, other)
  }

  /** The scraper has put the first alerts of its list. */
  ghost predicate HasPut(s: CacheState, d: Domain, alerts: seq<Autoscale.Alert>, base: map<Labels, Autoscale.Alert>,
      n: nat)
  {
    && n <= |alerts|
    && ScraperOf(s, d) == Putting(alerts, n, base.Keys - AsMap(alerts[..n]).Keys)
    && s.objs == base + AsMap(alerts[..n])
  }

  lemma PutStep(monitored: Labels -> bool, s: CacheState, d: Domain, alerts: seq<Autoscale.Alert>, n: nat,
      stale: set<Labels>)
    requires ScraperOf(s, d) == Putting(alerts, n, stale) && n < |alerts|
    ensures Enabled(monitored, s, PutNext(d))
    ensures var t, a := Apply(monitored, s, PutNext(d)), alerts[n];
      && ScraperOf(t, d) == Putting(alerts, n + 1, stale - {a.labels}) && t.objs == s.objs[a.labels := a]
      && OthersSame(s, t, d)
  {
  }

  lemma OnePut(monitored: Labels -> bool, s: CacheState, d: Domain, alerts: seq<Autoscale.Alert>,
      base: map<Labels, Autoscale.Alert>, n: nat)
    requires HasPut(s, d, alerts, base, n) && n < |alerts|
    ensures Enabled(monitored, s, PutNext(d))
    ensures var t := Apply(monitored, s, PutNext(d)); HasPut(t, d, alerts, base, n + 1) && OthersSame(s, t, d)
  {
    hide Enabled, Apply, OthersSame, AsMap;
    PutStep(monitored, s, d, alerts, n, base.Keys - AsMap(alerts[..n]).Keys);
    AsMapStep(alerts, n);
    MergeOne(base, AsMap(alerts[..n]), alerts[n].labels, alerts[n]);
  }

  lemma {:induction false} PutRest(monitored: Labels -> bool, s: CacheState, d: Domain, alerts: seq<Autoscale.Alert>,
      base: map<Labels, Autoscale.Alert>, n: nat) returns (os: seq<Operation>, t: CacheState)
    requires HasPut(s, d, alerts, base, n)
    ensures Leads(monitored, s, os, t) && HasPut(t, d, alerts, base, |alerts|) && OthersSame(s, t, d)
    ensures forall o :: o in os ==> ScrapeOf(o, d)
    decreases |alerts| - n
  {
    hide HasPut, Enabled, Apply;
    if n >= |alerts| {
      Bounded(s, d, alerts, base, n);
      os, t := [], s;
    } else {
      OnePut(monitored, s, d, alerts, base, n);
      var mid := Apply(monitored, s, PutNext(d));
      os, t := PutRest(monitored, mid, d, alerts, base, n + 1);
      First(monitored, s, PutNext(d), mid, os, t);
      os := [PutNext(d)] + os;
    }
  }

  lemma Bounded(s: CacheState, d: Domain, alerts: seq<Autoscale.Alert>, base: map<Labels, Autoscale.Alert>, n: nat)
    requires HasPut(s, d, alerts, base, n)
    ensures n <= |alerts|
  {
  }

  /** The stale keys still to delete. */
  ghost predicate StillStale(s: CacheState, d: Domain, alerts: seq<Autoscale.Alert>, objs: map<Labels, Autoscale.Alert>,
      all: set<Labels>, stale: set<Labels>)
  {
    && stale <= all && ScraperOf(s, d) == Dropping(alerts, stale)
    && s.objs == map k | k in objs && (k !in all || k in stale || IsAutoScale(k)) :: objs[k]
  }

  lemma OneDrop(monitored: Labels -> bool, s: CacheState, d: Domain, alerts: seq<Autoscale.Alert>,
      objs: map<Labels, Autoscale.Alert>, all: set<Labels>, stale: set<Labels>, k: Labels)
    requires StillStale(s, d, alerts, objs, all, stale) && k in stale
    ensures Enabled(monitored, s, DropOne(d, k))
    ensures var t := Apply(monitored, s, DropOne(d, k));
      StillStale(t, d, alerts, objs, all, stale - {k}) && OthersSame(s, t, d)
  {
  }

  lemma {:induction false} DropRest(monitored: Labels -> bool, s: CacheState, d: Domain, alerts: seq<Autoscale.Alert>,
      objs: map<Labels, Autoscale.Alert>, all: set<Labels>, stale: set<Labels>)
        returns (os: seq<Operation>, t: CacheState)
    requires StillStale(s, d, alerts, objs, all, stale)
    ensures Leads(monitored, s, os, t) && StillStale(t, d, alerts, objs, all, {}) && OthersSame(s, t, d)
    ensures forall o :: o in os ==> ScrapeOf(o, d)
    decreases stale
  {
    hide StillStale, Enabled, Apply;
    if stale == {} {
      os, t := [], s;
    } else {
      var k :| k in stale;
      OneDrop(monitored, s, d, alerts, objs, all, stale, k);
      var mid := Apply(monitored, s, DropOne(d, k));
      os, t := DropRest(monitored, mid, d, alerts, objs, all, stale - {k});
      First(monitored, s, DropOne(d, k), mid, os, t);
      os := [DropOne(d, k)] + os;
    }
  }

  lemma Begun(monitored: Labels -> bool, s: CacheState, d: Domain, alerts: seq<Autoscale.Alert>)
    requires ScraperOf(s, d).Idle? && forall a :: a in alerts ==> Own(monitored, d, a.labels)
    ensures Enabled(monitored, s, BeginScrape(d, alerts))
    ensures var t := Apply(monitored, s, BeginScrape(d, alerts));
      HasPut(t, d, alerts, s.objs, 0) && OthersSame(s, t, d)
  {
    assert alerts[..0] == [];
  }

  /** The keys of the domain that were there and were not put. */
  ghost function ToDrop(monitored: Labels -> bool, base: map<Labels, Autoscale.Alert>,
      put: map<Labels, Autoscale.Alert>, d: Domain): set<Labels>
  {
    set k | k in base.Keys - put.Keys && InDomain(monitored, d, k)
  }

  lemma Pruned(monitored: Labels -> bool, s: CacheState, d: Domain, alerts: seq<Autoscale.Alert>,
      base: map<Labels, Autoscale.Alert>)
    requires HasPut(s, d, alerts, base, |alerts|)
    ensures Enabled(monitored, s, Prune(d))
    ensures var t, stale := Apply(monitored, s, Prune(d)), ToDrop(monitored, base, AsMap(alerts), d);
      StillStale(t, d, alerts, base + AsMap(alerts), stale, stale) && OthersSame(s, t, d)
  {
    hide InDomain, AsMap, OthersSame;
    assert alerts[..|alerts|] == alerts;
    var t, stale := Apply(monitored, s, Prune(d)), ToDrop(monitored, base, AsMap(alerts), d);
    assert ScraperOf(t, d) == Dropping(alerts, stale);
    assert OthersSame(s, t, d) by { Separate(monitored, s, d); }
  }

  lemma Separate(monitored: Labels -> bool, s: CacheState, d: Domain)
    requires Enabled(monitored, s, Prune(d))
    ensures OthersSame(s, Apply(monitored, s, Prune(d)), d)
  {
    hide InDomain;
  }

  /** What is left when the stale keys are gone. */
  lemma DroppedAll(monitored: Labels -> bool, d: Domain, base: map<Labels, Autoscale.Alert>,
      alerts: seq<Autoscale.Alert>)
    requires forall a :: a in alerts ==> Own(monitored, d, a.labels)
    ensures var put := AsMap(alerts);
      var objs, all := base + put, ToDrop(monitored, base, put, d);
      (map k | k in objs && (k !in all || k in {} || IsAutoScale(k)) :: objs[k])
        == AfterScrape(monitored, base, d, alerts)
  {
    hide InDomain;
  }

  lemma EndStep(monitored: Labels -> bool, s: CacheState, d: Domain, alerts: seq<Autoscale.Alert>)
    requires ScraperOf(s, d) == Dropping(alerts, {})
    ensures Enabled(monitored, s, EndScrape(d))
    ensures var t := Apply(monitored, s, EndScrape(d));
      t.objs == s.objs && ScraperOf(t, d).Idle? && Returned(t, d) == AsMap(alerts) && OthersSame(s, t, d)
  {
    hide AsMap;
  }

  lemma Ended(monitored: Labels -> bool, s: CacheState, d: Domain, alerts: seq<Autoscale.Alert>,
      base: map<Labels, Autoscale.Alert>)
    requires forall a :: a in alerts ==> Own(monitored, d, a.labels)
    requires StillStale(s, d, alerts, base + AsMap(alerts), ToDrop(monitored, base, AsMap(alerts), d), {})
    ensures Enabled(monitored, s, EndScrape(d))
    ensures var t := Apply(monitored, s, EndScrape(d));
      && t.objs == AfterScrape(monitored, base, d, alerts)
      && ScraperOf(t, d).Idle? && Returned(t, d) == AsMap(alerts) && OthersSame(s, t, d)
  {
    DroppedAll(monitored, d, base, alerts);
    EndStep(monitored, s, d, alerts);
    hide InDomain, AsMap, AfterScrape, ToDrop, Own, Enabled, Apply, OthersSame, Returned;
  }

  /** A scrape that nobody interrupts does what UpdateAlerts does. */
  lemma UninterruptedScrape(monitored: Labels -> bool, s: CacheState, d: Domain, alerts: seq<Autoscale.Alert>)
    returns (os: seq<Operation>, t: CacheState)
    requires ScraperOf(s, d).Idle? && forall a :: a in alerts ==> Own(monitored, d, a.labels)
    ensures Leads(monitored, s, os, t) && forall o :: o in os ==> ScrapeOf(o, d)
    ensures t.objs == AfterScrape(monitored, s.objs, d, alerts)
    ensures ScraperOf(t, d).Idle? && Returned(t, d) == AsMap(alerts) && OthersSame(s, t, d)
  {
    hide HasPut, StillStale, Enabled, Apply, Own, AfterScrape, ToDrop, Leads, AsMap, ScraperOf, Returned;
    Begun(monitored, s, d, alerts);
    var begun := Apply(monitored, s, BeginScrape(d, alerts));
    var puts, put := PutRest(monitored, begun, d, alerts, s.objs, 0);
    Pruned(monitored, put, d, alerts, s.objs);
    var pruned, stale := Apply(monitored, put, Prune(d)), ToDrop(monitored, s.objs, AsMap(alerts), d);
    var drops, dropped := DropRest(monitored, pruned, d, alerts, s.objs + AsMap(alerts), stale, stale);
    Ended(monitored, dropped, d, alerts, s.objs);
    t := Apply(monitored, dropped, EndScrape(d));
    Nothing(monitored, t);
    First(monitored, dropped, EndScrape(d), t, [], t);
    os := [EndScrape(d)] + [];
    Both(monitored, pruned, drops, dropped, os, t);
    os := drops + os;
    First(monitored, put, Prune(d), pruned, os, t);
    os := [Prune(d)] + os;
    Both(monitored, begun, puts, put, os, t);
    os := puts + os;
    First(monitored, s, BeginScrape(d, alerts), begun, os, t);
    os := [BeginScrape(d, alerts)] + os;
  }

  // ---------------------------------------------------------------------------------------------
  // One flush
  // ---------------------------------------------------------------------------------------------

  /** The keys a flush still holds; a finished flush holds none. */
  ghost predicate StillFlushing(s: CacheState, key: ClusterInstKey, objs: map<Labels, Autoscale.Alert>,
      rest: set<Labels>)
  {
    && (if rest == {} then key !in s.flushes else key in s.flushes && s.flushes[key] == rest)
    && s.objs == map k | k in objs && (!NamesCluster(k, key) || k in rest) :: objs[k]
  }

  lemma OneFlush(monitored: Labels -> bool, s: CacheState, key: ClusterInstKey, objs: map<Labels, Autoscale.Alert>,
      rest: set<Labels>, k: Labels)
    requires StillFlushing(s, key, objs, rest) && k in rest && NamesCluster(k, key)
    ensures Enabled(monitored, s, FlushOne(key, k))
    ensures StillFlushing(Apply(monitored, s, FlushOne(key, k)), key, objs, rest - {k})
    ensures Apply(monitored, s, FlushOne(key, k)).scrapers == s.scrapers
  {
    hide NamesCluster;
  }

  lemma {:induction false} FlushRest(monitored: Labels -> bool, s: CacheState, key: ClusterInstKey,
      objs: map<Labels, Autoscale.Alert>, rest: set<Labels>) returns (os: seq<Operation>, t: CacheState)
    requires StillFlushing(s, key, objs, rest) && forall k :: k in rest ==> NamesCluster(k, key)
    ensures Leads(monitored, s, os, t) && StillFlushing(t, key, objs, {}) && t.scrapers == s.scrapers
    decreases rest
  {
    hide StillFlushing, NamesCluster, Enabled, Apply;
    if rest == {} {
      os, t := [], s;
    } else {
      var k :| k in rest;
      OneFlush(monitored, s, key, objs, rest, k);
      var mid := Apply(monitored, s, FlushOne(key, k));
      os, t := FlushRest(monitored, mid, key, objs, rest - {k});
      First(monitored, s, FlushOne(key, k), mid, os, t);
      os := [FlushOne(key, k)] + os;
    }
  }

  /** A flush that nobody interrupts does what FlushAlerts does. */
  lemma UninterruptedFlush(monitored: Labels -> bool, s: CacheState, key: ClusterInstKey)
    returns (os: seq<Operation>, t: CacheState)
    requires key !in s.flushes
    ensures Leads(monitored, s, os, t) && t.objs == AfterFlush(s.objs, key) && key !in t.flushes
      && t.scrapers == s.scrapers
  {
    hide NamesCluster;
    var keys := set k | k in s.objs && NamesCluster(k, key);
    var begun := Apply(monitored, s, BeginFlush(key));
    os, t := FlushRest(monitored, begun, key, s.objs, keys);
    First(monitored, s, BeginFlush(key), begun, os, t);
    os := [BeginFlush(key)] + os;
  }

  // ---------------------------------------------------------------------------------------------
  // One check of an autoscaler
  // ---------------------------------------------------------------------------------------------

  /** An autoscaler's view of the cache and its flag. */
  function LoopOf(s: CacheState, key: ClusterInstKey, region: string, nodes: nat): Autoscale.Loop {
    var k := ScaleKey(key, region);
    Autoscale.Loop(nodes, if k in s.objs then Some(s.objs[k].value) else None, k in s.inProgress)
  }

  /** The operations of a check: none without load, otherwise the alert and then the flag. */
  ghost function CheckOperations(p: Autoscale.Policy, raw: real, nodes: nat, key: ClusterInstKey,
      region: string): seq<Operation>
  {
    if raw == 0.0 then []
    else if Autoscale.Quiescent(p, raw, nodes) then [ClearAlert(key, region), SetFlag(ScaleKey(key, region))]
    else [RaiseAlert(key, region, Autoscale.Desired(p, raw)), SetFlag(ScaleKey(key, region))]
  }

  /** The first step of a check changes one alert, the second the flag. */
  lemma AlertStep(monitored: Labels -> bool, s: CacheState, o: Operation, key: ClusterInstKey, region: string)
    requires ScaleKey(key, region) !in s.setting
    requires o == ClearAlert(key, region) || (o.RaiseAlert? && o.key == key && o.region == region)
    ensures Enabled(monitored, s, o)
    ensures var t, k := Apply(monitored, s, o), ScaleKey(key, region);
      && k in t.setting && (t.setting[k] <==> o.RaiseAlert?) && t.inProgress == s.inProgress
      && (if o.RaiseAlert? then k in t.objs && t.objs[k].value == o.nodes else k !in t.objs)
      && forall l :: l != k ==> (l in t.objs <==> l in s.objs) && (l in s.objs ==> t.objs[l] == s.objs[l])
  {
    if o.RaiseAlert? { assert Autoscale.AutoScaleAlert(key, region, o.nodes).labels == ScaleKey(key, region); }
  }

  lemma FlagStep(monitored: Labels -> bool, s: CacheState, k: Labels)
    requires k in s.setting
    ensures Enabled(monitored, s, SetFlag(k))
    ensures var t := Apply(monitored, s, SetFlag(k)); t.objs == s.objs && (k in t.inProgress <==> s.setting[k])
  {
  }

  /** A check between whose two steps nobody touches the cache does what the autoscaler's Check does. */
  lemma UninterruptedCheck(monitored: Labels -> bool, s: CacheState, p: Autoscale.Policy, raw: real, nodes: nat,
      key: ClusterInstKey, region: string) returns (t: CacheState)
    requires ScaleKey(key, region) !in s.setting
    ensures Leads(monitored, s, CheckOperations(p, raw, nodes, key, region), t)
    ensures LoopOf(t, key, region, nodes) == Autoscale.AfterCheck(p, raw, LoopOf(s, key, region, nodes))
    ensures forall k :: k != ScaleKey(key, region) ==>
      (k in t.objs <==> k in s.objs) && (k in s.objs ==> t.objs[k] == s.objs[k])
  {
    hide Autoscale.Quiescent, Autoscale.Desired, Enabled, Apply, ScaleKey, Leads;
    var k, os := ScaleKey(key, region), CheckOperations(p, raw, nodes, key, region);
    if raw == 0.0 {
      t := s;
      Nothing(monitored, s);
    } else {
      AlertStep(monitored, s, os[0], key, region);
      var mid := Apply(monitored, s, os[0]);
      FlagStep(monitored, mid, k);
      t := Apply(monitored, mid, SetFlag(k));
      Nothing(monitored, t);
      First(monitored, mid, SetFlag(k), t, [], t);
      First(monitored, s, os[0], mid, [SetFlag(k)] + [], t);
      assert os == [os[0]] + ([SetFlag(k)] + []);
    }
  }
}
