/**
 The shared alert cache under any interleaving of single cache operations: a scrape is a snapshot of all
 keys, then one put per alert, then one delete per stale key; raising or clearing an autoscale alert and
 setting the autoscaler's flag are two steps; a flush collects keys and deletes them one by one.
 */
module AlertCacheRuns {
  import opened Keys
  import opened Autoscale
  import opened AlertCache

  datatype Scraper =
    | Idle
    | Putting(alerts: seq<Alert>, next: nat, stale: set<Labels>)
    | Dropping(alerts: seq<Alert>, stale: set<Labels>)

  /**
   The cache; what each scraper is doing; the keys each flush still has to delete; the autoscalers' flags,
   and those about to be set. `returned` is what each domain's last successful scrape returned, `lost`
   the keys flushed since they were last put.
   */
  datatype CacheState = CacheState(
    objs: map<Labels, Alert>,
    scrapers: map<Domain, Scraper>,
    flushes: map<ClusterInstKey, set<Labels>>,
    inProgress: set<Labels>,
    setting: map<Labels, bool>,
    returned: map<Domain, map<Labels, Alert>>,
    lost: set<Labels>)

  const EMPTY: CacheState := CacheState(map[], map[], map[], {}, map[], map[], {})

  datatype Operation =
    | BeginScrape(d: Domain, alerts: seq<Alert>)
    | PutNext(d: Domain)
    | Prune(d: Domain)
    | DropOne(d: Domain, k: Labels)
    | EndScrape(d: Domain)
    | RaiseAlert(key: ClusterInstKey, region: string, nodes: int)
    | ClearAlert(key: ClusterInstKey, region: string)
    | SetFlag(k: Labels)
    | BeginFlush(key: ClusterInstKey)
    | FlushOne(key: ClusterInstKey, k: Labels)

  function ScraperOf(s: CacheState, d: Domain): Scraper {
    if d in s.scrapers then s.scrapers[d] else Idle
  }

  function Returned(s: CacheState, d: Domain): map<Labels, Alert> {
    if d in s.returned then s.returned[d] else map[]
  }

  function ScaleKey(key: ClusterInstKey, region: string): Labels {
    AutoScaleAlert(key, region, 0).labels
  }

  /** A scraper does one scrape at a time and submits only alerts of its own; an autoscaler does one check at a time. */
  ghost predicate Enabled(monitored: Labels -> bool, s: CacheState, o: Operation) {
    match o
    case BeginScrape(d, alerts) => ScraperOf(s, d).Idle? && forall a :: a in alerts ==> Own(monitored, d, a.labels)
    case PutNext(d) => ScraperOf(s, d).Putting? && ScraperOf(s, d).next < |ScraperOf(s, d).alerts|
    case Prune(d) => ScraperOf(s, d).Putting? && ScraperOf(s, d).next >= |ScraperOf(s, d).alerts|
    case DropOne(d, k) => ScraperOf(s, d).Dropping? && k in ScraperOf(s, d).stale
    case EndScrape(d) => ScraperOf(s, d).Dropping? && ScraperOf(s, d).stale == {}
    case RaiseAlert(key, region, _) => ScaleKey(key, region) !in s.setting
    case ClearAlert(key, region) => ScaleKey(key, region) !in s.setting
    case SetFlag(k) => k in s.setting
    case BeginFlush(key) => key !in s.flushes
    case FlushOne(key, k) => key in s.flushes && k in s.flushes[key]
  }

  function SetScraper(s: CacheState, d: Domain, sc: Scraper): CacheState {
    s.(scrapers := s.scrapers[d := sc])
  }

  ghost function Apply(monitored: Labels -> bool, s: CacheState, o: Operation): CacheState
    requires Enabled(monitored, s, o)
  {
    match o
    case BeginScrape(d, alerts) => SetScraper(s, d, Putting(alerts, 0, s.objs.Keys))
    case PutNext(d) =>
      var sc := ScraperOf(s, d);
      var a := sc.alerts[sc.next];
      SetScraper(s, d, Putting(sc.alerts, sc.next + 1, sc.stale - {a.labels}))
        .(objs := s.objs[a.labels := a], lost := s.lost - {a.labels})
    case Prune(d) =>
      var sc := ScraperOf(s, d);
      SetScraper(s, d, Dropping(sc.alerts, set k | k in sc.stale && InDomain(monitored, d, k)))
    case DropOne(d, k) =>
      var sc := ScraperOf(s, d);
      SetScraper(s, d, Dropping(sc.alerts, sc.stale - {k}))
        .(objs := if IsAutoScale(k) then s.objs else s.objs - {k})
    case EndScrape(d) => SetScraper(s, d, Idle).(returned := s.returned[d := AsMap(ScraperOf(s, d).alerts)])
    case RaiseAlert(key, region, n) =>
      var a := AutoScaleAlert(key, region, n);
      s.(objs := if a.labels in s.objs && s.objs[a.labels].value == n then s.objs else s.objs[a.labels := a],
         lost := s.lost - {a.labels}, setting := s.setting[a.labels := true])
    case ClearAlert(key, region) =>
      s.(objs := s.objs - {ScaleKey(key, region)}, setting := s.setting[ScaleKey(key, region) := false])
    case SetFlag(k) =>
      s.(inProgress := if s.setting[k] then s.inProgress + {k} else s.inProgress - {k}, setting := s.setting - {k})
    case BeginFlush(key) =>
      var keys := set k | k in s.objs && NamesCluster(k, key);
      if keys == {} then s else s.(flushes := s.flushes[key := keys])
    case FlushOne(key, k) =>
      var left := s.flushes[key] - {k};
      s.(objs := s.objs - {k}, lost := s.lost + {k}, flushes := if left == {} then s.flushes - {key}
        else s.flushes[key := left])
  }

  ghost predicate IsRun(monitored: Labels -> bool, os: seq<Operation>, ss: seq<CacheState>) {
    && |ss| == |os| + 1 && ss[0] == EMPTY
    && forall k :: 0 <= k < |os| ==> Enabled(monitored, ss[k], os[k]) && ss[k + 1] == Apply(monitored, ss[k], os[k])
  }

  // ---------------------------------------------------------------------------------------------
  // The invariant
  // ---------------------------------------------------------------------------------------------

  /**
   One key of a domain: if the scrape has put it, it is there unless flushed; otherwise, if it is there, it
   is known to be stale.
   */
  ghost predicate KeyOk(objs: map<Labels, Alert>, lost: set<Labels>, put: map<Labels, Alert>, stale: set<Labels>,
      k: Labels)
  {
    && (k in put ==> (k in objs <==> k !in lost) && (k in objs ==> objs[k] == put[k]))
    && (k !in put && k in objs ==> k in stale)
  }

  /** What the scraper has put so far, and what it still holds for stale. */
  function PutSoFar(s: CacheState, d: Domain): map<Labels, Alert> {
    match ScraperOf(s, d)
    case Idle => Returned(s, d)
    case Putting(alerts, next, _) => if next <= |alerts| then AsMap(alerts[..next]) else map[]
    case Dropping(alerts, _) => AsMap(alerts)
  }

  function Stale(s: CacheState, d: Domain): set<Labels> {
    match ScraperOf(s, d)
    case Idle => {}
    case Putting(_, _, stale) => stale
    case Dropping(_, stale) => stale
  }

  /** A scraper puts only its own alerts, never holds one of them for stale, and drops only keys of its domain. */
  ghost predicate ScraperOk(monitored: Labels -> bool, d: Domain, sc: Scraper, put: map<Labels, Alert>) {
    match sc
    case Idle => true
    case Putting(alerts, next, stale) =>
      next <= |alerts| && (forall a :: a in alerts ==> Own(monitored, d, a.labels)) && stale !! put.Keys
    case Dropping(alerts, stale) =>
      && (forall a :: a in alerts ==> Own(monitored, d, a.labels)) && stale !! put.Keys
      && (forall k :: k in stale ==> InDomain(monitored, d, k))
  }

  ghost predicate DomainOk(monitored: Labels -> bool, s: CacheState, d: Domain) {
    && ScraperOk(monitored, d, ScraperOf(s, d), PutSoFar(s, d))
    && (forall k :: k in PutSoFar(s, d) ==> Own(monitored, d, k))
    && (forall k :: Own(monitored, d, k) ==> KeyOk(s.objs, s.lost, PutSoFar(s, d), Stale(s, d), k))
  }

  /** An autoscale alert is there iff its flag is, or is about to be, set, unless it was flushed. */
  ghost predicate FlagOk(s: CacheState, k: Labels) {
    k in s.objs <==> (if k in s.setting then s.setting[k] else k in s.inProgress) && k !in s.lost
  }

  ghost predicate Inv(monitored: Labels -> bool, s: CacheState) {
    (forall d :: DomainOk(monitored, s, d)) && (forall k :: IsAutoScale(k) ==> FlagOk(s, k))
  }

  // ---------------------------------------------------------------------------------------------
  // Every operation keeps it
  // ---------------------------------------------------------------------------------------------

  /** Operations of a domain's own scraper. */
  predicate ScrapeOf(o: Operation, d: Domain) {
    (o.BeginScrape? || o.PutNext? || o.Prune? || o.DropOne? || o.EndScrape?) && o.d == d
  }

  /** What an operation can change: one key of the cache. */
  ghost predicate TouchesOnly(s: CacheState, t: CacheState, k: Labels) {
    && (forall l :: l != k ==> (l in t.objs <==> l in s.objs) && (l in s.objs ==> t.objs[l] == s.objs[l]))
    && (forall l :: l != k ==> (l in t.lost <==> l in s.lost))
  }

  /** Whatever others do to keys of other domains, or a flush to any key, a domain is still in order. */
  lemma OtherKeyHarmless(monitored: Labels -> bool, s: CacheState, t: CacheState, d: Domain, k: Labels)
    requires DomainOk(monitored, s, d) && TouchesOnly(s, t, k)
    requires ScraperOf(t, d) == ScraperOf(s, d) && Returned(t, d) == Returned(s, d)
    requires !Own(monitored, d, k) || (k !in t.objs && k in t.lost)
    ensures DomainOk(monitored, t, d)
  {
    assert PutSoFar(t, d) == PutSoFar(s, d) && Stale(t, d) == Stale(s, d);
    forall l | Own(monitored, d, l) ensures KeyOk(t.objs, t.lost, PutSoFar(t, d), Stale(t, d), l) {
      assert KeyOk(s.objs, s.lost, PutSoFar(s, d), Stale(s, d), l);
    }
  }

  lemma UntouchedHarmless(monitored: Labels -> bool, s: CacheState, t: CacheState, d: Domain)
    requires DomainOk(monitored, s, d) && t.objs == s.objs && t.lost == s.lost
    requires ScraperOf(t, d) == ScraperOf(s, d) && Returned(t, d) == Returned(s, d)
    ensures DomainOk(monitored, t, d)
  {
    assert PutSoFar(t, d) == PutSoFar(s, d) && Stale(t, d) == Stale(s, d);
  }

  lemma OwnBegin(monitored: Labels -> bool, s: CacheState, o: Operation, t: CacheState)
    requires Enabled(monitored, s, o) && t == Apply(monitored, s, o) && o.BeginScrape?
    ensures DomainOk(monitored, t, o.d)
  {
    assert o.alerts[..0] == [];
    assert PutSoFar(t, o.d) == map[];
  }

  /** What a put does to the scraper's own domain. */
  lemma PutShape(monitored: Labels -> bool, s: CacheState, o: Operation, t: CacheState, a: Alert)
    requires o.PutNext? && ScraperOk(monitored, o.d, ScraperOf(s, o.d), PutSoFar(s, o.d))
    requires Enabled(monitored, s, o) && t == Apply(monitored, s, o)
    requires a == ScraperOf(s, o.d).alerts[ScraperOf(s, o.d).next]
    ensures PutSoFar(t, o.d) == PutSoFar(s, o.d)[a.labels := a] && Stale(t, o.d) == Stale(s, o.d) - {a.labels}
    ensures t.objs == s.objs[a.labels := a] && t.lost == s.lost - {a.labels}
    ensures Own(monitored, o.d, a.labels)
    ensures ScraperOk(monitored, o.d, ScraperOf(t, o.d), PutSoFar(t, o.d))
  {
    hide Own;
    var sc := ScraperOf(s, o.d);
    assert a in sc.alerts;
    AsMapStep(sc.alerts, sc.next);
  }

  lemma KeyAfterPut(objs: map<Labels, Alert>, lost: set<Labels>, put: map<Labels, Alert>, stale: set<Labels>, a: Alert,
      k: Labels)
    requires KeyOk(objs, lost, put, stale, k)
    ensures KeyOk(objs[a.labels := a], lost - {a.labels}, put[a.labels := a], stale - {a.labels}, k)
  {
  }

  lemma OwnPut(monitored: Labels -> bool, s: CacheState, o: Operation, t: CacheState)
    requires o.PutNext? && DomainOk(monitored, s, o.d) && Enabled(monitored, s, o) && t == Apply(monitored, s, o)
    ensures DomainOk(monitored, t, o.d)
  {
    var a := ScraperOf(s, o.d).alerts[ScraperOf(s, o.d).next];
    PutShape(monitored, s, o, t, a);
    hide Own, Apply, Enabled, PutSoFar, Stale, ScraperOf, ScraperOk, KeyOk;
    forall k | Own(monitored, o.d, k) ensures KeyOk(t.objs, t.lost, PutSoFar(t, o.d), Stale(t, o.d), k) {
      KeyAfterPut(s.objs, s.lost, PutSoFar(s, o.d), Stale(s, o.d), a, k);
    }
  }

  lemma OwnPrune(monitored: Labels -> bool, s: CacheState, o: Operation, t: CacheState)
    requires o.Prune? && DomainOk(monitored, s, o.d) && Enabled(monitored, s, o) && t == Apply(monitored, s, o)
    ensures DomainOk(monitored, t, o.d)
  {
    var sc := ScraperOf(s, o.d);
    assert sc.alerts[..sc.next] == sc.alerts;
    assert PutSoFar(t, o.d) == PutSoFar(s, o.d);
    forall k | Own(monitored, o.d, k) ensures KeyOk(t.objs, t.lost, PutSoFar(t, o.d), Stale(t, o.d), k) {
      assert KeyOk(s.objs, s.lost, PutSoFar(s, o.d), Stale(s, o.d), k);
    }
  }

  lemma OwnDrop(monitored: Labels -> bool, s: CacheState, o: Operation, t: CacheState)
    requires o.DropOne? && DomainOk(monitored, s, o.d) && Enabled(monitored, s, o) && t == Apply(monitored, s, o)
    ensures DomainOk(monitored, t, o.d)
  {
    assert PutSoFar(t, o.d) == PutSoFar(s, o.d);
    forall k | Own(monitored, o.d, k) ensures KeyOk(t.objs, t.lost, PutSoFar(t, o.d), Stale(t, o.d), k) {
      assert KeyOk(s.objs, s.lost, PutSoFar(s, o.d), Stale(s, o.d), k);
    }
  }

  lemma OwnEnd(monitored: Labels -> bool, s: CacheState, o: Operation, t: CacheState)
    requires o.EndScrape? && DomainOk(monitored, s, o.d) && Enabled(monitored, s, o) && t == Apply(monitored, s, o)
    ensures DomainOk(monitored, t, o.d)
  {
    assert PutSoFar(t, o.d) == PutSoFar(s, o.d) && Stale(t, o.d) == Stale(s, o.d);
    forall k | Own(monitored, o.d, k) ensures KeyOk(t.objs, t.lost, PutSoFar(t, o.d), Stale(t, o.d), k) {
      assert KeyOk(s.objs, s.lost, PutSoFar(s, o.d), Stale(s, o.d), k);
    }
  }

  lemma OwnScrapeKeeps(monitored: Labels -> bool, s: CacheState, o: Operation, t: CacheState, d: Domain)
    requires DomainOk(monitored, s, d) && Enabled(monitored, s, o) && t == Apply(monitored, s, o) && ScrapeOf(o, d)
    ensures DomainOk(monitored, t, d)
  {
    hide DomainOk, Apply, Enabled;
    match o
    case BeginScrape(_, _) => OwnBegin(monitored, s, o, t);
    case PutNext(_) => OwnPut(monitored, s, o, t);
    case Prune(_) => OwnPrune(monitored, s, o, t);
    case DropOne(_, _) => OwnDrop(monitored, s, o, t);
    case EndScrape(_) => OwnEnd(monitored, s, o, t);
  }

  /** The one key a put or a drop changes is not the other domain's. */
  lemma OtherPut(monitored: Labels -> bool, s: CacheState, o: Operation, t: CacheState, d: Domain)
    requires o.PutNext? && o.d != d && DomainOk(monitored, s, o.d) && Enabled(monitored, s, o)
      && t == Apply(monitored, s, o)
    ensures exists k :: TouchesOnly(s, t, k) && !Own(monitored, d, k)
    ensures ScraperOf(t, d) == ScraperOf(s, d) && Returned(t, d) == Returned(s, d)
  {
    var sc := ScraperOf(s, o.d);
    var k := sc.alerts[sc.next].labels;
    assert sc.alerts[sc.next] in sc.alerts;
    if Own(monitored, d, k) { DomainsDisjoint(monitored, d, o.d, k); }
    assert TouchesOnly(s, t, k);
  }

  lemma OtherDrop(monitored: Labels -> bool, s: CacheState, o: Operation, t: CacheState, d: Domain)
    requires o.DropOne? && o.d != d && DomainOk(monitored, s, o.d) && Enabled(monitored, s, o)
      && t == Apply(monitored, s, o)
    ensures TouchesOnly(s, t, o.k) && !Own(monitored, d, o.k)
    ensures ScraperOf(t, d) == ScraperOf(s, d) && Returned(t, d) == Returned(s, d)
  {
    assert InDomain(monitored, o.d, o.k);
    if Own(monitored, d, o.k) { DomainsDisjoint(monitored, d, o.d, o.k); }
  }

  lemma OtherLocal(monitored: Labels -> bool, s: CacheState, o: Operation, t: CacheState, d: Domain)
    requires Enabled(monitored, s, o) && t == Apply(monitored, s, o)
    requires (o.BeginScrape? || o.Prune? || o.EndScrape?) && o.d != d
    ensures t.objs == s.objs && t.lost == s.lost && ScraperOf(t, d) == ScraperOf(s, d)
      && Returned(t, d) == Returned(s, d)
  {
  }

  /** Another domain's scraper puts and drops only keys of its own domain. */
  lemma OtherScrapeKeeps(monitored: Labels -> bool, s: CacheState, o: Operation, t: CacheState, d: Domain,
      other: Domain)
    requires DomainOk(monitored, s, d) && DomainOk(monitored, s, other) && d != other
    requires Enabled(monitored, s, o) && t == Apply(monitored, s, o) && ScrapeOf(o, other)
    ensures DomainOk(monitored, t, d)
  {
    hide DomainOk, Apply, Enabled, TouchesOnly, Own;
    if o.PutNext? {
      OtherPut(monitored, s, o, t, d);
      var k :| TouchesOnly(s, t, k) && !Own(monitored, d, k);
      OtherKeyHarmless(monitored, s, t, d, k);
    } else if o.DropOne? {
      OtherDrop(monitored, s, o, t, d);
      OtherKeyHarmless(monitored, s, t, d, o.k);
    } else {
      OtherLocal(monitored, s, o, t, d);
      UntouchedHarmless(monitored, s, t, d);
    }
  }

  /** An autoscaler's steps change at most its own alert, which is no domain's. */
  lemma AutoscalerShape(monitored: Labels -> bool, s: CacheState, o: Operation, t: CacheState, d: Domain)
    requires Enabled(monitored, s, o) && t == Apply(monitored, s, o) && (o.RaiseAlert? || o.ClearAlert?)
    ensures TouchesOnly(s, t, ScaleKey(o.key, o.region)) && !Own(monitored, d, ScaleKey(o.key, o.region))
    ensures ScraperOf(t, d) == ScraperOf(s, d) && Returned(t, d) == Returned(s, d)
  {
  }

  lemma FlushShape(monitored: Labels -> bool, s: CacheState, o: Operation, t: CacheState, d: Domain)
    requires Enabled(monitored, s, o) && t == Apply(monitored, s, o) && o.FlushOne?
    ensures TouchesOnly(s, t, o.k) && o.k !in t.objs && o.k in t.lost
    ensures ScraperOf(t, d) == ScraperOf(s, d) && Returned(t, d) == Returned(s, d)
  {
    hide NamesCluster;
  }

  lemma QuietShape(monitored: Labels -> bool, s: CacheState, o: Operation, t: CacheState, d: Domain)
    requires Enabled(monitored, s, o) && t == Apply(monitored, s, o) && (o.SetFlag? || o.BeginFlush?)
    ensures t.objs == s.objs && t.lost == s.lost
    ensures ScraperOf(t, d) == ScraperOf(s, d) && Returned(t, d) == Returned(s, d)
  {
    hide NamesCluster;
  }

  lemma OtherOperationKeeps(monitored: Labels -> bool, s: CacheState, o: Operation, t: CacheState, d: Domain)
    requires DomainOk(monitored, s, d) && Enabled(monitored, s, o) && t == Apply(monitored, s, o)
    requires o.RaiseAlert? || o.ClearAlert? || o.SetFlag? || o.BeginFlush? || o.FlushOne?
    ensures DomainOk(monitored, t, d)
  {
    hide DomainOk, Enabled, Apply, TouchesOnly, ScraperOf, Returned, Own, ScaleKey;
    if o.SetFlag? || o.BeginFlush? {
      QuietShape(monitored, s, o, t, d);
      UntouchedHarmless(monitored, s, t, d);
    } else if o.FlushOne? {
      FlushShape(monitored, s, o, t, d);
      OtherKeyHarmless(monitored, s, t, d, o.k);
    } else {
      AutoscalerShape(monitored, s, o, t, d);
      OtherKeyHarmless(monitored, s, t, d, ScaleKey(o.key, o.region));
    }
  }

  lemma FlagsKeep(monitored: Labels -> bool, s: CacheState, o: Operation, t: CacheState, k: Labels)
    requires Inv(monitored, s) && Enabled(monitored, s, o) && t == Apply(monitored, s, o) && IsAutoScale(k)
    ensures FlagOk(t, k)
  {
    assert FlagOk(s, k);
    if o.PutNext? {
      var sc := ScraperOf(s, o.d);
      assert DomainOk(monitored, s, o.d) && sc.alerts[sc.next] in sc.alerts;
    }
  }

  lemma StepKeeps(monitored: Labels -> bool, s: CacheState, o: Operation, t: CacheState)
    requires Inv(monitored, s) && Enabled(monitored, s, o) && t == Apply(monitored, s, o)
    ensures Inv(monitored, t)
  {
    hide DomainOk, FlagOk, Apply, Enabled;
    forall d ensures DomainOk(monitored, t, d) {
      if ScrapeOf(o, d) {
        OwnScrapeKeeps(monitored, s, o, t, d);
      } else if o.BeginScrape? || o.PutNext? || o.Prune? || o.DropOne? || o.EndScrape? {
        OtherScrapeKeeps(monitored, s, o, t, d, o.d);
      } else {
        OtherOperationKeeps(monitored, s, o, t, d);
      }
    }
    forall k | IsAutoScale(k) ensures FlagOk(t, k) {
      FlagsKeep(monitored, s, o, t, k);
    }
  }

  lemma {:induction false} RunKeeps(monitored: Labels -> bool, os: seq<Operation>, ss: seq<CacheState>, n: nat)
    requires IsRun(monitored, os, ss) && n < |ss|
    ensures Inv(monitored, ss[n])
    decreases n
  {
    if n == 0 {
      assert forall d :: PutSoFar(EMPTY, d) == map[] && Stale(EMPTY, d) == {};
    } else {
      hide Inv, Apply, Enabled;
      RunKeeps(monitored, os, ss, n - 1);
      StepKeeps(monitored, ss[n - 1], os[n - 1], ss[n]);
    }
  }

  // ---------------------------------------------------------------------------------------------
  // What holds in every run
  // ---------------------------------------------------------------------------------------------

  /**
   Over any interleaving, while a domain's scraper is idle its slice of the cache is exactly its last
   successful scrape, but for alerts flushed since.
   */
  lemma SliceIsLastScrape(monitored: Labels -> bool, os: seq<Operation>, ss: seq<CacheState>, n: nat, d: Domain)
    requires IsRun(monitored, os, ss) && n < |ss| && ScraperOf(ss[n], d).Idle?
    ensures Slice(monitored, ss[n].objs, d) == map k | k in Returned(ss[n], d) && k !in ss[n].lost ::
      Returned(ss[n], d)[k]
  {
    RunKeeps(monitored, os, ss, n);
    var s := ss[n];
    assert DomainOk(monitored, s, d) && PutSoFar(s, d) == Returned(s, d) && Stale(s, d) == {};
    forall k | Own(monitored, d, k)
      ensures k in s.objs <==> k in Returned(s, d) && k !in s.lost
      ensures k in s.objs ==> s.objs[k] == Returned(s, d)[k]
    {
      assert KeyOk(s.objs, s.lost, Returned(s, d), {}, k);
    }
  }

  /**
   Over any interleaving, an autoscale alert is there iff its flag is set, once its autoscaler's step is
   complete, unless it was flushed.
   */
  lemma AutoScaleAlertTracksFlag(monitored: Labels -> bool, os: seq<Operation>, ss: seq<CacheState>, n: nat, k: Labels)
    requires IsRun(monitored, os, ss) && n < |ss| && IsAutoScale(k) && k !in ss[n].setting
    ensures k in ss[n].objs <==> k in ss[n].inProgress && k !in ss[n].lost
  {
    RunKeeps(monitored, os, ss, n);
    assert FlagOk(ss[n], k);
  }

  /** A flush only holds keys that name its cluster. */
  ghost predicate FlushesOk(flushes: map<ClusterInstKey, set<Labels>>) {
    forall key :: key in flushes ==> forall k :: k in flushes[key] ==> NamesCluster(k, key)
  }

  lemma FlushesKeep(monitored: Labels -> bool, s: CacheState, o: Operation, t: CacheState)
    requires FlushesOk(s.flushes) && Enabled(monitored, s, o) && t == Apply(monitored, s, o)
    ensures FlushesOk(t.flushes)
    ensures forall k :: k in t.lost && k !in s.lost ==> o.FlushOne? && o.k == k && NamesCluster(k, o.key)
  {
    hide NamesCluster;
  }

  /** Only a flush of a cluster that the key names loses it. */
  lemma {:induction false} LostByFlush(monitored: Labels -> bool, os: seq<Operation>, ss: seq<CacheState>, n: nat,
      k: Labels)
    requires IsRun(monitored, os, ss) && n < |ss|
    ensures FlushesOk(ss[n].flushes)
    ensures k in ss[n].lost ==> exists i :: 0 <= i < n && os[i].FlushOne? && os[i].k == k && NamesCluster(k, os[i].key)
    decreases n
  {
    hide Apply, Enabled, FlushesOk, NamesCluster;
    if n == 0 {
      NothingFlushed();
    } else {
      LostByFlush(monitored, os, ss, n - 1, k);
      FlushesKeep(monitored, ss[n - 1], os[n - 1], ss[n]);
    }
  }

  lemma NothingFlushed()
    ensures FlushesOk(EMPTY.flushes) && EMPTY.lost == {}
  {
  }
}
