/**
 The alert cache that cluster scrapers, the cloudlet scraper and the cluster autoscaler share.
 Which alert names count as monitored is decided by code that is not part of this model: it is a parameter.
 */
module AlertCache {
  import opened Keys
  import opened Autoscale
  import opened Options

  type Labels = map<string, string>

  const LABEL_APP := "label_mexAppName"
  const LABEL_JOB := "job"

  /** Who scrapes: the worker of one cluster, or the cloudlet worker. */
  datatype Domain = OfCluster(key: ClusterInstKey) | OfCloudlet

  /** The four labels that name a cluster instance. */
  predicate NamesCluster(labels: Labels, key: ClusterInstKey) {
    && Get(labels, TAG_ORG) == key.organization
    && Get(labels, TAG_CLOUDLET_ORG) == key.cloudletKey.organization
    && Get(labels, TAG_CLOUDLET) == key.cloudletKey.name
    && Get(labels, TAG_CLUSTER) == key.clusterName
  }

  /** isClusterMonitoredUserAlert and isCloudletMonitoredUserAlert. */
  predicate ClusterMonitored(monitored: Labels -> bool, labels: Labels) {
    monitored(labels) && LABEL_APP in labels
  }

  predicate CloudletMonitored(monitored: Labels -> bool, labels: Labels) {
    monitored(labels) && LABEL_APP !in labels
  }

  /** The keys that a scraper's prune function leaves for it. */
  predicate InDomain(monitored: Labels -> bool, d: Domain, labels: Labels) {
    match d
    case OfCluster(key) => ClusterMonitored(monitored, labels) && LABEL_JOB !in labels && NamesCluster(labels, key)
    case OfCloudlet => CloudletMonitored(monitored, labels)
  }

  predicate IsAutoScale(labels: Labels) {
    Get(labels, "alertname") == ALERT_CLUSTER_AUTOSCALE
  }

  /** A scraper's own alerts: its domain, autoscale alerts aside. */
  predicate Own(monitored: Labels -> bool, d: Domain, labels: Labels) {
    InDomain(monitored, d, labels) && !IsAutoScale(labels)
  }

  /** Domains do not overlap. */
  lemma DomainsDisjoint(monitored: Labels -> bool, d1: Domain, d2: Domain, labels: Labels)
    requires InDomain(monitored, d1, labels) && InDomain(monitored, d2, labels)
    ensures d1 == d2
  {
  }

  /** A list of alerts as the cache stores it: a later alert with the same labels replaces an earlier one. */
  function AsMap(alerts: seq<Alert>): (m: map<Labels, Alert>)
    ensures forall a :: a in alerts ==> a.labels in m
    ensures forall k :: k in m ==> m[k] in alerts && m[k].labels == k
  {
    if alerts == [] then map[]
    else
      var last := alerts[|alerts| - 1];
      assert alerts == alerts[..|alerts| - 1] + [last];
      AsMap(alerts[..|alerts| - 1])[last.labels := last]
  }

  lemma AsMapStep(alerts: seq<Alert>, i: nat)
    requires i < |alerts|
    ensures AsMap(alerts[..i + 1]) == AsMap(alerts[..i])[alerts[i].labels := alerts[i]]
  {
    assert alerts[..i + 1][..i] == alerts[..i];
  }

  lemma MergeOne<K, V>(base: map<K, V>, put: map<K, V>, k: K, v: V)
    ensures (base + put)[k := v] == base + put[k := v]
    ensures base.Keys - put.Keys - {k} == base.Keys - put[k := v].Keys
  {
  }

  /** The cache after a successful scrape. */
  function AfterScrape(monitored: Labels -> bool, objs: map<Labels, Alert>, d: Domain, alerts: seq<Alert>)
      : map<Labels, Alert>
  {
    (map k | k in objs && !Own(monitored, d, k) :: objs[k]) + AsMap(alerts)
  }

  class AlertCache {
    const monitored: Labels -> bool
    var objs: map<Labels, Alert>

    constructor (monitored: Labels -> bool)
      ensures this.monitored == monitored && objs == map[]
    {
      this.monitored := monitored;
      objs := map[];
    }

    /** Lines 38-61: keeps the keys the cluster's worker is responsible for. */
    method PruneClusterForeignAlerts(key: ClusterInstKey, all: set<Labels>) returns (keys: set<Labels>)
      ensures keys == set k | k in all && InDomain(monitored, OfCluster(key), k)
    {
      keys := all;
      var rest := all;
      while rest != {}
        invariant rest <= all
        invariant keys == set k | k in all && (k in rest || InDomain(monitored, OfCluster(key), k))
        decreases rest
      {
        var k :| k in rest;
        rest := rest - {k};
        if !ClusterMonitored(monitored, k) {
          keys := keys - {k};
          continue;
        }
        if LABEL_JOB in k || !NamesCluster(k, key) {
          keys := keys - {k};
        }
      }
    }

    /** Lines 87-96. */
    method PruneCloudletForeignAlerts(all: set<Labels>) returns (keys: set<Labels>)
      ensures keys == set k | k in all && InDomain(monitored, OfCloudlet, k)
    {
      keys := all;
      var rest := all;
      while rest != {}
        invariant rest <= all
        invariant keys == set k | k in all && (k in rest || InDomain(monitored, OfCloudlet, k))
        decreases rest
      {
        var k :| k in rest;
        rest := rest - {k};
        if !CloudletMonitored(monitored, k) {
          keys := keys - {k};
        }
      }
    }

    /** Lines 109-127: put every submitted alert, and take its key off the stale list. */
    method PutAll(alerts: seq<Alert>) returns (stale: set<Labels>)
      modifies this
      ensures objs == old(objs) + AsMap(alerts)
      ensures stale == old(objs).Keys - AsMap(alerts).Keys
    {
      stale := objs.Keys;
      ghost var put: map<Labels, Alert> := map[];
      for i := 0 to |alerts|
        invariant put == AsMap(alerts[..i])
        invariant objs == old(objs) + put
        invariant stale == old(objs).Keys - put.Keys
      {
        AsMapStep(alerts, i);
        MergeOne(old(objs), put, alerts[i].labels, alerts[i]);
        put := put[alerts[i].labels := alerts[i]];
        PutOne(alerts[i]);
        stale := stale - {alerts[i].labels};
      }
      assert alerts[..|alerts|] == alerts;
    }

    /** Lines 112-125: nothing is written if nothing changed. */
    method PutOne(alert: Alert)
      modifies this
      ensures objs == old(objs)[alert.labels := alert]
    {
      if alert.labels !in objs || objs[alert.labels] != alert {
        objs := objs[alert.labels := alert];
      }
    }

    /** UpdateAlerts. No list means the scrape failed. */
    method UpdateAlerts(alerts: Option<seq<Alert>>, d: Domain)
      modifies this
      ensures alerts == None ==> objs == old(objs)
      ensures alerts.Some? ==> objs == AfterScrape(monitored, old(objs), d, alerts.value)
    {
      if alerts == None {
        return;
      }
      var stale := PutAll(alerts.value);
      match d {
        case OfCluster(key) => stale := PruneClusterForeignAlerts(key, stale);
        case OfCloudlet => stale := PruneCloudletForeignAlerts(stale);
      }
      ghost var put := AsMap(alerts.value);
      assert forall k :: k in stale <==> k in old(objs) && k !in put && InDomain(monitored, d, k);
      DeleteStale(stale);
      assert objs.Keys == AfterScrape(monitored, old(objs), d, alerts.value).Keys;
    }

    /** Lines 130-141. */
    method DeleteStale(stale: set<Labels>)
      modifies this
      ensures objs == map k | k in old(objs) && (k !in stale || IsAutoScale(k)) :: old(objs)[k]
    {
      var rest := stale;
      while rest != {}
        invariant rest <= stale
        invariant objs == map k | k in old(objs) && (k !in stale || k in rest || IsAutoScale(k)) :: old(objs)[k]
        decreases rest
      {
        var k :| k in rest;
        rest := rest - {k};
        if IsAutoScale(k) {
          continue;
        }
        objs := objs - {k};
      }
    }

    /** flushAlerts: collect, then delete, everything that carries the cluster's labels. */
    method FlushAlerts(key: ClusterInstKey)
      modifies this
      ensures objs == AfterFlush(old(objs), key)
    {
      var toflush: seq<Labels> := [];
      var rest := objs.Keys;
      while rest != {}
        invariant rest <= objs.Keys && objs == old(objs)
        invariant forall k :: k in toflush <==> k in objs && k !in rest && NamesCluster(k, key)
        decreases rest
      {
        var k :| k in rest;
        rest := rest - {k};
        if NamesCluster(k, key) {
          toflush := toflush + [k];
        }
      }
      for i := 0 to |toflush|
        invariant objs == map k | k in old(objs) && k !in toflush[..i] :: old(objs)[k]
      {
        assert toflush[..i + 1] == toflush[..i] + [toflush[i]];
        objs := objs - {toflush[i]};
      }
      assert toflush[..|toflush|] == toflush;
    }
  }

  // ---------------------------------------------------------------------------------------------
  // Slices of the cache
  // ---------------------------------------------------------------------------------------------

  /** What the cache holds for a domain. */
  function Slice(monitored: Labels -> bool, objs: map<Labels, Alert>, d: Domain): map<Labels, Alert> {
    map k | k in objs && Own(monitored, d, k) :: objs[k]
  }

  /** The cache after flushing a deleted cluster. */
  function AfterFlush(objs: map<Labels, Alert>, key: ClusterInstKey): map<Labels, Alert> {
    map k | k in objs && !NamesCluster(k, key) :: objs[k]
  }

  /** Some alert of the domain in the cache carries the cluster's four labels. */
  ghost predicate HasAlertNaming(monitored: Labels -> bool, objs: map<Labels, Alert>, d: Domain, key: ClusterInstKey) {
    exists k :: k in objs && Own(monitored, d, k) && NamesCluster(k, key)
  }

  /**
   Flushing a deleted cluster never touches the slice of another cluster and empties its own, but it is
   not confined to it: the cloudlet's slice stays exactly if no cloudlet alert in the cache carries the
   cluster's four labels.
   */
  lemma FlushExactly(monitored: Labels -> bool, objs: map<Labels, Alert>, key: ClusterInstKey, d: Domain)
    ensures d.OfCluster? && d.key != key ==> Slice(monitored, AfterFlush(objs, key), d) == Slice(monitored, objs, d)
    ensures d == OfCluster(key) ==> Slice(monitored, AfterFlush(objs, key), d) == map[]
    ensures d == OfCloudlet ==>
      (Slice(monitored, AfterFlush(objs, key), d) == Slice(monitored, objs, d) <==>
        !HasAlertNaming(monitored, objs, d, key))
  {
    if d == OfCloudlet && HasAlertNaming(monitored, objs, d, key) {
      var k :| k in objs && Own(monitored, d, k) && NamesCluster(k, key);
      assert k in Slice(monitored, objs, d) && k !in Slice(monitored, AfterFlush(objs, key), d);
    }
  }

  /** A cloudlet alert with the cluster's four labels, and nothing else, is flushed with the cluster. */
  lemma FlushTakesCloudletAlert(key: ClusterInstKey, alert: Alert)
    requires alert.labels == map[TAG_ORG := key.organization, TAG_CLUSTER := key.clusterName,
                                 TAG_CLOUDLET := key.cloudletKey.name, TAG_CLOUDLET_ORG := key.cloudletKey.organization]
    ensures var monitored, objs := (l: Labels) => true, map[alert.labels := alert];
      Slice(monitored, objs, OfCloudlet) == objs && Slice(monitored, AfterFlush(objs, key), OfCloudlet) == map[]
  {
    var monitored, objs := (l: Labels) => true, map[alert.labels := alert];
    assert Own(monitored, OfCloudlet, alert.labels) && NamesCluster(alert.labels, key);
  }
}
