/** RetryTracker: black-lists App+Cloudlet pairs whose last min/max deployment failed, until the next retry. */
module RetryTracker {
  import opened Keys
  import AppChecker

  /** The outcomes of a Controller call that ignoreDeployError tells apart. */
  datatype DeployResult =
    | Success
    | BeingCreated | BeingDeleted | AlreadyExists | MinAlreadyMet | AppBeingDeleted
    | OtherError(message: string)

  predicate IgnoreDeployError(r: DeployResult) {
    !r.OtherError?
  }

  /** Tracking is cluster agnostic: the key without the cluster's name and organization. */
  function Blank(key: AppInstKey): AppInstKey {
    key.(clusterInstKey := key.clusterInstKey.(organization := "", clusterName := ""))
  }

  function LookupKey(app: AppKey, cloudlet: CloudletKey): AppInstKey {
    AppInstKey(app, ClusterInstKey("", cloudlet, ""))
  }

  function Registered(failures: set<AppInstKey>, key: AppInstKey, r: DeployResult): set<AppInstKey> {
    if IgnoreDeployError(r) then failures - {Blank(key)} else failures + {Blank(key)}
  }

  class RetryTracker {
    var allFailures: set<AppInstKey>

    constructor ()
      ensures allFailures == {}
    {
      allFailures := {};
    }

    method RegisterDeployResult(key: AppInstKey, r: DeployResult)
      modifies this
      ensures allFailures == Registered(old(allFailures), key, r)
    {
      var lookup := key;
      lookup := lookup.(clusterInstKey := lookup.clusterInstKey.(organization := ""));
      lookup := lookup.(clusterInstKey := lookup.clusterInstKey.(clusterName := ""));
      if IgnoreDeployError(r) {
        allFailures := allFailures - {lookup};
        return;
      }
      allFailures := allFailures + {lookup};
    }

    /** Forgets every failure; returns the Apps marked to be checked again, which are those that had one. */
    method DoRetry() returns (retried: set<AppKey>)
      modifies this
      ensures allFailures == {}
      ensures retried == set k | k in old(allFailures) :: k.appKey
    {
      retried := {};
      ghost var seen := {};
      while allFailures != {}
        invariant seen + allFailures == old(allFailures)
        invariant retried == set k | k in seen :: k.appKey
        decreases allFailures
      {
        var k :| k in allFailures;
        allFailures := allFailures - {k};
        retried := retried + {k.appKey};
        seen := seen + {k};
      }
      assert seen == old(allFailures);
    }

    method HasFailure(app: AppKey, cloudlet: CloudletKey) returns (found: bool)
      ensures found <==> LookupKey(app, cloudlet) in allFailures
    {
      var key := LookupKey(app, cloudlet);
      found := key in allFailures;
    }
  }

  // ---------------------------------------------------------------------------------------------
  // Histories
  // ---------------------------------------------------------------------------------------------

  /** A Controller call returned (only min/max calls are registered), or the retry interval came round. */
  datatype Event = Result(key: AppInstKey, minMax: bool, result: DeployResult) | Retry

  function After(es: seq<Event>): set<AppInstKey> {
    if es == [] then {}
    else
      var before := After(es[..|es| - 1]);
      match es[|es| - 1]
      case Result(key, minMax, r) => if minMax then Registered(before, key, r) else before
      case Retry => {}
  }

  /** The event is a min/max result for the App on the cloudlet, in whatever cluster. */
  predicate About(e: Event, app: AppKey, cloudlet: CloudletKey) {
    e.Result? && e.minMax && e.key.appKey == app && e.key.clusterInstKey.cloudletKey == cloudlet
  }

  /** Event i is the latest one about the pair, with no retry since. */
  ghost predicate LatestAbout(es: seq<Event>, i: nat, app: AppKey, cloudlet: CloudletKey) {
    && i < |es| && About(es[i], app, cloudlet)
    && forall j :: i < j < |es| ==> es[j] != Retry && !About(es[j], app, cloudlet)
  }

  /** A pair is black-listed exactly if its latest min/max result since the last retry was a real error. */
  lemma {:induction false} FailureMeansLatestFailed(es: seq<Event>, app: AppKey, cloudlet: CloudletKey)
    ensures LookupKey(app, cloudlet) in After(es) <==>
      exists i: nat :: LatestAbout(es, i, app, cloudlet) && !IgnoreDeployError(es[i].result)
    decreases |es|
  {
    if es != [] {
      var n := |es| - 1;
      var front, e := es[..n], es[n];
      FailureMeansLatestFailed(front, app, cloudlet);
      if About(e, app, cloudlet) {
        assert Blank(e.key) == LookupKey(app, cloudlet);
        assert LatestAbout(es, n, app, cloudlet);
        assert About(es[n], app, cloudlet);
        assert forall i: nat :: LatestAbout(es, i, app, cloudlet) ==> i == n;
      } else if e == Retry {
        forall i: nat ensures !LatestAbout(es, i, app, cloudlet) {
        }
      } else {
        forall i: nat ensures LatestAbout(es, i, app, cloudlet) <==> LatestAbout(front, i, app, cloudlet) {
          if LatestAbout(front, i, app, cloudlet) {
            assert es[i] == front[i];
          }
          if LatestAbout(es, i, app, cloudlet) {
            assert i < n;
            forall j | i < j < |front| ensures front[j] != Retry && !About(front[j], app, cloudlet)
            {
              assert front[j] == es[j];
            }
          }
        }
        assert forall i: nat :: LatestAbout(front, i, app, cloudlet) ==> es[i] == front[i];
      }
    }
  }

  /**
   A pass that reads the tracker never plans a site whose latest min/max result since the last retry was a
   real error.
   */
  lemma NeverOffered(es: seq<Event>, app: AppKey, caches: AppChecker.Caches, name: string, p: AppChecker.Policy,
      plan: AppChecker.CreatePlan, i: nat, x: nat)
    requires forall c :: c in p.cloudlets ==> (c in caches.failed <==> LookupKey(app, c) in After(es))
    requires AppChecker.PlansShortfall(caches, name, p, plan) && i < |plan.sites|
    requires LatestAbout(es, x, app, plan.sites[i].cloudletKey)
    ensures IgnoreDeployError(es[x].result)
  {
    FailureMeansLatestFailed(es, app, plan.sites[i].cloudletKey);
  }
}
