# Edge cloud infrastructure: verified model

This project models the stateful parts of the infrastructure repository and proves what they are for.
`dafny verify dfyconfig.toml` checks everything.

* **Auto-provisioning** (`autoprov/`). A maintenance failover is a protocol between cloudlet updates, App
  checks, create workers that share one cursor over the sites, and repliers that wait for the workers.
  `FailoverProtocol` is a step system with one event per critical section; `FailoverInvariant`,
  `FailoverSteps` and `FailoverWorkers` prove an invariant of every step; `FailoverTheorems` and
  `FailoverProgress` prove safety, termination, absence of deadlock and what decides the reply, for every
  interleaving; `FailoverReplies` says exactly when a DONE goes out. `FailoverObjects` has the heap objects;
  queueing, collecting and finishing requests, noting errors and completions, counting calls, handing out
  sites and replying are proved to take the protocol's steps. `AppChecker` and `CreateOrder` are one check of
  an App, `SameSite` what two of its passes may do to one cloudlet, `Aggregator`, `AggregatorHistory` and
  `AggregatorMarks` the demand counters and their meaning over whole histories, `RetryTracker` the black list.
* **Cluster autoscaling** (`shepherd/`, `autoprov/autoscale.go`). `Autoscale` closes the loop between the
  check that raises an alert and the consumer that applies it; `AlertCache` is the cache that the scrapers
  and the autoscaler share, `AlertCacheRuns` that cache under any interleaving of single operations,
  `AlertCacheAlone` those operations against the methods.
* **Orchestration** (`vmlayer/`). `ClusterUpdate` and `ClusterNames` reconcile a cluster's nodes, VMs, Chef
  clients and master taints, `ClusterRuns` has updates from concrete clusters; `Orchestration`,
  `OrchestrationIds` and `OrchestrationOctets` compile a group request into resources that refer to each other.
* **Network kernels** (`infracommon/`, `vmlayer/iptables.go`). `Iptables`, `IptablesHost` and `RootLBRules`
  keep labelled firewall rules, `IptablesPackets` says what entries mean and `IptablesChains` what whole chains
  let through; `IpRanges` enumerates address ranges; `DomainName` scans names; `Loopback` derives loopback addresses.
* `Keys`, `Options`, `Numbers`, `Strings` and `Seqs` hold shared types and facts.

"Lines n-m" in a comment means the file the module models.

Assumptions about code that is not part of this model. `tasks.KeyWorkers` runs one job per key at a time and
runs a key again that was marked meanwhile. `getNext` is one atomic step: the mutex beside the cursor is
declared but not taken (autoprov/autoprov_minmax.go:427-440). Caches do not change during one `Check`. The
cloudlets of one policy are distinct. `sort.Slice` is any function that returns a rearrangement without an
adjacent pair out of order. Maps are iterated in any order. Controller calls succeed, fail ignorably or
really fail, as they please. Shell commands may fail at any point. Alerts with the same key match when equal.
`net.ParseCIDR` and `strconv.Atoi` of annotations are parameters; `IPNet.Contains` holds of no IPv4-mapped
address in a larger IPv6 network. kubectl lists the masters in one order. The values of label tags, node
prefixes and alert names that are defined in other repositories are placeholders; which alert names count as
monitored is a parameter.

Integers are unbounded except where the source's width matters: client counts are uint64 and wrap, node
numbers read from names and the wanted node count are cut to uint32, address bytes wrap. `intervalNum` and
`deployIntervalsMet` are unbounded. Floating-point loads and targets are reals.

Where a claim one might expect is false of the code, the code is kept and the exact condition is proved, with
inputs for which the claim fails in brackets: `DoneWhileQueuedExactly` (`DoneWhileQueued`, `LateDone`),
`PastMaxExactly` (`PastMaxHappens`), `SameSiteExactly` (`SameSiteHappens`), `FallingCounts` (`FallingHappens`),
`CountedExactly` and `ReinitBreaksStreak` (`ReinitAtOnceFails`, `ReinitLateFails`), `DemandExactly`,
`StaleAlertExactly` with `ZeroLoadFreezes`, `ScaleDownExactly`, `FlushExactly` (`FlushTakesCloudletAlert`),
`Cluster.Update` with `FromInStep`, `StrandsFromInStep` and `TaintsFitExactly` (`GapStaysOutOfStep`,
`GapStrandsForGood`, `GapStrandsOnTheWay`, `RetryStaysOutOfStep`, `SurplusMasterStrands`,
`SecondMasterUntainted`), `RouterIdExactly` and `SubnetIdsExactly` (`IdsNeedNotAgree`, `NodeOnOldSubnet`),
`AddedNoDup`, `ClearedExactly`, `RestoredExactly`, `OthersKeptExactly`, `ClashExactly`,
`EnumerationEndsExactly`, `BetweenExactly` (`CutOffHappens`).

The comment of `GetUniqueLoopbackIp` says the address comes from the highest UDP port when that is higher; the
code counts every protocol that is not TCP there, and so does the model.

## Model

| member | source | states |
|---|---|---|
| `FailoverTheorems.StepKeeps` | autoprov/autoprov_minmax.go:159-330 | Every event of the protocol, in whatever state that satisfies it, keeps the invariant: table, requests, jobs, passes, workers, wait counts and replies agree. |
| `FailoverTheorems.RunKeeps` | autoprov/autoprov_minmax.go:159-330 | Every state of every run, under any interleaving of cloudlet updates, App checks, create workers and repliers, satisfies the invariant. |
| `FailoverTheorems.ReplySafety` | autoprov/autoprov_minmax.go:283-330 | In every run a queued request is answered at most once; by then every App ever added to it has been through a Check with it attached and no create call charged to it is outstanding; the answer is DONE iff no error was recorded; and a request is in the table iff it still has an App to check. |
| `FailoverTheorems.AnsweredIsFinal` | autoprov/autoprov_minmax.go:306-329 | No event changes a request once it has been answered: no late error, completion, wait count or second reply. |
| `FailoverTheorems.CursorSafety` | autoprov/autoprov_minmax.go:527-582 | In every run the sites of a pass are handed out in list order, each at most once; a worker gets another site only after a real failure; successes never exceed workers, and workers never exceed max(0, min - online). |
| `FailoverTheorems.AllStoppedOutcome` | autoprov/autoprov_minmax.go:539-582 | When all workers of a pass have stopped, each has succeeded or was told to ignore an error, or every site was tried. |
| `FailoverTheorems.DoneMeansFilled` | autoprov/autoprov_minmax.go:501-582 | A FAILOVER_DONE reply means that every pass run for the request had exactly max(0, min - online) workers, each of which ended on its only site with success or an ignorable error. |
| `FailoverTheorems.NoDebtorsNoCalls` | autoprov/autoprov_minmax.go:318-319 | A wait count of zero means that no worker charged to the request is still in a call. |
| `FailoverTheorems.AnsweredPassIsOver` | autoprov/autoprov_minmax.go:539-582 | When a request has been answered, every pass run for it has launched all its workers and they have stopped. |
| `FailoverProgress.WorkersStop` | autoprov/autoprov_minmax.go:539-582 | From any point of any run a worker takes at most a bounded number of further steps, however the others are scheduled. |
| `FailoverProgress.NoDeadlock` | autoprov/autoprov_minmax.go:283-330 | A reachable state in which no internal step is possible has no marked App, no running job, no live worker and no unanswered finished request. |
| `FailoverProgress.EveryRequestAnswered` | autoprov/autoprov_minmax.go:180-330 | In every run that has come to rest, every request that was ever queued has had exactly one reply. |
| `FailoverProgress.AnswerDecidedByPasses` | autoprov/autoprov_minmax.go:319-327 | In every run the reply is FAILOVER_ERROR iff some pass run for the request had too few sites or a really failed create, even if a later site took the instance. |
| `FailoverReplies.ImmediateReplyExactly` | autoprov/autoprov_minmax.go:159-193 | A reply goes out on the spot iff the update is a failover request that brings no Apps: no online change, or none affected. |
| `FailoverReplies.DoneWhileQueuedExactly` | autoprov/autoprov_minmax.go:159-330 | In every reachable state and for every event: a DONE goes out for a cloudlet whose request is in the table afterwards iff the cloudlet has a request in the table and the event either is a failover request for it that brings no Apps, or sends the reply of an earlier request for it that recorded no error. |
| `FailoverReplies.DoneWhileQueued` | autoprov/autoprov_minmax.go:166-193 | A run of the first kind: a repeated failover request is answered at once while the first is in the table. |
| `FailoverReplies.LateDone` | autoprov/autoprov_minmax.go:305-327 | A run of the second kind: a new request arrives after the finished one left the table and before its reply, which then says DONE while the new one is unchecked. |
| `FailoverObjects.FailoverReq.AppDone` | autoprov/autoprov_minmax.go:89-99 | Removes the App; true iff it was listed and was the last one, so only once per request. |
| `FailoverObjects.FailoverReq.AddApps` | autoprov/autoprov_minmax.go:202-207 | Merges Apps into a queued request one by one: the union. |
| `FailoverObjects.PotentialCreateSites.GetNext` | autoprov/autoprov_minmax.go:433-440 | Hands out the head of the sites still to come and moves past it; nothing when there are none. |
| `FailoverObjects.TakeSite` | autoprov/autoprov_minmax.go:548-551 | Taking a site from the cursor that mirrors a pass is the protocol's step: the same site is handed to the same worker, which calls with it or stops. |
| `FailoverObjects.MinMaxChecker.HandleFailoverReq` | autoprov/autoprov_minmax.go:180-209 | The heap table, requests and replies take exactly the protocol's step: reply at once, queue, or extend. |
| `FailoverObjects.MinMaxChecker.CollectRequests` | autoprov/autoprov_minmax.go:292-300 | Exactly the requests in the table that list the App, once each, in any order: what the protocol lets a check attach. |
| `FailoverObjects.MinMaxChecker.ReportShortage` | autoprov/autoprov_minmax.go:520-526 | Noting the shortage of sites on a request takes exactly the protocol's step. |
| `FailoverObjects.MinMaxChecker.Charge` | autoprov/autoprov_minmax.go:539-542 | Counting a worker on a request takes exactly the protocol's step. |
| `FailoverObjects.MinMaxChecker.Record` | autoprov/autoprov_minmax.go:558-572 | Noting a worker's success or real failure on a request takes exactly the protocol's step. |
| `FailoverObjects.MinMaxChecker.Release` | autoprov/autoprov_minmax.go:578-580 | Counting a stopped worker off a request takes exactly the protocol's step. |
| `FailoverObjects.MinMaxChecker.Reply` | autoprov/autoprov_minmax.go:315-328 | With a wait count of zero the replier takes exactly the protocol's step. |
| `FailoverObjects.MinMaxChecker.AppDone` | autoprov/autoprov_minmax.go:305-313 | Finishing an App on any request, whether it still lists it or not, takes exactly the protocol's step, including removal from the table. |
| `CreateOrder.StrictWeakOrder` | autoprov/autoprov_minmax.go:611-637 | The comparator is irreflexive, asymmetric and transitive, and ties are transitive, whatever the uint64 differences wrap to. |
| `CreateOrder.NoInversion` | autoprov/autoprov_minmax.go:611-638 | In a list that sort.Slice may return no pair is out of order, however far apart. |
| `CreateOrder.FreeFirstThenDemand` | autoprov/autoprov_minmax.go:611-638 | Sites with a free cluster come first; within each class the last interval's demand never increases. |
| `CreateOrder.SortPossible` | autoprov/autoprov_minmax.go:601-639 | For every list of sites a sorted rearrangement exists, so what is assumed of sort.Slice can be met. |
| `AppChecker.ChooseDelete` | autoprov/autoprov_minmax.go:585-599 | The last `count` candidates, all of them if there are fewer, none for a count of zero or less. |
| `AppChecker.AppChecker.GroupInsts` | autoprov/autoprov_minmax.go:376-389 | Groups the instances so that a cloudlet has an entry iff it holds any, and then exactly those it holds. |
| `AppChecker.AppChecker.ScanInsts` | autoprov/autoprov_minmax.go:480-496 | Counts one cloudlet's instances, those online, and lists its auto-provisioned ones once each. |
| `AppChecker.AppChecker.ScanPolicy` | autoprov/autoprov_minmax.go:450-498 | Total and online counts over the policy's cloudlets; removable instances in cloudlet order, once each; exactly the unoccupied, online, not black-listed cloudlets as create candidates. |
| `AppChecker.AppChecker.ChooseExcess` | autoprov/autoprov_minmax.go:501-504 | Deletes exactly min(total - max, removable) instances when there is a max, none otherwise, taken from the end of the cloudlet list. |
| `AppChecker.AppChecker.PlanCreates` | autoprov/autoprov_minmax.go:517-529 | Wants min - online instances, on all candidates, best first. |
| `AppChecker.AppChecker.CheckPolicy` | autoprov/autoprov_minmax.go:442-583 | One pass: the deletions it starts, the plan it makes, none of both for a policy the cache does not know, and no plan iff the total has reached the max. |
| `AppChecker.AppChecker.CheckPolicies` | autoprov/autoprov_minmax.go:391-395 | All policies of the App, in any order: exactly the passes' deletions and plans, and the union of the found policies' cloudlets. |
| `AppChecker.AppChecker.DeleteOrphans` | autoprov/autoprov_minmax.go:397-412 | Exactly the auto-provisioned instances that no found policy covers are deleted as orphans, once each. |
| `AppChecker.AppChecker.Check` | autoprov/autoprov_minmax.go:358-413 | A whole Check: the passes' deletions and plans, then the orphan deletions; nothing if the App or its refs are not known. |
| `AppChecker.PassKeepsBounds` | autoprov/autoprov_minmax.go:501-583 | A pass never both deletes and creates, never deletes below max, deletes down to max or all it may, and its workers cannot bring the online count past max(online, min), but reach min if there are sites enough. |
| `AppChecker.CreatesOnlyOnGoodSites` | autoprov/autoprov_minmax.go:459-479 | Every planned site is a cloudlet of the policy that is online, holds no instance of the App and is not black-listed; planned sites are distinct, free-cluster ones first. |
| `AppChecker.PastMaxExactly` | autoprov/autoprov_minmax.go:512-527 | If all creates succeed, the total passes max iff total - online > max - min and the policy has more than max - total candidates. |
| `AppChecker.PastMaxHappens` | autoprov/autoprov_minmax.go:512-527 | Caches and a policy with min <= max for which a pass plans creates past the max. |
| `SameSite.SameSiteExactly` | autoprov/autoprov_minmax.go:391-582 | Two passes of one Check both try to create on a cloudlet in some run of the failover protocol iff it is a candidate of both policies and both have fewer online instances than their min. |
| `SameSite.SameSiteHappens` | autoprov/autoprov_minmax.go:391-582 | Two policies over one empty cloudlet for which that happens. |
| `AppChecker.DeletionsDisjoint` | autoprov/autoprov_minmax.go:397-412 | Over a whole Check only auto-provisioned instances are deleted; an orphan deletion happens iff no found policy covers the instance; no instance is deleted both ways. |
| `Aggregator.AutoProvAggr.StepTracker` | autoprov/autoprov_aggr.go:241-268 | One policy's streak for one report: reset after a missed interval, then one more or zero. |
| `Aggregator.AutoProvAggr.StepCloudlet` | autoprov/autoprov_aggr.go:226-271 | One report updates all trackers of the App and the counts of that cloudlet only; deploy iff some policy's streak is long enough. |
| `Aggregator.AutoProvAggr.StepApp` | autoprov/autoprov_aggr.go:224-279 | All reports of an App in any order give the same result as the iteration function; each reporting cloudlet is deployed to at most once, iff some policy wants it. |
| `Aggregator.AutoProvAggr.RunIter` | autoprov/autoprov_aggr.go:211-288 | The whole state after an iteration, and the deploys per App. |
| `Aggregator.AutoProvAggr.RunInit` | autoprov/autoprov_aggr.go:211-291 | The init query changes counts only and gives its interval number back. |
| `Aggregator.AutoProvAggr.UpdateApp` | autoprov/autoprov_aggr.go:313-365 | Trackers of kept policies stay, dropped ones go, gained ones start fresh if the cache knows them; the App goes if it has no policy. |
| `Aggregator.AutoProvAggr.UpdatePolicyTracker` | autoprov/autoprov_aggr.go:367-382 | New thresholds; cloudlets that stay keep their streak, new ones start at zero, others go. |
| `Aggregator.AutoProvAggr.UpdatePolicy` | autoprov/autoprov_aggr.go:384-403 | Every App of the policy's organization that uses it gets the updated tracker, no other App changes. |
| `Aggregator.OneMoreReport` | autoprov/autoprov_aggr.go:240-279 | Reports of different cloudlets do not affect each other, so they may be taken in any order. |
| `AggregatorHistory.CountersAgree` | autoprov/autoprov_aggr.go:211-403 | In every history with non-falling counts and init first, every stored count and counter agrees with the history read without them. |
| `AggregatorHistory.StreakExact` | autoprov/autoprov_aggr.go:249-263 | After an iteration that reported the cloudlet, deployIntervalsMet is the number of latest consecutive intervals since the tracker was made that reported it and grew by at least the threshold then in force. |
| `AggregatorHistory.DeployExact` | autoprov/autoprov_aggr.go:258-279 | An iteration deploys to a reporting cloudlet iff some policy has had as many consecutive good intervals as it asks for. |
| `AggregatorHistory.DemandExactly` | autoprov/autoprov_minmax.go:622-634 | Right after an iteration the demand that sorts create sites is what the cloudlet gained in that iteration, or nothing if it did not report; except that after the very first iteration a cloudlet only the init query knew counts with all its clients. |
| `AggregatorHistory.FallingCounts` | autoprov/autoprov_aggr.go:253-262 | With uint64 counts the growth test is right iff the count did not fall, or fell by more than 2^64 - threshold. |
| `AggregatorMarks.FallingHappens` | autoprov/autoprov_aggr.go:253-262 | A history in which a count falls from one to nothing and the counter goes on to two, while the streak is over. |
| `AggregatorMarks.CountedExactly` | autoprov/autoprov_aggr.go:107-403 | Over every history of iterations, init queries at any time, falling counts and policy and App updates, at every moment, deployIntervalsMet is the streak of the log as the aggregator sees it: an init query between two reports counts as a bad interval, unless exactly one interval was missed after the last of them, and then the gap is not noticed. |
| `AggregatorMarks.DeployAlways` | autoprov/autoprov_aggr.go:258-279 | Over every history, an iteration deploys to a reporting cloudlet iff the streak as seen of some policy is long enough. |
| `AggregatorMarks.SeenWithoutRequery` | autoprov/autoprov_aggr.go:249-263 | As long as no init query comes back, the streak as seen after a report is the streak of the log. |
| `AggregatorHistory.ReinitBreaksStreak` | autoprov/autoprov_aggr.go:107-124 | For the first good report after an init query, over every history before it: deployIntervalsMet is the streak iff no interval was missed in between and the streak was zero, or one was and the counter was zero, or more were. |
| `AggregatorHistory.ReinitAtOnceFails` | autoprov/autoprov_aggr.go:107-124 | A history with no missed interval after the init query for which the counter is not the streak. |
| `AggregatorHistory.ReinitLateFails` | autoprov/autoprov_aggr.go:107-124 | One with one missed interval. |
| `RetryTracker.RetryTracker.RegisterDeployResult` | autoprov/autoprov_retry.go:38-61 | Adds the key without cluster name and organization on a real error, removes it otherwise. |
| `RetryTracker.RetryTracker.DoRetry` | autoprov/autoprov_retry.go:63-78 | Empties the list and marks exactly the Apps that were on it. |
| `RetryTracker.FailureMeansLatestFailed` | autoprov/autoprov_retry.go:38-104 | Over every history, a pair is black-listed iff its latest min/max result since the last retry was a real error, whatever cluster name or organization the key carried. |
| `RetryTracker.NeverOffered` | autoprov/autoprov_minmax.go:464-470 | A pass never plans a site whose latest min/max result since the last retry was a real error. |
| `Autoscale.ClusterAutoScaler.UpdateClusterStats` | shepherd/cluster-autoscaler.go:45-65 | Stores the totals; asks for a check iff the load changed or a scaling is in progress. |
| `Autoscale.ClusterAutoScaler.UpdateConnStats` | shepherd/cluster-autoscaler.go:67-78 | The same for connections. |
| `Autoscale.ClusterAutoScaler.DesiredNodesRaw` | shepherd/cluster-autoscaler.go:116-139 | The largest number of nodes any used metric asks for, or 0. |
| `Autoscale.ClusterAutoScaler.Check` | shepherd/cluster-autoscaler.go:112-178 | Nothing without load; in the band or at the wanted count the alert is cleared, otherwise it asks for the wanted count. |
| `Autoscale.QuiescentExactly` | shepherd/cluster-autoscaler.go:147-165 | Within [min, max] and under load: quiescent iff (n = max or every metric is under 110% of its per-node target) and (n = min or raw load > n - 1). |
| `Autoscale.OneApplySettles` | shepherd/cluster-autoscaler.go:112-178 | Under constant load, from any state and for any interleaving of checks and updates, one check followed by one applied update reaches a quiescent count that never changes again. |
| `Autoscale.HysteresisHolds` | shepherd/cluster-autoscaler.go:147-165 | From the first check under load inside (n, min(n+1, 1.1n)) on, whatever alert is outstanding, a count of n or of n+1 stays as long as load stays there, and there is no alert; both counts allowed. |
| `Autoscale.ZeroLoadFreezes` | shepherd/cluster-autoscaler.go:142-145 | Without load, from any state and over any checks and updates, alert and flag never change, and the count stays unless an update applies an alert raised before. |
| `Autoscale.StaleAlertExactly` | shepherd/cluster-autoscaler.go:142-145 | An alert raised under load and applied after the load has gone brings the count to what the old load wanted; that is what no load wants iff the old load wanted no more than min, or the policy leaves no choice. |
| `Autoscale.GetClusterInstToScale` | autoprov/autoscale.go:73-112 | The cluster the alert's labels name and the count it asks for, for the new kind of alert and the two older ones; an error iff an older one's numbers cannot be read. |
| `Autoscale.ScaleDownExactly` | autoprov/autoscale.go:92-108 | The count of an older scale-down alert is the smallest that keeps the nodes that must stay and removes no more than are idle; it is above the present count iff more must stay than there are. |
| `Autoscale.AlertRoundTrip` | autoprov/autoscale.go:73-82 | What the consumer reads from the producer's alert is the same cluster and the wanted count. |
| `AlertCache.DomainsDisjoint` | shepherd/shepherd-alerts.go:38-96 | A key is in the domain of at most one scraper. |
| `AlertCache.AlertCache.PruneClusterForeignAlerts` | shepherd/shepherd-alerts.go:38-61 | Keeps exactly the keys of the cluster worker's domain. |
| `AlertCache.AlertCache.PruneCloudletForeignAlerts` | shepherd/shepherd-alerts.go:87-96 | Keeps exactly the keys of the cloudlet worker's domain. |
| `AlertCache.AlertCache.UpdateAlerts` | shepherd/shepherd-alerts.go:98-148 | A failed scrape changes nothing; a successful one replaces the domain's alerts, autoscale alerts aside, and touches no other key. |
| `AlertCache.AlertCache.FlushAlerts` | shepherd/shepherd-alerts.go:151-169 | Deletes exactly the alerts that carry the cluster's four labels. |
| `AlertCacheRuns.SliceIsLastScrape` | shepherd/shepherd-alerts.go:98-169 | Over every interleaving of single cache operations (snapshots, puts and deletes of scrapers, raised and cleared autoscale alerts, deletes of flushes), while a domain's scraper is idle its slice of the cache is its last successful scrape, but for keys flushed since they were put. |
| `AlertCacheRuns.LostByFlush` | shepherd/shepherd-alerts.go:151-169 | Only a flush of a cluster that a key's four labels name takes the key away from its owner. |
| `AlertCacheRuns.AutoScaleAlertTracksFlag` | shepherd/cluster-autoscaler.go:160-177 | Over every such interleaving, between the two steps of its autoscaler aside, an autoscale alert is in the cache iff the scaling flag is set and the alert was not flushed: scrapes never delete it. |
| `AlertCacheAlone.UninterruptedScrape` | shepherd/shepherd-alerts.go:98-148 | From any state, single operations of one scraper alone take the cache to what UpdateAlerts makes of it, and nobody else's state changes. |
| `AlertCacheAlone.UninterruptedFlush` | shepherd/shepherd-alerts.go:151-169 | Single operations of one flush alone take the cache to what FlushAlerts makes of it. |
| `AlertCacheAlone.UninterruptedCheck` | shepherd/cluster-autoscaler.go:142-178 | The two steps of an autoscaler's check alone take its alert in the cache and its flag to what Check makes of them, and touch no other alert. |
| `AlertCache.FlushExactly` | shepherd/shepherd-alerts.go:151-169 | A flush leaves every other cluster's slice alone and empties its own; it leaves the cloudlet's slice alone iff no cloudlet alert in the cache carries the cluster's four labels. |
| `AlertCache.FlushTakesCloudletAlert` | shepherd/shepherd-alerts.go:151-169 | A cloudlet alert with those four labels is flushed with the cluster. |
| `ClusterNames.NodeNameRoundTrip` | vmlayer/cluster.go:98-118 | A node name reads back as its number, whatever the cluster is called. |
| `ClusterNames.NodeNameInjective` | vmlayer/cluster.go:98-118 | Different numbers give different names. |
| `ClusterUpdate.Cluster.ScanNodes` | vmlayer/cluster.go:164-190 | For any list of names: counts those without the node prefix and those with a number, lists in order those whose number is beyond the requested one, and notes each number under the name this cluster gives it, for removal or keeping; names with the prefix and no number are ignored. |
| `ClusterUpdate.Cluster.OwnListing` | vmlayer/cluster.go:164-190 | In the cluster's own node list that finds its masters, its workers, and exactly the workers beyond the requested number. |
| `ClusterUpdate.Cluster.RemoveExtraNodes` | vmlayer/cluster.go:191-204 | Afterwards the workers beyond the number are gone, and if none is wanted and there was one, the master listed first is untainted; a failing delete removes a prefix of them; some node stays schedulable iff a worker is kept, none was there, none is wanted, or a master takes pods. |
| `ClusterUpdate.Cluster.AddMissing` | vmlayer/cluster.go:205-210 | Every requested number that is not there is marked for adding. |
| `ClusterUpdate.Cluster.Orchestrate` | vmlayer/vmparams.go:1123-1152 | On success the VMs are the requested ones, and Chef clients have been created for missing nodes and deleted for removed ones only; it succeeds if no call fails. |
| `ClusterUpdate.Cluster.WaitReady` | vmlayer/cluster.go:650-718 | If no call fails, success iff as many nodes are ready as masters and workers are asked for; the master listed last is untainted if no workers are wanted. |
| `ClusterUpdate.Cluster.Grow` | vmlayer/cluster.go:216-236 | From a scanned cluster with any masters, VMs, Chef clients and taints: on success VMs are {1..N}, nodes those that were kept or joined, and with the first workers the master listed first is tainted; no step loses the last schedulable node, except that taint when surplus masters end the wait before a worker joins and no other master takes pods. |
| `ClusterUpdate.Cluster.Update` | vmlayer/cluster.go:146-238 | From any VMs, Chef clients and taints: on success the whole new state; with too few masters never success; nodes, VMs and clients are {1..N} iff nothing was to change and they were, or the masters are as configured or all missing nodes joined, and no kept node lacked a client and no stranger had one. If no call fails it succeeds iff nothing was to change or enough nodes are ready, so always when all VMs join, and some node is schedulable at every step iff neither the delete step nor the first taint strands the pods. |
| `ClusterRuns.FromInStep` | vmlayer/cluster.go:146-238 | From a cluster in step: with the configured masters iff it did not start with the right count of wrong nodes, with other numbers iff every missing node joined. |
| `ClusterRuns.StrandsFromInStep` | vmlayer/cluster.go:191-236 | From taints in step, the delete step strands the pods iff it keeps no worker, and the first taint only if no master is configured. |
| `ClusterRuns.TaintsFitExactly` | vmlayer/cluster.go:191-236 | The masters' taints stay in step iff workers neither come first nor go last, or there is one master, or two and the last workers go. |
| `ClusterUpdate.ContiguousIsFine` | vmlayer/cluster.go:146-238 | From workers {1..m} to any number neither problem arises. |
| `ClusterRuns.GapStaysOutOfStep` | vmlayer/cluster.go:146-238 | An update of a cluster with workers 1 and 3 to two nodes, nothing failing: it reports success with worker 1 only and the VMs of both. |
| `ClusterRuns.GapStrandsForGood` | vmlayer/cluster.go:146-238 | One of a cluster with worker 5 to one node: success, no worker left, the master still tainted. |
| `ClusterRuns.GapStrandsOnTheWay` | vmlayer/cluster.go:146-238 | One of that cluster to two nodes: it ends in step, but there was no schedulable node on the way. |
| `ClusterRuns.RetryStaysOutOfStep` | vmlayer/cluster.go:146-238 | With workers 1 to 4, an update to two nodes that fails after deleting one, and then one to three, nothing failing: it reports success with two nodes and four VMs. |
| `ClusterRuns.SurplusMasterStrands` | vmlayer/cluster.go:216-236 | An update with a tainted master too many and no worker to one node: success, and nothing is schedulable. |
| `ClusterRuns.SecondMasterUntainted` | vmlayer/cluster.go:228-236 | With two masters as configured, the first worker gets only the first master tainted. |
| `Orchestration.DetectSharedRootLB` | vmlayer/vmparams.go:570-582 | True iff some shared load balancer VM only gets ports. |
| `Orchestration.ExternalPorts` | vmlayer/vmparams.go:957-1011 | One port, and floating IP if used, per external network, in any order; an error iff a primary network comes without a security group. |
| `Orchestration.DefineVM` | vmlayer/vmparams.go:762-1011 | The VM's internal port, with the role's octet, then its external ones; an error iff the VM is rejected. |
| `Orchestration.DefineOrchVM` | vmlayer/vmparams.go:1078-1083 | The VM is attached to exactly those of its ports that are not attached later, in order. |
| `Orchestration.Compile` | vmlayer/vmparams.go:632-1092 | Fails iff the request or one of its VMs is rejected; otherwise assembles all VMs' resources in order, with no dangling reference. |
| `Orchestration.NoDanglingReference` | vmlayer/vmparams.go:632-1092 | In a compiled group every subnet, security group, router port, floating-IP port and VM port reference not marked pre-existing names a declared resource: floating IPs with the port's id, VMs with its id and subnet id, security groups with the group's id; and every external port has a security group. What subnet ids refer to is SubnetIdsExactly. |
| `OrchestrationIds.GroupPortsExactly` | vmlayer/vmparams.go:697-1088 | A compiled group has exactly the router's port, if a router is in use, each VM's internal port and its external ones. |
| `OrchestrationIds.RouterIdExactly` | vmlayer/vmparams.go:697-719 | The router interface refers to the router's port by name; its id is that of a declared port of this name iff sanitizing the name changes nothing or some VM's port has that very name and id. |
| `OrchestrationIds.SubnetIdsExactly` | vmlayer/vmparams.go:697-1083 | Every reference to a new subnet, by name on ports and VMs or by the SubnetId of ports and VM port references, carries a declared id iff: if a router is in use or a VM joins the new subnet, its name is its sanitized id; and if any VM has an internal port, load balancers attached later aside, the name sanitizes to nothing, or there is a new subnet and its name sanitizes alike as a name and as an id. |
| `OrchestrationIds.IdsNeedNotAgree` | vmlayer/vmparams.go:697-766 | A request with a router, and a provider that allows no dots in ids, for which neither the router's reference nor the subnet's carries a declared id. |
| `OrchestrationIds.NodeOnOldSubnet` | vmlayer/vmparams.go:752-1083 | With that provider, a node on an old subnet in a group with a new one: its port and the VM carry a SubnetId that nothing declares, though nothing joins the new subnet. |
| `Orchestration.EveryNetworkServed` | vmlayer/vmparams.go:942-1088 | Every VM that is built is attached to a port on each external network it asked for. |
| `Orchestration.ExternalRefsOk` | vmlayer/vmparams.go:957-1011 | An external port refers only to declared or pre-existing groups, at least one, given that a primary network has the group's own. |
| `OrchestrationOctets.RunningOctetsInOrder` | vmlayer/vmparams.go:760-929 | Over all ports in order, the octets above 100 are exactly 101..100+k for the k node and app VMs that connect to a subnet. |
| `OrchestrationOctets.ClashExactly` | vmlayer/vmparams.go:697-929 | Two ports share an octet of a subnet iff the request puts two masters on it, or two load balancers without a router, in whatever order. |
| `OrchestrationOctets.SameLease` | vmlayer/vmparams.go:780-929 | Two VMs' internal ports get one address iff they are two masters or two load balancers of one subnet. |
| `Iptables.RewritingKeepsEntries` | infracommon/common-iptables.go:146-203 | Rewriting the rule passed in (one-port range, lower-case protocol) does not change the entries it stands for. |
| `Iptables.AddedUnder` | infracommon/common-iptables.go:257-312 | Under its own label an add puts the missing entries in front, latest first, and nothing else. |
| `Iptables.AddedElsewhere` | infracommon/common-iptables.go:257-312 | Queries for other labels see no change from an add. |
| `Iptables.AddedNoDup` | infracommon/common-iptables.go:257-312 | After a successful add the list is duplicate-free iff the batch names no missing entry twice. |
| `Iptables.ClearedExactly` | infracommon/common-iptables.go:438-465 | After RemoveRulesForLabel nothing is left under the label iff no such rule was there twice. |
| `Iptables.ClearedElsewhere` | infracommon/common-iptables.go:438-465 | Clearing a non-empty label leaves every other query's rules alone. |
| `Iptables.RestoredExactly` | infracommon/common-iptables.go:257-335 | Adding a batch of distinct rules and deleting it restores the list iff none of it was there before. |
| `Iptables.AcceptOnlyVerdict` | infracommon/common-iptables.go:146-203 | On a chain whose rules all accept, a packet gets through iff some rule matches or the policy lets it: order does not matter. |
| `Iptables.AddedVerdict` | infracommon/common-iptables.go:257-312 | On such a chain an add lets through exactly what got through before and what the batch matches. |
| `IptablesHost.Host.Run` | infracommon/common-iptables.go:79-87 | One command: on success its effect, on failure none; deleting a rule that is not there fails. |
| `IptablesHost.Host.DoIptablesCommand` | infracommon/common-iptables.go:62-89 | Runs the command iff the rule's existence and the action call for it. |
| `IptablesHost.Host.GetCurrentRules` | infracommon/common-iptables.go:232-254 | The set of the label's rules; all rules for the empty label. |
| `IptablesHost.Host.AddIptablesRule` | infracommon/common-iptables.go:257-273 | One rule's missing entries go in front; whatever fails, other labels' rules stay. |
| `IptablesHost.Host.RemoveIptablesRule` | infracommon/common-iptables.go:276-290 | One rule's present entries are deleted; whatever fails, other labels' rules stay. |
| `IptablesHost.Host.AddIptablesRules` | infracommon/common-iptables.go:293-312 | On success the whole batch is in force and persisted; it fails iff a command failed; only its label's rules are touched. |
| `IptablesHost.Host.DeleteIptablesRules` | infracommon/common-iptables.go:315-335 | On success what the batch names is deleted once each and the result persisted; only its label's rules are touched. |
| `IptablesHost.Host.RemoveRulesForLabel` | infracommon/common-iptables.go:438-465 | If no command failed, one occurrence of each rule of the label is gone, in whatever order; failures are skipped and never touch other labels. |
| `RootLBRules.FixupSecurityRules` | vmlayer/iptables.go:96-100 | Lower-cases the protocols in place and changes nothing else. |
| `RootLBRules.BuildNetRules` | vmlayer/iptables.go:111-134 | SSH from each allowed network, and the internal network both ways. |
| `RootLBRules.BuildPolicyRules` | vmlayer/iptables.go:151-172 | One egress rule per policy rule, and allow-all iff egress is not restricted. |
| `RootLBRules.AddDefaultIptablesRules` | infracommon/common-iptables.go:338-381 | Adds the default rules and drops what matches nothing on INPUT and OUTPUT. |
| `RootLBRules.SetupIptablesRulesForRootLB` | vmlayer/iptables.go:102-179 | If no command failed, the rules are as the update function says; it reports success even if removing old rules failed; rules outside its labels never change. |
| `RootLBRules.PolicyInForce` | vmlayer/iptables.go:102-179 | After one successful update the rules under the policy's label are exactly the policy's entries, if the host held none of them twice. |
| `RootLBRules.LatestPolicyInForce` | vmlayer/iptables.go:102-179 | After every history of successful updates with distinct entries, the rules under a policy's label are exactly the entries of its latest update, and no rule is there twice. |
| `RootLBRules.UnmanagedNeverChanges` | vmlayer/iptables.go:102-179 | Rules under labels no update manages, and rules without a label, are the same after every history. |
| `RootLBRules.OthersKeptExactly` | vmlayer/iptables.go:138-148 | One successful update keeps the rules it does not manage iff the policy has a label or there are none: the empty label finds every rule. |
| `RootLBRules.UpdateKeepsNoDup` | vmlayer/iptables.go:102-179 | Updates that name nothing twice never make a rule appear twice. |
| `IptablesPackets.WordsMeanRule` | infracommon/common-iptables.go:146-203 | The words generated for any rule, read back option by option, match exactly the packets the rule is about; with an empty CIDR, which leaves a flag without a value, none. |
| `IptablesPackets.PolicyLetsOut` | vmlayer/iptables.go:151-172 | The entries installed for a policy match a packet sent or forwarded iff egress is not restricted or one of the policy's rules allows it. |
| `IptablesPackets.EgressAfterUpdate` | vmlayer/iptables.go:102-179 | After a successful update the rules under the policy's label let a packet out, or through, iff egress is not restricted or one of the policy's rules allows it. |
| `IptablesChains.UpdatedMembers` | vmlayer/iptables.go:102-179 | After a successful update exactly the network, policy and default entries are on the list, and those that were and carry neither the cloudlet-wide nor the policy's label. |
| `IptablesChains.ChainAfterUpdate` | vmlayer/iptables.go:102-179 | After a successful update a packet gets through a chain of accepting rules iff the chain's policy lets it, or it is loopback or established, the internal network's, allowed SSH, allowed out by the policy, or matched by an older rule that is not cleared. |
| `IptablesChains.FreshHost` | vmlayer/iptables.go:102-179 | On a host without rules before, with the drop policies, exactly these packets get in and out. |
| `IpRanges.IncrIP` | infracommon/misc.go:125-132 | The bytes in place become the incremented ones: carry from the end, full bytes start over. |
| `IpRanges.IncrementedIsPlusOne` | infracommon/misc.go:125-132 | Incrementing is adding one modulo 256^len. |
| `IpRanges.LexIsNumeric` | infracommon/misc.go:216-218 | For addresses of one length the byte-lexicographic order of Go strings is the numeric order. |
| `IpRanges.ContainsIsInterval` | infracommon/misc.go:215-217 | A network is a stretch of consecutive addresses, without the IPv4-mapped ones if it is a larger IPv6 one. |
| `IpRanges.Enumerate` | infracommon/misc.go:215-219 | For IPv4 and IPv6: walking the network and keeping what lies between the ends terminates, unless the network is all of IPv4, with exactly the addresses from the start to the end or to where the walk stops. |
| `IpRanges.BetweenExactly` | infracommon/misc.go:215-219 | These are all addresses start..end iff the walk is not cut off at the IPv4-mapped addresses, or the end is before them, or there are none. |
| `IpRanges.CutOffHappens` | infracommon/misc.go:215-219 | A range of three IPv6 addresses of which the walk finds one. |
| `IpRanges.SpanExactly` | infracommon/misc.go:215-219 | That list holds exactly the addresses between the ends, ascending, once each. |
| `IpRanges.EnumerationEndsExactly` | infracommon/misc.go:215 | The walk can leave a network iff it is not all of IPv4. |
| `IpRanges.ParseIpRanges` | infracommon/misc.go:190-222 | The addresses of all ranges concatenated; an error iff the text is empty or a range is malformed, unreadable or spans networks, then with what the ranges before it gave; it never ends iff a range before any bad one is in all of IPv4. |
| `DomainName.IsDomainName` | infracommon/fqdn.go:22-65 | The one-pass scan accepts exactly the strings that, without one final dot, have 1 to 253 characters, dot-separated labels of 1 to 63 allowed characters with no dash at the ends, and a letter or underscore. |
| `DomainName.ScanMeans` | infracommon/fqdn.go:28-64 | From any point the rest of the scan accepts iff the labels from there are in order and a letter was or will be seen. |
| `DomainName.NamesAreJoins` | infracommon/fqdn.go:22-65 | Good labels joined by dots are accepted, with or without a final dot, iff short enough and with a letter. |
| `Loopback.GetUniqueLoopbackIp` | infracommon/common-security.go:153-187 | The address is 127, the class, and the two bytes of the highest end port. |
| `Loopback.SameAddressExactly` | infracommon/common-security.go:153-187 | Two port lists get one address iff their highest end ports agree in number and class. |
| `Loopback.DisjointPortsDiffer` | infracommon/common-security.go:153-187 | Non-empty lists of positive ports with disjoint (TCP or other, end port) pairs get different addresses. |
| `Loopback.ValidExactly` | infracommon/common-security.go:181-183 | The last two octets are bytes iff the highest port fits 16 bits. |

## Left out

- gRPC, InfluxDB, SSH, Chef, Vault, DNS and kubectl: their calls are oracles that may fail; texts and protocols are not modelled.
- Building create requests for the Controller, messages of failover infos (an entry records which pass and site it is about), logging, spans, timers and sleeps.
- The protocol starts a pass with any min, online count and sites, so its theorems hold for whatever `checkPolicy` computes; that computation is `AppChecker.CheckPolicy`.
- AggregatorHistory.CountersAgree: needs counts that never fall and init before the first iteration; AggregatorMarks.CountedExactly says what the counters are in all other histories.
- Aggregating Influx rows into counts per App and cloudlet, and parsing them.
- Scaling requests to the Controller and their retries in `runAutoScale`.
- Docker clusters, cluster creation and deletion, and everything the root LB setup does besides the node wait.
- ClusterUpdate.Cluster.Update: the node list holds at least one master and otherwise only this cluster's workers; ScanNodes says what other lists give. The sum of the requested counts is not cut to uint32. All listed nodes count as ready.
- ClusterUpdate.Cluster.AddMissing: the source's uint32 loop counter never passes a requested count of 2^32 - 1; the model's does.
- Orchestration.Compile: attributes that refer to nothing (flavors, images, volumes, cloud-config, routes, DNS, anti-affinity flags) and the uint32 width of the octet counter; octets above 254 are handed out as the source does.
- `GetSecGrpParams` and its options: two independent appends; only whether the access ports parse matters here.
- The exact text of iptables-save: entries are compared word by word and assumed to print as they were written; parsing the whitelist properties; the forwarding rules of `setupForwardingIptables`.
- IptablesPackets.WordsMeanRule: words are read as pairs of option and value, where the real filter rejects an entry with a flag that has none. How addresses, port ranges and connection states compare is a parameter of the packet.
- Lower-casing outside ASCII.
- IpRanges.ParseIpRanges: no IPv4 network written in IPv6 form; where the source's loop has no exit the model says so instead of looping. Addresses stay bytes instead of text.
- `managedk8s/`, `mc/`, `frm/`, `chefmgmt/`, `protoc-gen-mc2/`, `edge-events/`, templates and metric scraping: wrappers, generated text, or easy map lookups.
