/** The order in which a policy pass tries its candidate cloudlets: sortPotentialCreate and its comparator. */
module CreateOrder {
  import opened Keys

  const UINT64_SIZE: nat := 0x1_0000_0000_0000_0000

  /** apCloudletStats: absolute client counts of one App on one cloudlet, all uint64. */
  datatype CloudletStats = CloudletStats(count: nat, lastCount: nat, intervalNum: nat)

  /** What the comparator reads of the aggregator: the App's stats, if it has any, and the current interval. */
  datatype Demand = Demand(statsFound: bool, cloudlets: map<CloudletKey, CloudletStats>, intervalNum: nat)

  datatype Site = Site(cloudletKey: CloudletKey, hasFree: bool)

  /** uint64 subtraction. */
  function Sub64(a: nat, b: nat): (d: nat)
    ensures d < UINT64_SIZE
    ensures b <= a < UINT64_SIZE ==> d == a - b
  {
    (a - b) % UINT64_SIZE
  }

  /** Clients gained in the last interval; only stats of the current interval count. */
  function Increase(d: Demand, c: CloudletKey): nat {
    if c in d.cloudlets && d.cloudlets[c].intervalNum == d.intervalNum
    then Sub64(d.cloudlets[c].count, d.cloudlets[c].lastCount) else 0
  }

  /** The comparator given to sort.Slice. */
  predicate Less(d: Demand, a: Site, b: Site) {
    if a.hasFree != b.hasFree then a.hasFree && !b.hasFree
    else if !d.statsFound then false
    else Increase(d, a.cloudletKey) > Increase(d, b.cloudletKey)
  }

  /** What sort.Slice promises: a rearrangement with no adjacent pair out of order. Equal elements may swap. */
  ghost predicate SortOutcome(d: Demand, before: seq<Site>, after: seq<Site>) {
    && multiset(after) == multiset(before)
    && forall i :: 0 < i < |after| ==> !Less(d, after[i], after[i - 1])
  }

  /** Sites that the comparator cannot tell apart. */
  predicate Tied(d: Demand, a: Site, b: Site) {
    !Less(d, a, b) && !Less(d, b, a)
  }

  /** The comparator is a strict weak order, for any counts, wrapped or not. */
  lemma StrictWeakOrder(d: Demand, a: Site, b: Site, c: Site)
    ensures !Less(d, a, a)
    ensures Less(d, a, b) ==> !Less(d, b, a)
    ensures Less(d, a, b) && Less(d, b, c) ==> Less(d, a, c)
    ensures Tied(d, a, b) && Tied(d, b, c) ==> Tied(d, a, c)
  {
  }

  /** In a sorted list no pair is out of order, however far apart. */
  lemma {:induction false} NoInversion(d: Demand, before: seq<Site>, after: seq<Site>, i: nat, j: nat)
    requires SortOutcome(d, before, after) && i < j < |after|
    ensures !Less(d, after[j], after[i])
    decreases j
  {
    if i + 1 < j {
      NoInversion(d, before, after, i, j - 1);
      assert !Less(d, after[j], after[j - 1]);
    }
  }

  /** Sites with a free cluster come first; within each class the last interval's demand never increases. */
  lemma FreeFirstThenDemand(d: Demand, before: seq<Site>, after: seq<Site>, i: nat, j: nat)
    requires SortOutcome(d, before, after) && i < j < |after|
    ensures after[j].hasFree ==> after[i].hasFree
    ensures after[j].hasFree == after[i].hasFree && d.statsFound ==>
      Increase(d, after[j].cloudletKey) <= Increase(d, after[i].cloudletKey)
  {
    NoInversion(d, before, after, i, j);
  }

  /** Puts one site into a sorted list. */
  function Insert(d: Demand, x: Site, sorted: seq<Site>): seq<Site> {
    if sorted == [] then [x]
    else if Less(d, sorted[0], x) then [sorted[0]] + Insert(d, x, sorted[1..])
    else [x] + sorted
  }

  lemma PrependSorted(d: Demand, h: Site, tail: seq<Site>)
    requires SortOutcome(d, tail, tail) && (tail != [] ==> !Less(d, tail[0], h))
    ensures SortOutcome(d, [h] + tail, [h] + tail)
  {
    hide Less;
    var all := [h] + tail;
    forall i | 0 < i < |all| ensures !Less(d, all[i], all[i - 1]) {
      assert all[i] == tail[i - 1];
      if i > 1 { assert all[i - 1] == tail[i - 2]; }
    }
  }

  lemma TailSorted(d: Demand, sorted: seq<Site>)
    requires sorted != [] && SortOutcome(d, sorted, sorted)
    ensures SortOutcome(d, sorted[1..], sorted[1..])
    ensures |sorted| > 1 ==> !Less(d, sorted[1], sorted[0])
  {
    hide Less;
  }

  lemma {:induction false} InsertMembers(d: Demand, x: Site, sorted: seq<Site>)
    ensures multiset(Insert(d, x, sorted)) == multiset(sorted) + multiset{x}
    decreases |sorted|
  {
    hide Less;
    if sorted != [] && Less(d, sorted[0], x) {
      InsertMembers(d, x, sorted[1..]);
      assert sorted == [sorted[0]] + sorted[1..];
    }
  }

  lemma {:induction false} InsertSorts(d: Demand, x: Site, sorted: seq<Site>)
    requires SortOutcome(d, sorted, sorted)
    ensures SortOutcome(d, Insert(d, x, sorted), Insert(d, x, sorted))
    ensures Insert(d, x, sorted)[0] == x || (sorted != [] && Insert(d, x, sorted)[0] == sorted[0])
    decreases |sorted|
  {
    if sorted != [] && Less(d, sorted[0], x) {
      TailSorted(d, sorted);
      InsertSorts(d, x, sorted[1..]);
      StrictWeakOrder(d, sorted[0], x, x);
      hide Less, SortOutcome;
      PrependSorted(d, sorted[0], Insert(d, x, sorted[1..]));
    } else {
      hide Less, SortOutcome;
      PrependSorted(d, x, sorted);
    }
  }

  /** A list that sort.Slice may return exists for every input. */
  lemma {:induction false} SortPossible(d: Demand, before: seq<Site>) returns (after: seq<Site>)
    ensures SortOutcome(d, before, after)
  {
    if before == [] {
      after := [];
    } else {
      var n := |before| - 1;
      var rest := SortPossible(d, before[..n]);
      InsertSorts(d, before[n], rest);
      InsertMembers(d, before[n], rest);
      after := Insert(d, before[n], rest);
      assert before == before[..n] + [before[n]];
    }
  }
}
