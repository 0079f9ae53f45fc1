/** Worker node names: a fixed prefix, the node number in decimal, a dash, the cluster's name. */
module ClusterNames {
  import opened Options
  import opened Numbers

  const NODE_PREFIX: string := "mex-k8s-node-"
  const UINT32_SIZE: nat := 0x1_0000_0000
  const MAX_INT64: nat := 0x7fff_ffff_ffff_ffff

  /** How many digits the string starts with. */
  function DigitRun(s: string): (k: nat)
    ensures k <= |s| && forall i :: 0 <= i < k ==> IsDigit(s[i])
    ensures k < |s| ==> !IsDigit(s[k])
  {
    if s == [] || !IsDigit(s[0]) then 0 else 1 + DigitRun(s[1..])
  }

  /** GetClusterNodeName. */
  function NodeName(cluster: string, num: nat): string {
    NODE_PREFIX + Decimal(num) + "-" + cluster
  }

  /** Atoi with its error dropped, then cut to uint32: numbers too big for an int read as the largest one. */
  function AtoiUint32(digits: string): nat
    requires forall i :: 0 <= i < |digits| ==> IsDigit(digits[i])
  {
    var v := Value(digits);
    (if v > MAX_INT64 then MAX_INT64 else v) % UINT32_SIZE
  }

  predicate HasNodePrefix(name: string) {
    |name| >= |NODE_PREFIX| && name[..|NODE_PREFIX|] == NODE_PREFIX
  }

  /** ParseClusterNodePrefix: the number after the prefix, if there is one. */
  function ParseNodeName(name: string): Option<nat> {
    if HasNodePrefix(name) then
      var rest := name[|NODE_PREFIX|..];
      var k := DigitRun(rest);
      if k == 0 then None else Some(AtoiUint32(rest[..k]))
    else None
  }

  /** Node names read back as their numbers, whatever the cluster is called. */
  lemma NodeNameRoundTrip(cluster: string, num: nat)
    requires num < UINT32_SIZE
    ensures HasNodePrefix(NodeName(cluster, num)) && ParseNodeName(NodeName(cluster, num)) == Some(num)
  {
    var d := Decimal(num);
    var name := NodeName(cluster, num);
    assert name[..|NODE_PREFIX|] == NODE_PREFIX;
    var rest := name[|NODE_PREFIX|..];
    assert rest == d + "-" + cluster;
    var k := DigitRun(rest);
    assert rest[|d|] == '-';
    forall i | 0 <= i < |d| ensures IsDigit(rest[i]) { assert rest[i] == d[i]; }
    assert k == |d|;
    assert rest[..k] == d;
    DecimalRoundTrip(num);
  }

  lemma NodeNameInjective(cluster: string, a: nat, b: nat)
    requires a < UINT32_SIZE && b < UINT32_SIZE && NodeName(cluster, a) == NodeName(cluster, b)
    ensures a == b
  {
    NodeNameRoundTrip(cluster, a);
    NodeNameRoundTrip(cluster, b);
  }

  /** The names of the nodes with the given numbers. */
  function Names(cluster: string, nums: set<nat>): set<string> {
    set n | n in nums :: NodeName(cluster, n)
  }

  function UpTo(n: nat): (nums: set<nat>)
    ensures forall k :: k in nums <==> 1 <= k <= n
    ensures |nums| == n
  {
    if n == 0 then {} else UpTo(n - 1) + {n}
  }

  lemma {:induction false} NamesSize(cluster: string, nums: set<nat>)
    requires forall n :: n in nums ==> n < UINT32_SIZE
    ensures |Names(cluster, nums)| == |nums|
    decreases nums
  {
    if nums != {} {
      var n :| n in nums;
      NamesSize(cluster, nums - {n});
      assert Names(cluster, nums) == Names(cluster, nums - {n}) + {NodeName(cluster, n)};
      if NodeName(cluster, n) in Names(cluster, nums - {n}) {
        var m :| m in nums - {n} && NodeName(cluster, m) == NodeName(cluster, n);
        NodeNameInjective(cluster, m, n);
      }
    }
  }

  lemma NamesMember(cluster: string, nums: set<nat>, n: nat)
    requires n < UINT32_SIZE && forall m :: m in nums ==> m < UINT32_SIZE
    ensures NodeName(cluster, n) in Names(cluster, nums) <==> n in nums
  {
    if NodeName(cluster, n) in Names(cluster, nums) {
      var m :| m in nums && NodeName(cluster, m) == NodeName(cluster, n);
      NodeNameInjective(cluster, m, n);
    }
  }
}
