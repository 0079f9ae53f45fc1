/**
 Incrementing addresses in place, and the enumeration of address ranges (section 3.1 of RFC 4632). An
 IPv4 address is its four bytes, most significant first.
 */
module IpRanges {
  import opened Numbers
  import opened Options
  import opened Strings

  type Byte = x: int | 0 <= x < 256

  // ---------------------------------------------------------------------------------------------
  // Bytes as numbers
  // ---------------------------------------------------------------------------------------------

  function Value(s: seq<Byte>): nat {
    if s == [] then 0 else Value(s[..|s| - 1]) * 256 + s[|s| - 1]
  }

  function FromValue(v: nat, n: nat): (s: seq<Byte>)
    ensures |s| == n
  {
    if n == 0 then [] else FromValue(v / 256, n - 1) + [v % 256]
  }

  /** How many values n bytes can take. */
  function Size(n: nat): (p: nat)
    ensures p > 0
  {
    if n == 0 then 1 else Size(n - 1) * 256
  }

  lemma {:induction false} ValueBound(s: seq<Byte>)
    ensures Value(s) < Size(|s|)
    decreases |s|
  {
    if s != [] { ValueBound(s[..|s| - 1]); }
  }

  lemma {:induction false} FromOfValue(s: seq<Byte>)
    ensures FromValue(Value(s), |s|) == s
    decreases |s|
  {
    if s != [] {
      var n := |s| - 1;
      FromOfValue(s[..n]);
      assert s == s[..n] + [s[n]];
      assert Value(s) / 256 == Value(s[..n]) && Value(s) % 256 == s[n];
    }
  }

  lemma {:induction false} ValueOfFrom(v: nat, n: nat)
    requires v < Size(n)
    ensures Value(FromValue(v, n)) == v
    decreases n
  {
    if n > 0 {
      ValueOfFrom(v / 256, n - 1);
      var s := FromValue(v, n);
      assert s[..n - 1] == FromValue(v / 256, n - 1);
    }
  }

  lemma MulLeq(a: nat, b: nat, n: nat)
    requires a <= b
    ensures a * n <= b * n
  {
  }

  lemma ModUnique(v: nat, q: nat, r: nat, n: nat)
    requires n > 0 && r < n && v == q * n + r
    ensures v % n == r && v / n == q
  {
    var q', r' := v / n, v % n;
    assert v == q' * n + r';
    if q' < q { MulLeq(q' + 1, q, n); }
    if q' > q { MulLeq(q + 1, q', n); }
  }

  lemma SmallMod(v: nat, n: nat)
    requires v < n
    ensures v % n == v
  {
    ModUnique(v, 0, v, n);
  }

  /** The bytes after one increment: the last one goes up, and a full one starts over and carries. */
  function Incremented(s: seq<Byte>): (r: seq<Byte>)
    ensures |r| == |s|
  {
    if s == [] then []
    else if s[|s| - 1] == 255 then Incremented(s[..|s| - 1]) + [0]
    else s[..|s| - 1] + [s[|s| - 1] + 1]
  }

  /** Incrementing is adding one, modulo the number of addresses. */
  lemma {:induction false} IncrementedIsPlusOne(s: seq<Byte>)
    ensures Value(Incremented(s)) == (Value(s) + 1) % Size(|s|)
    decreases |s|
  {
    if s != [] {
      var n := |s| - 1;
      var r := Incremented(s);
      ValueBound(s);
      if s[n] == 255 {
        IncrementedIsPlusOne(s[..n]);
        assert r[..n] == Incremented(s[..n]);
        ValueBound(s[..n]);
        CarryOne(Value(s[..n]), Size(n));
      } else {
        assert r[..n] == s[..n];
        ValueBound(s[..n]);
        SmallMod(Value(s) + 1, Size(|s|));
      }
    }
  }

  lemma CarryOne(v: nat, size: nat)
    requires v < size
    ensures (v * 256 + 255 + 1) % (size * 256) == (v + 1) % size * 256
  {
    if v + 1 == size {
      ModUnique(v * 256 + 256, 1, 0, size * 256);
      ModUnique(v + 1, 1, 0, size);
    } else {
      SmallMod(v * 256 + 256, size * 256);
      SmallMod(v + 1, size);
    }
  }

  /** How far the carry has got: the bytes from j + 1 on are done, those before are as they were. */
  ghost predicate Carried(was: seq<Byte>, now: seq<Byte>, j: int) {
    && |now| == |was| && -1 <= j < |was|
    && now[..j + 1] == was[..j + 1]
    && Incremented(was) == Incremented(was[..j + 1]) + now[j + 1..]
  }

  lemma CarryStarts(s: seq<Byte>)
    ensures Carried(s, s, |s| - 1)
  {
    assert s[..|s|] == s && s[|s|..] == [];
  }

  /** One byte of the carry: a full one starts over, any other ends it. */
  lemma CarryStep(was: seq<Byte>, now: seq<Byte>, j: nat)
    requires Carried(was, now, j)
    ensures now[j] == was[j]
    ensures now[j] == 255 ==> Carried(was, now[j := 0], j - 1)
    ensures now[j] < 255 ==> now[j := now[j] + 1] == Incremented(was)
  {
    var head := was[..j + 1];
    assert now[j] == now[..j + 1][j] == head[j];
    assert head[..j] == was[..j] == now[..j];
    if now[j] == 255 {
      var next := now[j := 0];
      assert next[j..] == [0] + now[j + 1..] && next[..j] == now[..j];
    } else {
      var next := now[j := now[j] + 1];
      assert next == now[..j] + [now[j] + 1] + now[j + 1..];
    }
  }

  /** IncrIP. */
  method IncrIP(ip: array<Byte>)
    modifies ip
    ensures ip[..] == Incremented(old(ip[..]))
  {
    hide Incremented, Carried;
    ghost var was := ip[..];
    CarryStarts(was);
    var j := ip.Length - 1;
    while j >= 0
      invariant -1 <= j < ip.Length
      invariant Carried(was, ip[..], j)
    {
      ghost var before := ip[..];
      CarryStep(was, before, j);
      ip[j] := if ip[j] == 255 then 0 else ip[j] + 1;
      assert ip[..] == before[j := ip[j]];
      if ip[j] > 0 {
        return;
      }
      j := j - 1;
    }
    CarryEnds(was, ip[..]);
  }

  lemma CarryEnds(was: seq<Byte>, now: seq<Byte>)
    requires Carried(was, now, -1)
    ensures now == Incremented(was)
  {
    assert was[..0] == [] && now[0..] == now;
  }

  // ---------------------------------------------------------------------------------------------
  // Order
  // ---------------------------------------------------------------------------------------------

  /** The order of Go's strings: byte by byte from the front. */
  predicate LexLeq(a: seq<Byte>, b: seq<Byte>) {
    if a == [] then true
    else if b == [] then false
    else a[0] < b[0] || (a[0] == b[0] && LexLeq(a[1..], b[1..]))
  }

  lemma {:induction false} ValueFromFront(s: seq<Byte>)
    requires s != []
    ensures Value(s) == s[0] * Size(|s| - 1) + Value(s[1..])
    decreases |s|
  {
    if |s| == 1 {
      assert s[..0] == [] && s[1..] == [];
    } else {
      var n := |s| - 1;
      ValueFromFront(s[..n]);
      assert s[..n][1..] == s[1..][..n - 1];
      assert s[1..][n - 1] == s[n];
      Regroup(s[0], Size(n - 1), Value(s[1..][..n - 1]), s[n]);
    }
  }

  lemma Regroup(a: nat, p: nat, v: nat, d: nat)
    ensures (a * p + v) * 256 + d == a * (p * 256) + (v * 256 + d)
  {
  }

  /** For addresses of one length the byte order is the numeric order. */
  lemma {:induction false} LexIsNumeric(a: seq<Byte>, b: seq<Byte>)
    requires |a| == |b|
    ensures LexLeq(a, b) <==> Value(a) <= Value(b)
    decreases |a|
  {
    if a != [] {
      LexIsNumeric(a[1..], b[1..]);
      ValueFromFront(a);
      ValueFromFront(b);
      ValueBound(a[1..]);
      ValueBound(b[1..]);
      FrontDecides(a[0], b[0], Size(|a| - 1), Value(a[1..]), Value(b[1..]));
    }
  }

  lemma FrontDecides(x: nat, y: nat, p: nat, v: nat, w: nat)
    requires v < p && w < p
    ensures x < y ==> x * p + v < y * p + w
    ensures x > y ==> x * p + v > y * p + w
    ensures x == y ==> (x * p + v <= y * p + w <==> v <= w)
  {
    if x < y { assert (x + 1) * p <= y * p; }
    if x > y { assert (y + 1) * p <= x * p; }
  }

  // ---------------------------------------------------------------------------------------------
  // Networks
  // ---------------------------------------------------------------------------------------------

  /** What ParseCIDR reads: the address, of 4 or 16 bytes, and the length of its network's prefix. */
  datatype Cidr = Cidr(ip: seq<Byte>, ones: nat)

  /**
   The first IPv4-mapped address of IPv6 (section 2.5.5.2 of RFC 4291), and how many bits come before the
   IPv4 one.
   */
  const MAPPED: nat := 0xffff_0000_0000
  const MAPPED_ONES: nat := 96

  predicate Mapped(ip: seq<Byte>) {
    |ip| == 16 && MAPPED <= Value(ip) < MAPPED + 0x1_0000_0000
  }

  predicate ValidCidr(c: Cidr) {
    (|c.ip| == 4 || |c.ip| == 16) && c.ones <= 8 * |c.ip|
  }

  function Pow2(n: nat): (p: nat)
    ensures p > 0
  {
    if n == 0 then 1 else 2 * Pow2(n - 1)
  }

  /** How many addresses the network has. */
  function Addresses(c: Cidr): (p: nat)
    requires ValidCidr(c)
    ensures p > 0
  {
    Pow2(8 * |c.ip| - c.ones)
  }

  /** The first address of a block of that size: the address with its host bits cleared. */
  function BlockOf(v: nat, size: nat): (base: nat)
    requires size > 0
    ensures base <= v
  {
    RemainderFits(v, size);
    v - v % size
  }

  /** The first address of the network. */
  function Network(c: Cidr): nat
    requires ValidCidr(c)
  {
    BlockOf(Value(c.ip), Addresses(c))
  }

  lemma RemainderFits(v: nat, n: nat)
    requires n > 0
    ensures v % n <= v
  {
    if v < n { SmallMod(v, n); }
  }

  /** IPNet.Contains. An IPv4-mapped address counts as an IPv4 one, so a larger IPv6 network does not contain it. */
  predicate Contains(c: Cidr, ip: seq<Byte>)
    requires ValidCidr(c)
  {
    && |ip| == |c.ip| && BlockOf(Value(ip), Addresses(c)) == Network(c)
    && (Mapped(ip) ==> c.ones >= MAPPED_ONES)
  }

  lemma {:induction false} PowersMultiply(a: nat, b: nat)
    ensures Pow2(a + b) == Pow2(a) * Pow2(b)
    decreases a
  {
    if a > 0 {
      PowersMultiply(a - 1, b);
    }
  }

  lemma {:induction false} SizeIsPower(n: nat)
    ensures Size(n) == Pow2(8 * n)
    decreases n
  {
    if n > 0 {
      SizeIsPower(n - 1);
      PowersMultiply(8, 8 * (n - 1));
      assert Pow2(8) == 256;
    }
  }

  /** The address space is a whole number of networks, at least two unless the prefix is empty. */
  lemma AddressesFit(c: Cidr)
    requires ValidCidr(c)
    ensures Size(|c.ip|) % Addresses(c) == 0
    ensures if c.ones == 0 then Addresses(c) == Size(|c.ip|) else 2 * Addresses(c) <= Size(|c.ip|)
  {
    hide Pow2, Size, Value;
    SizeIsPower(|c.ip|);
    PowersMultiply(c.ones, 8 * |c.ip| - c.ones);
    Divides(Pow2(c.ones), Addresses(c));
    PowerGrows(c.ones);
  }

  lemma PowerGrows(n: nat)
    ensures n == 0 ==> Pow2(n) == 1
    ensures n > 0 ==> Pow2(n) >= 2
  {
  }

  lemma Divides(k: nat, n: nat)
    requires n > 0
    ensures k * n % n == 0
    ensures k >= 2 ==> 2 * n <= k * n
  {
    ModUnique(k * n, k, 0, n);
  }

  lemma Block(v: nat, n: nat)
    requires n > 0
    ensures v - v % n == v / n * n && v / n * n <= v < (v / n + 1) * n
  {
  }

  lemma SameBlock(v: nat, w: nat, n: nat)
    requires n > 0
    ensures v - v % n == w - w % n <==> v - v % n <= w < v - v % n + n
  {
    Block(v, n);
    Block(w, n);
    var q, q' := v / n, w / n;
    if q' < q { MulLeq(q' + 1, q, n); }
    if q' > q { MulLeq(q + 1, q', n); }
  }

  /** A network is a stretch of consecutive addresses, without the IPv4-mapped ones. */
  lemma ContainsIsInterval(c: Cidr, ip: seq<Byte>)
    requires ValidCidr(c) && |ip| == |c.ip|
    ensures Contains(c, ip) <==>
      Network(c) <= Value(ip) < Network(c) + Addresses(c) && (Mapped(ip) ==> c.ones >= MAPPED_ONES)
  {
    hide Value;
    SameBlock(Value(c.ip), Value(ip), Addresses(c));
  }

  /** The network ends within the address space; one with a prefix does not fill it. */
  lemma NetworkFits(c: Cidr)
    requires ValidCidr(c)
    ensures Network(c) + Addresses(c) <= Size(|c.ip|)
    ensures c.ones >= 1 && Network(c) == 0 ==> Addresses(c) < Size(|c.ip|)
  {
    hide Value, Size, Addresses;
    AddressesFit(c);
    ValueBound(c.ip);
    BlockFits(Value(c.ip), Addresses(c), Size(|c.ip|));
  }

  lemma BlockFits(v: nat, n: nat, all: nat)
    requires n > 0 && v < all && all % n == 0
    ensures v - v % n + n <= all
  {
    Block(v, n);
    Block(all, n);
    if v / n >= all / n { MulLeq(all / n, v / n, n); }
    MulLeq(v / n + 1, all / n, n);
  }

  /** The walk stops before the IPv4-mapped addresses. */
  predicate CutOff(c: Cidr)
    requires ValidCidr(c)
  {
    |c.ip| == 16 && c.ones < MAPPED_ONES && Network(c) <= MAPPED < Network(c) + Addresses(c)
  }

  /** Where the walk through the network stops. */
  function Stop(c: Cidr): nat
    requires ValidCidr(c)
  {
    if CutOff(c) then MAPPED else Network(c) + Addresses(c)
  }

  /** The walk stops at all: all of IPv4 is the only network that it never leaves. */
  predicate Ends(c: Cidr) {
    c.ones >= 1 || |c.ip| == 16
  }

  lemma MappedFits()
    ensures MAPPED + 0x1_0000_0000 <= Size(16)
    ensures Pow2(33) == 0x2_0000_0000
  {
    assert Size(8) == 0x1_0000_0000_0000_0000;
    SizeIsPower(8);
    SizeIsPower(16);
    PowersMultiply(64, 64);
    assert Pow2(11) == 0x800;
    PowersMultiply(11, 11);
    PowersMultiply(22, 11);
  }

  lemma MultipleOfFactor(v: nat, a: nat, b: nat)
    requires a > 0 && b > 0
    ensures (v - v % (a * b)) % b == 0
  {
    var q := v / (a * b);
    Block(v, a * b);
    Associate(q, a, b);
    ModUnique(q * a * b, q * a, 0, b);
  }

  lemma Associate(a: nat, b: nat, c: nat)
    ensures a * (b * c) == a * b * c
  {
  }

  /** Larger IPv6 networks start at a multiple of twice as many addresses as IPv4 has. */
  lemma LargeNetwork(c: Cidr)
    requires ValidCidr(c) && |c.ip| == 16 && c.ones < MAPPED_ONES
    ensures Network(c) % 0x2_0000_0000 == 0
  {
    hide Value, Pow2, Size;
    MappedFits();
    PowersMultiply(128 - c.ones - 33, 33);
    MultipleOfFactor(Value(c.ip), Pow2(128 - c.ones - 33), Pow2(33));
  }

  /** Up to where the walk stops, every address is in the network. */
  lemma StillThere(c: Cidr, ip: seq<Byte>)
    requires ValidCidr(c) && |ip| == |c.ip| && Network(c) <= Value(ip) < Stop(c)
    ensures Contains(c, ip)
  {
    hide Value, Addresses, Network;
    ContainsIsInterval(c, ip);
    if Mapped(ip) && c.ones < MAPPED_ONES {
      LargeNetwork(c);
      NotBetween(Network(c));
    }
  }

  lemma NotBetween(v: nat)
    requires v % 0x2_0000_0000 == 0 && v > MAPPED
    ensures v >= MAPPED + 0x1_0000_0000
  {
  }

  /** Where the walk stops, or at the very first address if that is past the last one, it is not in the network. */
  lemma JustPast(c: Cidr, ip: seq<Byte>)
    requires ValidCidr(c) && Ends(c) && |ip| == |c.ip| && Value(ip) == Stop(c) % Size(|c.ip|)
    ensures !Contains(c, ip)
  {
    hide Value, Size, Addresses, Network;
    MappedFits();
    ContainsIsInterval(c, ip);
    NetworkFits(c);
    AddressesFit(c);
    if c.ones == 0 {
      NotAll(c);
    }
    if CutOff(c) {
      SmallMod(MAPPED, Size(|c.ip|));
    } else {
      var top := Network(c) + Addresses(c);
      if top < Size(|c.ip|) { SmallMod(top, Size(|c.ip|)); } else { ModUnique(top, 1, 0, Size(|c.ip|)); }
    }
  }

  /** All of IPv6 is cut off. */
  lemma NotAll(c: Cidr)
    requires ValidCidr(c) && c.ones == 0 && |c.ip| == 16
    ensures CutOff(c)
  {
    hide Value, Size;
    MappedFits();
    AddressesFit(c);
    ValueBound(c.ip);
    SmallMod(Value(c.ip), Size(16));
  }

  /** The enumeration leaves a network exactly when it is not all of IPv4. */
  lemma EnumerationEndsExactly(c: Cidr)
    requires ValidCidr(c)
    ensures (exists ip: seq<Byte> :: |ip| == |c.ip| && !Contains(c, ip)) <==> Ends(c)
  {
    hide Contains, Value, Size, Stop, Network;
    if Ends(c) {
      var n := |c.ip|;
      var past := Stop(c) % Size(n);
      ValueOfFrom(past, n);
      JustPast(c, FromValue(past, n));
    } else {
      forall ip: seq<Byte> | |ip| == 4 ensures Contains(c, ip) { AllOfIPv4(c, ip); }
    }
  }

  lemma AllOfIPv4(c: Cidr, ip: seq<Byte>)
    requires ValidCidr(c) && c.ones == 0 && |c.ip| == 4 && |ip| == 4
    ensures Contains(c, ip)
  {
    hide Value, Size;
    AddressesFit(c);
    ValueBound(c.ip);
    ValueBound(ip);
    SmallMod(Value(c.ip), Size(4));
    ContainsIsInterval(c, ip);
  }

  // ---------------------------------------------------------------------------------------------
  // Ranges
  // ---------------------------------------------------------------------------------------------

  /** The addresses lo, lo + 1, ..., hi - 1 of n bytes. */
  function Span(lo: nat, hi: nat, n: nat): seq<seq<Byte>> {
    seq(if hi < lo then 0 else hi - lo, i requires 0 <= i => FromValue(lo + i, n))
  }

  lemma SpanStep(lo: nat, end: nat, cur: nat, n: nat)
    ensures Span(lo, Min(end + 1, cur + 1), n) ==
      if lo <= cur <= end then Span(lo, Min(end + 1, cur), n) + [FromValue(cur, n)] else Span(lo, Min(end + 1, cur), n)
  {
  }

  /** A span holds exactly the addresses between its ends, ascending, so each once. */
  lemma SpanExactly(lo: nat, hi: nat, n: nat)
    requires hi <= Size(n)
    ensures forall i, j :: 0 <= i < j < |Span(lo, hi, n)| ==> Value(Span(lo, hi, n)[i]) < Value(Span(lo, hi, n)[j])
    ensures forall ip: seq<Byte> :: |ip| == n ==> (ip in Span(lo, hi, n) <==> lo <= Value(ip) < hi)
  {
    hide Value, Size, FromValue;
    forall i | 0 <= i < |Span(lo, hi, n)| ensures Value(Span(lo, hi, n)[i]) == lo + i { ValueOfFrom(lo + i, n); }
    forall ip: seq<Byte> | |ip| == n ensures ip in Span(lo, hi, n) <==> lo <= Value(ip) < hi {
      FromOfValue(ip);
      if lo <= Value(ip) < hi { assert Span(lo, hi, n)[Value(ip) - lo] == ip; }
    }
  }

  /** Two CIDRs name one network. */
  predicate SameNetwork(a: Cidr, b: Cidr)
    requires ValidCidr(a) && ValidCidr(b)
  {
    |a.ip| == |b.ip| && a.ones == b.ones && Network(a) == Network(b)
  }

  /** The addresses that the walk through the network finds between the two ends. */
  function Between(first: Cidr, last: Cidr): seq<seq<Byte>>
    requires ValidCidr(first)
  {
    Span(Value(first.ip), Min(Value(last.ip) + 1, Stop(first)), |first.ip|)
  }

  /** These are all addresses between the ends, unless the walk is cut off before the last one. */
  lemma BetweenExactly(first: Cidr, last: Cidr)
    requires ValidCidr(first) && ValidCidr(last) && SameNetwork(first, last)
    ensures Between(first, last) == Span(Value(first.ip), Value(last.ip) + 1, |first.ip|) <==>
      !CutOff(first) || Value(last.ip) < MAPPED || Value(last.ip) < Value(first.ip)
  {
    hide Value, FromValue, Addresses, Network;
    ContainsBlock(first, last);
  }

  /** Of ::fffe:ffff:ffff/80-::ffff:0:1/80, which are three addresses, the walk finds the first. */
  lemma CutOffHappens()
    ensures var first, last := Cidr(FromValue(MAPPED - 1, 16), 80), Cidr(FromValue(MAPPED + 1, 16), 80);
      && ValidCidr(first) && ValidCidr(last) && SameNetwork(first, last)
      && |Span(Value(first.ip), Value(last.ip) + 1, 16)| == 3 && |Between(first, last)| == 1
  {
    var first, last := Cidr(FromValue(MAPPED - 1, 16), 80), Cidr(FromValue(MAPPED + 1, 16), 80);
    hide Value, Size, FromValue, Pow2;
    MappedFits();
    ValueOfFrom(MAPPED - 1, 16);
    ValueOfFrom(MAPPED + 1, 16);
    PowersMultiply(33, 15);
    assert Pow2(15) == 0x8000 by { Fifteen(); }
    assert Addresses(first) == 0x1_0000_0000_0000;
    SmallMod(MAPPED - 1, Addresses(first));
    SmallMod(MAPPED + 1, Addresses(first));
  }

  lemma Fifteen()
    ensures Pow2(15) == 0x8000
  {
    assert Pow2(5) == 32;
    PowersMultiply(5, 5);
    PowersMultiply(10, 5);
  }

  lemma ContainsBlock(first: Cidr, last: Cidr)
    requires ValidCidr(first) && ValidCidr(last) && SameNetwork(first, last)
    ensures Network(first) <= Value(last.ip) < Network(first) + Addresses(first)
    ensures Network(first) <= Value(first.ip) < Network(first) + Addresses(first)
  {
    hide Value;
    SameBlock(Value(first.ip), Value(last.ip), Addresses(first));
    SameBlock(Value(first.ip), Value(first.ip), Addresses(first));
  }

  /** The inner loop: walk the network, keep what lies between the ends. */
  method Enumerate(first: Cidr, last: Cidr) returns (rc: seq<seq<Byte>>)
    requires ValidCidr(first) && ValidCidr(last) && SameNetwork(first, last) && Ends(first)
    ensures rc == Between(first, last)
  {
    hide Value, Size, FromValue, Span, Contains, Network, Addresses, Stop;
    var n := |first.ip|;
    var base := Network(first);
    ghost var stop := Stop(first);
    var masked := FromValue(base, n);
    var ip := new Byte[n](i requires 0 <= i < n => masked[i]);
    assert ip[..] == masked;
    rc := [];
    ghost var cur: nat := base;
    StartsAtBase(first, last);
    while Contains(first, ip[..])
      invariant base <= cur <= stop && ip.Length == n && ip[..] == FromValue(cur % Size(n), n)
      invariant rc == Span(Value(first.ip), Min(Value(last.ip) + 1, cur), n)
      decreases stop - cur
    {
      StillInside(first, cur, ip[..]);
      SpanStep(Value(first.ip), Value(last.ip), cur, n);
      LexIsNumeric(first.ip, ip[..]);
      LexIsNumeric(ip[..], last.ip);
      if LexLeq(first.ip, ip[..]) && LexLeq(ip[..], last.ip) {
        rc := rc + [ip[..]];
      }
      NextAddress(cur, ip[..]);
      IncrIP(ip);
      cur := cur + 1;
    }
    if cur < stop { NotLeft(first, cur, ip[..]); }
  }

  lemma StartsAtBase(first: Cidr, last: Cidr)
    requires ValidCidr(first) && ValidCidr(last) && SameNetwork(first, last)
    ensures Network(first) <= Stop(first)
    ensures Span(Value(first.ip), Min(Value(last.ip) + 1, Network(first)), |first.ip|) == []
    ensures Network(first) % Size(|first.ip|) == Network(first)
  {
    hide Value, Size, Network, Addresses;
    NetworkFits(first);
    ContainsBlock(first, last);
    SmallMod(Network(first), Size(|first.ip|));
  }

  lemma StopFits(c: Cidr)
    requires ValidCidr(c)
    ensures Stop(c) <= Size(|c.ip|)
  {
    hide Value, Size, Network, Addresses;
    NetworkFits(c);
  }

  lemma StillInside(c: Cidr, cur: nat, ip: seq<Byte>)
    requires ValidCidr(c) && Ends(c) && Contains(c, ip) && ip == FromValue(cur % Size(|c.ip|), |c.ip|)
    requires Network(c) <= cur <= Stop(c)
    ensures cur < Stop(c) && cur < Size(|c.ip|)
    ensures cur % Size(|c.ip|) == cur && Value(ip) == cur
  {
    hide Value, Size, Network, Addresses, Contains, Stop;
    StopFits(c);
    ValueOfFrom(cur % Size(|c.ip|), |c.ip|);
    if cur == Stop(c) { JustPast(c, ip); }
    SmallMod(cur, Size(|c.ip|));
  }

  lemma NotLeft(c: Cidr, cur: nat, ip: seq<Byte>)
    requires ValidCidr(c) && ip == FromValue(cur % Size(|c.ip|), |c.ip|) && Network(c) <= cur < Stop(c)
    ensures Contains(c, ip)
  {
    hide Value, Size, Network, Addresses, Contains, Stop;
    StopFits(c);
    SmallMod(cur, Size(|c.ip|));
    ValueOfFrom(cur, |c.ip|);
    StillThere(c, ip);
  }

  lemma Reads(s: seq<Byte>, v: nat)
    requires Value(s) == v
    ensures s == FromValue(v, |s|)
  {
    FromOfValue(s);
  }

  lemma NextAddress(cur: nat, ip: seq<Byte>)
    requires ip == FromValue(cur, |ip|) && cur < Size(|ip|)
    ensures Incremented(ip) == FromValue((cur + 1) % Size(|ip|), |ip|)
  {
    hide Value, Size, FromValue, Incremented;
    var n := |ip|;
    var size := Size(n);
    ValueOfFrom(cur, n);
    IncrementedIsPlusOne(ip);
    Reads(Incremented(ip), (cur + 1) % size);
  }

  /** What net.ParseCIDR, which is library code, reads in these texts are networks, IPv4 ones in their own form. */
  ghost predicate ReadsCidrs(texts: seq<string>, parseCidr: string -> Option<Cidr>) {
    forall i :: 0 <= i < |texts| && parseCidr(texts[i]).Some? ==>
      var c := parseCidr(texts[i]).value; ValidCidr(c) && !(Mapped(c.ip) && c.ones >= MAPPED_ONES)
  }

  /** That is so for the two ends of each range. */
  ghost predicate ReadsRanges(ranges: seq<string>, parseCidr: string -> Option<Cidr>) {
    forall i :: 0 <= i < |ranges| ==> ReadsCidrs(Split(ranges[i], '-'), parseCidr)
  }

  /** What becomes of one "start-end": its addresses, an error, or a walk that never ends. */
  datatype RangeResult = Found(addresses: seq<seq<Byte>>) | Bad | Endless

  /** It is bad if it cannot be read or its ends are not in one network. */
  function RangeAddresses(text: string, parseCidr: string -> Option<Cidr>): RangeResult
    requires ReadsCidrs(Split(text, '-'), parseCidr)
  {
    var ends := Split(text, '-');
    if |ends| != 2 then Bad
    else
      var first, last := parseCidr(ends[0]), parseCidr(ends[1]);
      if first.None? || last.None? || !SameNetwork(first.value, last.value) then Bad
      else if !Ends(first.value) then Endless
      else Found(Between(first.value, last.value))
  }

  /** The addresses of the first n ranges, in order. */
  function Collected(ranges: seq<string>, n: nat, parseCidr: string -> Option<Cidr>): seq<seq<Byte>>
    requires ReadsRanges(ranges, parseCidr) && n <= |ranges|
    requires forall i :: 0 <= i < n ==> RangeAddresses(ranges[i], parseCidr).Found?
  {
    if n == 0 then [] else Collected(ranges, n - 1, parseCidr) + RangeAddresses(ranges[n - 1], parseCidr).addresses
  }

  /** One range. Where the source's walk never ends, this says so instead. */
  method ParseRange(text: string, parseCidr: string -> Option<Cidr>) returns (r: RangeResult)
    requires ReadsCidrs(Split(text, '-'), parseCidr)
    ensures r == RangeAddresses(text, parseCidr)
  {
    hide Between;
    var ranges := Split(text, '-');
    if |ranges| != 2 {
      return Bad;
    }
    var first := parseCidr(ranges[0]);
    if first.None? {
      return Bad;
    }
    var last := parseCidr(ranges[1]);
    if last.None? {
      return Bad;
    }
    if !SameNetwork(first.value, last.value) {
      return Bad;
    }
    if !Ends(first.value) {
      return Endless;
    }
    var rc := Enumerate(first.value, last.value);
    r := Found(rc);
  }

  /**
   ParseIpRanges. On an error it returns what the ranges before the bad one gave; it hangs in the first
   endless one.
   */
  method ParseIpRanges(ipranges: string, parseCidr: string -> Option<Cidr>)
      returns (rc: seq<seq<Byte>>, err: bool, hangs: bool, bad: nat)
    requires ReadsRanges(Split(ipranges, ','), parseCidr)
    ensures ipranges == "" ==> err && !hangs && rc == []
    ensures ipranges != "" ==> bad <= |Split(ipranges, ',')|
    ensures ipranges != "" ==> forall i :: 0 <= i < bad ==> RangeAddresses(Split(ipranges, ',')[i], parseCidr).Found?
    ensures ipranges != "" ==> rc == Collected(Split(ipranges, ','), bad, parseCidr)
    ensures ipranges != "" ==> (err || hangs <==> bad < |Split(ipranges, ',')|)
    ensures ipranges != "" && err ==> RangeAddresses(Split(ipranges, ',')[bad], parseCidr).Bad?
    ensures ipranges != "" && hangs ==> RangeAddresses(Split(ipranges, ',')[bad], parseCidr).Endless?
  {
    hide RangeAddresses, Split, ReadsCidrs;
    rc, hangs, bad := [], false, 0;
    if ipranges == "" {
      return rc, true, false, 0;
    }
    var ipRanges := Split(ipranges, ',');
    while bad < |ipRanges|
      invariant bad <= |ipRanges|
      invariant forall i :: 0 <= i < bad ==> RangeAddresses(ipRanges[i], parseCidr).Found?
      invariant rc == Collected(ipRanges, bad, parseCidr)
    {
      var more := ParseRange(ipRanges[bad], parseCidr);
      if !more.Found? {
        return rc, more.Bad?, more.Endless?, bad;
      }
      rc, bad := rc + more.addresses, bad + 1;
    }
    err := false;
  }
}
