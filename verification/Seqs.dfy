/** Facts about duplicate-free sequences and finite sets that several proofs share. */
module Seqs {

  predicate NoDup<T(==)>(s: seq<T>) {
    forall i, j :: 0 <= i < j < |s| ==> s[i] != s[j]
  }

  function Elems<T(==)>(s: seq<T>): set<T> {
    set x | x in s
  }

  function Last<T>(s: seq<T>): T
    requires s != []
  {
    s[|s| - 1]
  }

  function Front<T>(s: seq<T>): seq<T>
    requires s != []
  {
    s[..|s| - 1]
  }

  /** A duplicate-free sequence has as many elements as positions. */
  lemma {:induction false} NoDupSize<T>(s: seq<T>)
    requires NoDup(s)
    ensures |Elems(s)| == |s|
  {
    if s == [] {
      assert Elems(s) == {};
    } else {
      var n := |s| - 1;
      var rest := s[..n];
      assert NoDup(rest) by {
        forall i, j | 0 <= i < j < n ensures rest[i] != rest[j] { assert s[i] != s[j]; }
      }
      assert s[n] !in rest;
      NoDupSize(rest);
      assert s == rest + [s[n]];
      assert Elems(s) == Elems(rest) + {s[n]};
    }
  }

  /** A set is at least as large as any of its subsets. */
  lemma SubsetSize<T>(small: set<T>, all: set<T>)
    requires small <= all
    ensures |small| <= |all|
  {
    assert all == small + (all - small);
  }

  /** A subset that is at least as large is the whole set. */
  lemma LargeSubsetIsAll<T>(small: set<T>, all: set<T>)
    requires small <= all && |all| <= |small|
    ensures small == all
  {
    var extra := all - small;
    assert all == small + extra;
    assert |extra| == 0;
  }

  /** Appending a new element keeps a sequence duplicate-free. */
  lemma AppendNew<T>(s: seq<T>, x: T)
    requires NoDup(s) && x !in Elems(s)
    ensures NoDup(s + [x]) && Elems(s + [x]) == Elems(s) + {x}
  {
    forall i, j | 0 <= i < j < |s + [x]| ensures (s + [x])[i] != (s + [x])[j] {
      assert s[i] in Elems(s);
    }
  }

  /** Counting one more element, and one more marked element if it is marked. */
  lemma CountOneMore<T>(seen: set<T>, x: T, marked: set<T>)
    requires x !in seen
    ensures |seen + {x}| == |seen| + 1
    ensures (seen + {x}) * marked == (if x in marked then seen * marked + {x} else seen * marked)
    ensures |(seen + {x}) * marked| == |seen * marked| + (if x in marked then 1 else 0)
  {
  }

  /** One more element of a prefix. */
  lemma PrefixStep<T>(s: seq<T>, i: nat)
    requires i < |s|
    ensures s[..i + 1] == s[..i] + [s[i]]
    ensures s[..|s|] == s
    ensures Elems(s[..i + 1]) == Elems(s[..i]) + {s[i]}
    ensures NoDup(s) ==> s[i] !in s[..i]
  {
    assert s[..i + 1] == s[..i] + [s[i]];
  }

  function Reverse<T>(s: seq<T>): seq<T> {
    if s == [] then [] else [s[|s| - 1]] + Reverse(s[..|s| - 1])
  }

  lemma HeadNoDup<T>(x: T, r: seq<T>)
    ensures NoDup([x] + r) <==> NoDup(r) && x !in r
  {
    var all := [x] + r;
    forall i | 0 <= i < |r| ensures all[i + 1] == r[i] {}
    if NoDup(all) {
      forall i | 0 <= i < |r| ensures r[i] != x { assert all[0] != all[i + 1]; }
      forall i, j | 0 <= i < j < |r| ensures r[i] != r[j] { assert all[i + 1] != all[j + 1]; }
    }
  }

  lemma LastNoDup<T>(r: seq<T>, x: T)
    ensures NoDup(r + [x]) <==> NoDup(r) && x !in r
  {
    var all := r + [x];
    if NoDup(all) {
      forall i | 0 <= i < |r| ensures r[i] != x { assert all[i] != all[|r|]; }
      forall i, j | 0 <= i < j < |r| ensures r[i] != r[j] { assert all[i] != all[j]; }
    }
  }

  lemma BothNoDup<T>(a: seq<T>, b: seq<T>)
    requires NoDup(a) && NoDup(b) && forall x :: x in a ==> x !in b
    ensures NoDup(a + b)
  {
    var all := a + b;
    forall i, j | 0 <= i < j < |all| ensures all[i] != all[j] {
      if i < |a| <= j { assert all[i] == a[i] && all[j] == b[j - |a|] && a[i] in a && b[j - |a|] in b; }
    }
  }

  lemma PrefixNoDup<T>(a: seq<T>, b: seq<T>)
    requires NoDup(a + b)
    ensures NoDup(a)
  {
    forall i, j | 0 <= i < j < |a| ensures a[i] != a[j] { assert (a + b)[i] != (a + b)[j]; }
  }

  lemma {:induction false} OnceEach<T>(s: seq<T>)
    ensures NoDup(s) <==> forall x :: multiset(s)[x] <= 1
    decreases |s|
  {
    if s != [] {
      var r := s[1..];
      assert s == [s[0]] + r;
      OnceEach(r);
      HeadNoDup(s[0], r);
      if NoDup(s) {
        forall x ensures multiset(s)[x] <= 1 { assert multiset(s)[x] == multiset([s[0]])[x] + multiset(r)[x]; }
      }
      if forall x :: multiset(s)[x] <= 1 {
        forall x ensures multiset(r)[x] <= 1 { assert multiset(r)[x] <= multiset(s)[x]; }
        assert multiset(s)[s[0]] == 1 + multiset(r)[s[0]];
      }
    }
  }

  lemma {:induction false} ReverseElems<T>(s: seq<T>)
    ensures |Reverse(s)| == |s| && forall x :: x in Reverse(s) <==> x in s
    decreases |s|
  {
    if s != [] {
      var n := |s| - 1;
      ReverseElems(s[..n]);
      assert s == s[..n] + [s[n]];
    }
  }

  lemma {:induction false} ReverseNoDup<T>(s: seq<T>)
    ensures NoDup(Reverse(s)) <==> NoDup(s)
    decreases |s|
  {
    if s != [] {
      var n := |s| - 1;
      var r := Reverse(s[..n]);
      ReverseNoDup(s[..n]);
      ReverseElems(s[..n]);
      HeadNoDup(s[n], r);
      LastNoDup(s[..n], s[n]);
      assert s == s[..n] + [s[n]];
    }
  }
}
