/** Splitting strings at a separator, and joining them again. */
module Strings {

  /** strings.Split for a separator of one character. */
  function Split(s: string, sep: char): (parts: seq<string>)
    ensures parts != []
  {
    if s == [] then [[]]
    else
      var rest := Split(s[1..], sep);
      if s[0] == sep then [[]] + rest else [[s[0]] + rest[0]] + rest[1..]
  }

  function Join(parts: seq<string>, sep: char): string
    requires parts != []
  {
    if |parts| == 1 then parts[0] else parts[0] + [sep] + Join(parts[1..], sep)
  }

  lemma {:induction false} JoinSplit(s: string, sep: char)
    ensures Join(Split(s, sep), sep) == s
    ensures forall i :: 0 <= i < |Split(s, sep)| ==> sep !in Split(s, sep)[i]
    decreases |s|
  {
    if s != [] {
      JoinSplit(s[1..], sep);
      var rest := Split(s[1..], sep);
      var parts := Split(s, sep);
      if s[0] == sep {
        assert parts[1..] == rest;
      } else {
        assert parts[1..] == rest[1..];
        assert Join(parts, sep) == [s[0]] + Join(rest, sep);
      }
      assert s == [s[0]] + s[1..];
    }
  }

  lemma {:induction false} SplitWhole(s: string, sep: char)
    requires sep !in s
    ensures Split(s, sep) == [s]
    decreases |s|
  {
    if s != [] {
      SplitWhole(s[1..], sep);
      assert s == [s[0]] + s[1..];
    }
  }

  lemma {:induction false} SplitFirst(a: string, b: string, sep: char)
    requires sep !in a
    ensures Split(a + [sep] + b, sep) == [a] + Split(b, sep)
    decreases |a|
  {
    var s := a + [sep] + b;
    if a == [] {
      assert s[1..] == b;
    } else {
      SplitFirst(a[1..], b, sep);
      assert s[1..] == a[1..] + [sep] + b;
      assert a == [a[0]] + a[1..];
    }
  }

  /** Parts without the separator are what splitting their join gives. */
  lemma {:induction false} SplitJoin(parts: seq<string>, sep: char)
    requires parts != [] && forall i :: 0 <= i < |parts| ==> sep !in parts[i]
    ensures Split(Join(parts, sep), sep) == parts
    decreases |parts|
  {
    if |parts| == 1 {
      SplitWhole(parts[0], sep);
    } else {
      SplitJoin(parts[1..], sep);
      SplitFirst(parts[0], Join(parts[1..], sep), sep);
    }
  }

  /** What comes before the first separator of b joins b's first part. */
  lemma {:induction false} SplitPrefix(a: string, b: string, sep: char)
    requires sep !in a
    ensures Split(a + b, sep) == [a + Split(b, sep)[0]] + Split(b, sep)[1..]
    decreases |a|
  {
    var s, parts := a + b, Split(b, sep);
    if a == [] {
      assert s == b && a + parts[0] == parts[0];
    } else {
      SplitPrefix(a[1..], b, sep);
      assert s[1..] == a[1..] + b && s[0] == a[0];
      assert a == [a[0]] + a[1..];
      assert [a[0]] + (a[1..] + parts[0]) == a + parts[0];
    }
  }

  /** A trailing separator adds an empty last part. */
  lemma {:induction false} SplitTrailing(s: string, sep: char)
    ensures Split(s + [sep], sep) == Split(s, sep) + [[]]
    decreases |s|
  {
    var t := s + [sep];
    if s == [] {
      assert t[1..] == [];
    } else {
      SplitTrailing(s[1..], sep);
      assert t[1..] == s[1..] + [sep];
    }
  }

  /** The last part is empty exactly when the string is, or ends in the separator. */
  lemma {:induction false} LastPartEmpty(s: string, sep: char)
    ensures var parts := Split(s, sep); parts[|parts| - 1] == [] <==> s == [] || s[|s| - 1] == sep
    ensures |Split(s, sep)| == 1 ==> sep !in s
    decreases |s|
  {
    if s != [] {
      LastPartEmpty(s[1..], sep);
      var rest, parts := Split(s[1..], sep), Split(s, sep);
      if s[0] != sep && |rest| == 1 {
        assert s[|s| - 1] in s;
        assert parts[0] != [];
      } else {
        assert parts[|parts| - 1] == rest[|rest| - 1];
        assert |s| > 1 ==> s[1..][|s| - 2] == s[|s| - 1];
      }
      assert s == [s[0]] + s[1..];
    }
  }
}
