/** The one-pass check of domain names (cf. sections 2.3.1 and 2.3.4 of RFC 1035). A character is one byte. */
module DomainName {
  import opened Strings

  predicate IsLetter(c: char) { 'a' <= c <= 'z' || 'A' <= c <= 'Z' || c == '_' }

  predicate IsNumber(c: char) { '0' <= c <= '9' }

  /** A character a label may hold. */
  predicate Allowed(c: char) { IsLetter(c) || IsNumber(c) || c == '-' }

  /** A label: 1 to 63 allowed characters, no dash at either end. */
  predicate GoodLabel(l: string) {
    && 1 <= |l| <= 63
    && (forall i :: 0 <= i < |l| ==> Allowed(l[i]))
    && l[0] != '-' && l[|l| - 1] != '-'
  }

  predicate HasLetter(s: string) {
    exists i :: 0 <= i < |s| && IsLetter(s[i])
  }

  /** The name without the dot that may end it. */
  function Undotted(s: string): string {
    if s != "" && s[|s| - 1] == '.' then s[..|s| - 1] else s
  }

  /** What a domain name is: at most 253 characters, dot-separated labels, and a letter or underscore somewhere. */
  predicate ValidName(s: string) {
    var name := Undotted(s);
    && 1 <= |name| <= 253
    && (forall i :: 0 <= i < |Split(name, '.')| ==> GoodLabel(Split(name, '.')[i]))
    && HasLetter(name)
  }

  // ---------------------------------------------------------------------------------------------
  // What the rest of a scan decides
  // ---------------------------------------------------------------------------------------------

  /** The label scanned so far could still become a good one. */
  predicate GoodStart(cur: string) {
    && (forall i :: 0 <= i < |cur| ==> Allowed(cur[i]))
    && (cur != "" ==> cur[0] != '-')
  }

  /** The scanner's `last`. */
  function LastOf(cur: string): char {
    if cur == "" then '.' else cur[|cur| - 1]
  }

  /** The verdict on the rest of the input, when `cur` is the label so far and `ok` says whether there was a letter. */
  predicate Accepts(cur: string, rest: string, ok: bool)
    decreases |rest|
  {
    if rest == "" then LastOf(cur) != '-' && |cur| <= 63 && ok
    else
      var c := rest[0];
      if IsLetter(c) then Accepts(cur + [c], rest[1..], true)
      else if IsNumber(c) then Accepts(cur + [c], rest[1..], ok)
      else if c == '-' then LastOf(cur) != '.' && Accepts(cur + [c], rest[1..], ok)
      else if c == '.' then LastOf(cur) != '.' && LastOf(cur) != '-' && 0 < |cur| <= 63 && Accepts("", rest[1..], ok)
      else false
  }

  /** All labels are good, but the last may be empty. */
  predicate LabelsOk(parts: seq<string>) {
    && (forall i :: 0 <= i < |parts| - 1 ==> GoodLabel(parts[i]))
    && (parts != [] ==> parts[|parts| - 1] == "" || GoodLabel(parts[|parts| - 1]))
  }

  lemma NoDotYet(cur: string)
    requires GoodStart(cur)
    ensures '.' !in cur
  {
  }

  lemma FirstThenRest(l: string, parts: seq<string>)
    requires parts != []
    ensures LabelsOk([l] + parts) <==> GoodLabel(l) && LabelsOk(parts)
  {
    var all := [l] + parts;
    assert all[|all| - 1] == parts[|parts| - 1];
    if LabelsOk(all) {
      assert all[0] == l;
      forall i | 0 <= i < |parts| - 1 ensures GoodLabel(parts[i]) { assert all[i + 1] == parts[i]; }
    }
  }

  /** A first label that starts badly cannot be repaired. */
  lemma BadFirst(parts: seq<string>, k: nat)
    requires parts != [] && k < |parts[0]|
    requires !Allowed(parts[0][k]) || (k == 0 && parts[0][k] == '-')
    ensures !LabelsOk(parts)
  {
    assert !GoodLabel(parts[0]);
  }

  lemma LetterAhead(rest: string)
    requires rest != ""
    ensures HasLetter(rest) <==> IsLetter(rest[0]) || HasLetter(rest[1..])
  {
    if i :| 0 <= i < |rest| && IsLetter(rest[i]) {
      if i > 0 { assert rest[1..][i - 1] == rest[i]; }
    }
    if i :| 0 <= i < |rest[1..]| && IsLetter(rest[1..][i]) {
      assert rest[i + 1] == rest[1..][i];
    }
  }

  /** The scan accepts exactly when the labels are in order and a letter was or will be seen. */
  lemma {:induction false} ScanMeans(cur: string, rest: string, ok: bool)
    requires GoodStart(cur)
    ensures Accepts(cur, rest, ok) <==> LabelsOk(Split(cur + rest, '.')) && (ok || HasLetter(rest))
    decreases |rest|
  {
    hide GoodLabel, Split;
    NoDotYet(cur);
    if rest == "" {
      EndOfScan(cur);
      assert cur + rest == cur;
    } else {
      var c := rest[0];
      LetterAhead(rest);
      assert cur + rest == cur + [c] + rest[1..];
      if Allowed(c) && (c == '-' ==> cur != "") {
        assert cur + rest == (cur + [c]) + rest[1..];
        GrownStart(cur, c);
        ScanMeans(cur + [c], rest[1..], ok || IsLetter(c));
      } else if c == '.' {
        SplitFirst(cur, rest[1..], '.');
        FirstThenRest(cur, Split(rest[1..], '.'));
        LabelEnds(cur);
        assert "" + rest[1..] == rest[1..];
        ScanMeans("", rest[1..], ok);
      } else {
        SplitPrefix(cur, rest, '.');
        StartOfSplit(rest);
        BadFirst(Split(cur + rest, '.'), |cur|);
      }
    }
  }

  lemma GrownStart(cur: string, c: char)
    requires GoodStart(cur) && Allowed(c) && (c == '-' ==> cur != "")
    ensures GoodStart(cur + [c])
    ensures LastOf(cur) != '.'  || cur == ""
  {
  }

  lemma StartOfSplit(s: string)
    requires s != "" && s[0] != '.'
    ensures Split(s, '.')[0] != "" && Split(s, '.')[0][0] == s[0]
  {
  }

  lemma LabelEnds(cur: string)
    requires GoodStart(cur)
    ensures GoodLabel(cur) <==> LastOf(cur) != '.' && LastOf(cur) != '-' && 0 < |cur| <= 63
  {
  }

  lemma EndOfScan(cur: string)
    requires GoodStart(cur) && '.' !in cur
    ensures LabelsOk(Split(cur, '.')) <==> LastOf(cur) != '-' && |cur| <= 63
    ensures !HasLetter("")
  {
    SplitWhole(cur, '.');
    LabelEnds(cur);
  }

  lemma AllGood(parts: seq<string>)
    ensures LabelsOk(parts + [""]) <==> forall i :: 0 <= i < |parts| ==> GoodLabel(parts[i])
  {
    var all := parts + [""];
    if LabelsOk(all) {
      forall i | 0 <= i < |parts| ensures GoodLabel(parts[i]) { assert all[i] == parts[i]; }
    }
  }

  /** A scan of the whole name decides whether the labels are good and there is a letter. */
  lemma WholeScan(s: string)
    requires s != ""
    ensures Accepts("", s, false) <==>
      (forall i :: 0 <= i < |Split(Undotted(s), '.')| ==> GoodLabel(Split(Undotted(s), '.')[i]))
        && HasLetter(Undotted(s))
  {
    hide GoodLabel, Split, Accepts;
    assert "" + s == s;
    ScanMeans("", s, false);
    LastPartEmpty(s, '.');
    var name := Undotted(s);
    if s[|s| - 1] == '.' {
      assert s == name + ['.'];
      SplitTrailing(name, '.');
      AllGood(Split(name, '.'));
      SameLetters(s);
    } else {
      LastIsGood(Split(s, '.'));
    }
  }

  lemma SameLetters(s: string)
    requires s != "" && s[|s| - 1] == '.'
    ensures HasLetter(s) <==> HasLetter(s[..|s| - 1])
  {
    if i :| 0 <= i < |s| && IsLetter(s[i]) { assert s[..|s| - 1][i] == s[i]; }
  }

  lemma LastIsGood(parts: seq<string>)
    requires parts != [] && parts[|parts| - 1] != ""
    ensures LabelsOk(parts) <==> forall i :: 0 <= i < |parts| ==> GoodLabel(parts[i])
  {
  }

  // ---------------------------------------------------------------------------------------------
  // The scanner
  // ---------------------------------------------------------------------------------------------

  /** isDomainName accepts exactly the domain names. */
  method IsDomainName(s: string) returns (r: bool)
    ensures r <==> ValidName(s)
  {
    var l := |s|;
    if l == 0 || l > 254 || (l == 254 && s[l - 1] != '.') {
      return false;
    }
    WholeScan(s);
    JustADot(s);
    hide ValidName, IsLetter, IsNumber;
    var last, ok, partlen := '.', false, 0;
    ghost var cur := "";
    assert s[0..] == s;
    for i := 0 to |s|
      invariant last == LastOf(cur) && partlen == |cur|
      invariant Accepts("", s, false) <==> Accepts(cur, s[i..], ok)
    {
      var c := s[i];
      assert s[i..][0] == c && s[i..][1..] == s[i + 1..];
      if IsLetter(c) {
        ok := true;
        partlen, cur := partlen + 1, cur + [c];
      } else if IsNumber(c) {
        partlen, cur := partlen + 1, cur + [c];
      } else if c == '-' {
        if last == '.' {
          return false;
        }
        partlen, cur := partlen + 1, cur + [c];
      } else if c == '.' {
        if last == '.' || last == '-' {
          return false;
        }
        if partlen > 63 || partlen == 0 {
          return false;
        }
        partlen, cur := 0, "";
      } else {
        return false;
      }
      last := c;
    }
    if last == '-' || partlen > 63 {
      return false;
    }
    r := ok;
  }

  /** The length test, and what a scan of a name of admissible length decides. */
  lemma JustADot(s: string)
    requires 1 <= |s| <= 254 && (|s| == 254 ==> s[|s| - 1] == '.')
    requires Accepts("", s, false) <==>
      (forall i :: 0 <= i < |Split(Undotted(s), '.')| ==> GoodLabel(Split(Undotted(s), '.')[i]))
        && HasLetter(Undotted(s))
    ensures ValidName(s) <==> Accepts("", s, false)
  {
  }

  /**
   Good labels joined by dots, within the length and with a letter, are the domain names, with or without a
   final dot.
   */
  lemma NamesAreJoins(labels: seq<string>)
    requires labels != [] && forall i :: 0 <= i < |labels| ==> GoodLabel(labels[i])
    ensures var name := Join(labels, '.');
      && (ValidName(name) <==> |name| <= 253 && HasLetter(name))
      && (ValidName(name + ".") <==> |name| <= 253 && HasLetter(name))
  {
    var name := Join(labels, '.');
    forall i | 0 <= i < |labels| ensures '.' !in labels[i] { assert GoodLabel(labels[i]); }
    SplitJoin(labels, '.');
    LastPartEmpty(name, '.');
    assert GoodLabel(labels[0]) && GoodLabel(labels[|labels| - 1]);
    assert (name + ".")[..|name|] == name;
  }
}
