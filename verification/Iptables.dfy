/**
 Adding and removing labelled iptables rules on a host, over a shell that may fail any command.

 A host's rules are one list, each with its chain; -I puts a rule at the front, -D takes the first match out.
 */
module Iptables {
  import opened Options
  import opened Seqs

  datatype Chain = INPUT | OUTPUT | FORWARD

  /** One line of iptables-save: the words between the chain and the comment, the label in the comment, the target. */
  datatype Entry = Entry(chain: Chain, words: seq<string>, tag: Option<string>, accept: bool)

  datatype Endpoint = SourcePort | DestPort
  datatype Direction = Egress | Ingress

  datatype FirewallRule = FirewallRule(
    protocol: string,
    remoteCidr: string,
    portRange: string,
    interfaceIn: string,
    interfaceOut: string,
    endpoint: Endpoint,
    conntrack: string,
    destIP: string)

  datatype FirewallRules = FirewallRules(egress: seq<FirewallRule>, ingress: seq<FirewallRule>)

  const ALL: string := "0.0.0.0/0"

  // ---------------------------------------------------------------------------------------------
  // Entries of a rule
  // ---------------------------------------------------------------------------------------------

  function LowerChar(c: char): char {
    if 'A' <= c <= 'Z' then (c as int + 32) as char else c
  }

  /** strings.ToLower, on ASCII. */
  function Lower(s: string): (r: string) {
    seq(|s|, i requires 0 <= i < |s| => LowerChar(s[i]))
  }

  /** A range a:a is one port. */
  function Collapse(ports: string): string {
    var h := |ports| / 2;
    if |ports| % 2 == 1 && ports[h] == ':' && ':' !in ports[..h] && ports[h + 1..] == ports[..h] then ports[..h]
      else ports
  }

  /** What getIpTablesEntriesForRule leaves in the rule it was given. */
  function Rewritten(rule: FirewallRule): FirewallRule {
    rule.(portRange := Collapse(rule.portRange), protocol := Lower(rule.protocol))
  }

  function InterfaceWords(rule: FirewallRule): seq<string> {
    if rule.interfaceIn != "" then ["-i", rule.interfaceIn]
    else if rule.interfaceOut != "" then ["-o", rule.interfaceOut]
    else []
  }

  function DestWords(rule: FirewallRule): seq<string> {
    if rule.destIP != "" then ["-d", rule.destIP + "/32"] else []
  }

  function StateWords(rule: FirewallRule): seq<string> {
    if rule.conntrack != "" then ["-m", "conntrack", "--ctstate", rule.conntrack] else []
  }

  /** A CIDR of everything is left out; an empty one leaves its flag behind. */
  function CidrWords(direction: Direction, rule: FirewallRule): seq<string> {
    var flag := if direction.Egress? then "-d" else "-s";
    if rule.remoteCidr == ALL then [] else if rule.remoteCidr == "" then [flag] else [flag, rule.remoteCidr]
  }

  function ProtocolWords(rule: FirewallRule): seq<string> {
    var proto := Lower(rule.protocol);
    if proto == "" then []
    else if proto == "icmp" then ["-p", proto, "-m", proto, "--icmp-type", "any"]
    else ["-p", proto, "-m", proto]
  }

  function PortWords(rule: FirewallRule): seq<string> {
    var ports := Collapse(rule.portRange);
    if ports == "" || ports == "0" then [] else [if rule.endpoint.DestPort? then "--dport" else "--sport", ports]
  }

  /** The rule's options, word by word. */
  function Words(direction: Direction, rule: FirewallRule): seq<string> {
    InterfaceWords(rule) + DestWords(rule) + StateWords(rule) + CidrWords(direction, rule) + ProtocolWords(rule)
      + PortWords(rule)
  }

  function EntryOf(chain: Chain, direction: Direction, tag: string, rule: FirewallRule): Entry {
    Entry(chain, Words(direction, rule), Some(tag), true)
  }

  /** Egress rules go to two chains. */
  function EntriesOf(direction: Direction, tag: string, rule: FirewallRule): seq<Entry> {
    match direction
    case Egress => [EntryOf(OUTPUT, Egress, tag, rule), EntryOf(FORWARD, Egress, tag, rule)]
    case Ingress => [EntryOf(INPUT, Ingress, tag, rule)]
  }

  function EntriesOfAll(direction: Direction, tag: string, rules: seq<FirewallRule>): seq<Entry> {
    if rules == [] then []
    else EntriesOfAll(direction, tag, rules[..|rules| - 1]) + EntriesOf(direction, tag, rules[|rules| - 1])
  }

  /** The entries of a batch, in the order in which they are issued. */
  function Batch(tag: string, rules: FirewallRules): seq<Entry> {
    EntriesOfAll(Egress, tag, rules.egress) + EntriesOfAll(Ingress, tag, rules.ingress)
  }

  /** The rewriting does not change what the rule stands for. */
  lemma RewritingKeepsEntries(direction: Direction, tag: string, rule: FirewallRule)
    ensures EntriesOf(direction, tag, Rewritten(rule)) == EntriesOf(direction, tag, rule)
  {
    CollapseOnce(rule.portRange);
    assert Lower(Lower(rule.protocol)) == Lower(rule.protocol);
    var r := Rewritten(rule);
    assert PortWords(r) == PortWords(rule) && ProtocolWords(r) == ProtocolWords(rule);
    assert InterfaceWords(r) == InterfaceWords(rule) && DestWords(r) == DestWords(rule);
    assert StateWords(r) == StateWords(rule) && CidrWords(direction, r) == CidrWords(direction, rule);
    hide InterfaceWords, DestWords, StateWords, CidrWords, ProtocolWords, PortWords, Rewritten, Collapse, Lower;
    assert Words(direction, r) == Words(direction, rule);
  }

  lemma CollapseOnce(ports: string)
    ensures Collapse(Collapse(ports)) == Collapse(ports)
  {
    var c := Collapse(ports);
    if c != ports {
      assert ':' !in c;
      assert |c| % 2 == 1 ==> c[|c| / 2] != ':';
    }
  }

  /** Every entry of a batch carries its label and accepts. */
  predicate Labelled(es: seq<Entry>, tag: string) {
    forall i :: 0 <= i < |es| ==> es[i].tag == Some(tag) && es[i].accept
  }

  lemma OneRuleLabelled(direction: Direction, tag: string, rule: FirewallRule)
    ensures Labelled(EntriesOf(direction, tag, rule), tag)
  {
  }

  lemma {:induction false} BatchLabelled(direction: Direction, tag: string, rules: seq<FirewallRule>)
    ensures Labelled(EntriesOfAll(direction, tag, rules), tag)
    decreases |rules|
  {
    hide EntriesOf;
    if rules != [] {
      var n := |rules| - 1;
      BatchLabelled(direction, tag, rules[..n]);
      OneRuleLabelled(direction, tag, rules[n]);
    }
  }

  // ---------------------------------------------------------------------------------------------
  // Rule lists
  // ---------------------------------------------------------------------------------------------

  /** Which rules to look at: those a label query finds, or those with none of the given labels. */
  datatype Query = Under(tag: string) | Outside(labels: set<string>)

  /** The empty label finds every rule. */
  predicate Finds(q: Query, e: Entry) {
    match q
    case Under(tag) => tag == "" || e.tag == Some(tag)
    case Outside(labels) => !(e.tag.Some? && e.tag.value in labels)
  }

  /** The rules found, in list order. */
  function Select(rules: seq<Entry>, q: Query): seq<Entry> {
    if rules == [] then []
    else (if Finds(q, rules[0]) then [rules[0]] else []) + Select(rules[1..], q)
  }

  /** The entries not in the snapshot. */
  function Missing(es: seq<Entry>, snapshot: set<Entry>): seq<Entry> {
    if es == [] then []
    else Missing(es[..|es| - 1], snapshot) + (if es[|es| - 1] in snapshot then [] else [es[|es| - 1]])
  }

  /** The list after inserting, one after the other, what the snapshot lacks. */
  function Added(rules: seq<Entry>, snapshot: set<Entry>, es: seq<Entry>): seq<Entry> {
    Reverse(Missing(es, snapshot)) + rules
  }

  /** The list without the first match, if there is one. */
  function DeleteFirst(rules: seq<Entry>, e: Entry): seq<Entry> {
    if rules == [] then []
    else if rules[0] == e then rules[1..]
    else [rules[0]] + DeleteFirst(rules[1..], e)
  }

  /** The list without the first occurrence of each of the given entries. */
  function DropFirsts(rules: seq<Entry>, todo: set<Entry>): seq<Entry> {
    if rules == [] then []
    else if rules[0] in todo then DropFirsts(rules[1..], todo - {rules[0]})
    else [rules[0]] + DropFirsts(rules[1..], todo)
  }

  function Snapshot(rules: seq<Entry>, tag: string): set<Entry> {
    Elems(Select(rules, Under(tag)))
  }

  /** What removing a label's rules leaves. */
  function Cleared(rules: seq<Entry>, tag: string): seq<Entry> {
    DropFirsts(rules, Snapshot(rules, tag))
  }

  lemma {:induction false} SelectMembers(rules: seq<Entry>, q: Query)
    ensures forall e :: e in Select(rules, q) <==> e in rules && Finds(q, e)
    decreases |rules|
  {
    if rules != [] { SelectMembers(rules[1..], q); }
  }

  lemma {:induction false} SelectOfBoth(a: seq<Entry>, b: seq<Entry>, q: Query)
    ensures Select(a + b, q) == Select(a, q) + Select(b, q)
    decreases |a|
  {
    hide Finds;
    if a == [] {
      assert a + b == b;
    } else {
      SelectOfBoth(a[1..], b, q);
      var all := a + b;
      assert all[1..] == a[1..] + b && all[0] == a[0];
    }
  }

  lemma {:induction false} SelectAll(a: seq<Entry>, q: Query)
    requires forall e :: e in a ==> Finds(q, e)
    ensures Select(a, q) == a
    decreases |a|
  {
    if a != [] { SelectAll(a[1..], q); }
  }

  lemma {:induction false} SelectNone(a: seq<Entry>, q: Query)
    requires forall e :: e in a ==> !Finds(q, e)
    ensures Select(a, q) == []
    decreases |a|
  {
    if a != [] { SelectNone(a[1..], q); }
  }

  lemma {:induction false} MissingElems(es: seq<Entry>, snapshot: set<Entry>)
    ensures forall e :: e in Missing(es, snapshot) <==> e in es && e !in snapshot
    decreases |es|
  {
    if es != [] {
      var n := |es| - 1;
      MissingElems(es[..n], snapshot);
      assert es == es[..n] + [es[n]];
    }
  }

  lemma {:induction false} MissingNoDup(es: seq<Entry>, snapshot: set<Entry>)
    requires NoDup(es)
    ensures NoDup(Missing(es, snapshot))
    decreases |es|
  {
    if es != [] {
      var n := |es| - 1;
      assert es == es[..n] + [es[n]];
      LastNoDup(es[..n], es[n]);
      MissingNoDup(es[..n], snapshot);
      MissingElems(es[..n], snapshot);
      LastNoDup(Missing(es[..n], snapshot), es[n]);
    }
  }

  lemma {:induction false} NothingMissing(es: seq<Entry>, snapshot: set<Entry>)
    requires forall e :: e in es ==> e !in snapshot
    ensures Missing(es, snapshot) == es
    decreases |es|
  {
    if es != [] {
      var n := |es| - 1;
      assert es == es[..n] + [es[n]];
      NothingMissing(es[..n], snapshot);
    }
  }

  // ---------------------------------------------------------------------------------------------
  // What adding does
  // ---------------------------------------------------------------------------------------------

  /** Under its own label the new entries come first, latest first; nothing is found that was not there or asked for. */
  lemma AddedUnder(rules: seq<Entry>, snapshot: set<Entry>, es: seq<Entry>, tag: string)
    requires Labelled(es, tag)
    ensures Select(Added(rules, snapshot, es), Under(tag)) == Reverse(Missing(es, snapshot)) + Select(rules, Under(tag))
  {
    var more := Reverse(Missing(es, snapshot));
    NewAreAsked(snapshot, es);
    SelectAll(more, Under(tag));
    SelectOfBoth(more, rules, Under(tag));
  }

  lemma NewAreAsked(snapshot: set<Entry>, es: seq<Entry>)
    ensures forall e :: e in Reverse(Missing(es, snapshot)) <==> e in es && e !in snapshot
  {
    MissingElems(es, snapshot);
    ReverseElems(Missing(es, snapshot));
  }

  /** A query that does not find the label's rules sees no change. */
  lemma AddedElsewhere(rules: seq<Entry>, snapshot: set<Entry>, es: seq<Entry>, tag: string, q: Query)
    requires Labelled(es, tag) && Misses(q, tag)
    ensures Select(Added(rules, snapshot, es), q) == Select(rules, q)
  {
    var more := Reverse(Missing(es, snapshot));
    NewAreAsked(snapshot, es);
    SelectNone(more, q);
    SelectOfBoth(more, rules, q);
  }

  /** The query finds no rule with that label. */
  predicate Misses(q: Query, tag: string) {
    match q
    case Under(other) => other != "" && other != tag
    case Outside(labels) => tag in labels
  }

  /**
   After an AddIptablesRules whose commands succeed, a duplicate-free list is still duplicate-free
   exactly when the batch names no missing entry twice.
   */
  lemma AddedNoDup(rules: seq<Entry>, es: seq<Entry>, tag: string)
    requires NoDup(rules) && Labelled(es, tag)
    ensures NoDup(Added(rules, Snapshot(rules, tag), es)) <==> NoDup(Missing(es, Snapshot(rules, tag)))
  {
    var snapshot := Snapshot(rules, tag);
    var missing := Missing(es, snapshot);
    var more := Reverse(missing);
    NewAreAsked(snapshot, es);
    ReverseNoDup(missing);
    if NoDup(missing) {
      SelectMembers(rules, Under(tag));
      forall e | e in more ensures e !in rules {
        assert e !in Select(rules, Under(tag));
      }
      BothNoDup(more, rules);
    }
    if NoDup(more + rules) {
      PrefixNoDup(more, rules);
    }
  }

  // ---------------------------------------------------------------------------------------------
  // What removing does
  // ---------------------------------------------------------------------------------------------

  lemma {:induction false} DroppedElsewhere(rules: seq<Entry>, todo: set<Entry>, q: Query)
    requires forall e :: e in todo ==> !Finds(q, e)
    ensures Select(DropFirsts(rules, todo), q) == Select(rules, q)
    decreases |rules|
  {
    if rules != [] {
      if rules[0] in todo {
        DroppedElsewhere(rules[1..], todo - {rules[0]}, q);
      } else {
        DroppedElsewhere(rules[1..], todo, q);
        SelectOfBoth([rules[0]], DropFirsts(rules[1..], todo), q);
        SelectOfBoth([rules[0]], rules[1..], q);
        assert rules == [rules[0]] + rules[1..];
      }
    }
  }

  /** Taking out one entry after the other, in any order, takes out the first occurrence of each. */
  lemma {:induction false} DropOneMore(rules: seq<Entry>, done: set<Entry>, e: Entry)
    requires e !in done
    ensures DeleteFirst(DropFirsts(rules, done), e) == DropFirsts(rules, done + {e})
    decreases |rules|
  {
    if rules != [] {
      if rules[0] in done {
        DropOneMore(rules[1..], done - {rules[0]}, e);
        assert done - {rules[0]} + {e} == done + {e} - {rules[0]};
      } else if rules[0] == e {
        assert done + {e} - {e} == done;
      } else {
        DropOneMore(rules[1..], done, e);
      }
    }
  }

  lemma {:induction false} DropNothing(rules: seq<Entry>)
    ensures DropFirsts(rules, {}) == rules
    decreases |rules|
  {
    if rules != [] { DropNothing(rules[1..]); }
  }

  /** What is left of the dropped entries are their second and later occurrences. */
  lemma {:induction false} DroppedMembers(rules: seq<Entry>, todo: set<Entry>, e: Entry)
    ensures multiset(DropFirsts(rules, todo))[e] == Minus(multiset(rules)[e], if e in todo then 1 else 0)
    decreases |rules|
  {
    if rules != [] {
      assert rules == [rules[0]] + rules[1..];
      if rules[0] in todo {
        DroppedMembers(rules[1..], todo - {rules[0]}, e);
      } else {
        DroppedMembers(rules[1..], todo, e);
      }
    }
  }

  function Minus(a: nat, b: nat): nat {
    if a < b then 0 else a - b
  }

  lemma {:induction false} SelectCount(rules: seq<Entry>, q: Query, e: Entry)
    ensures multiset(Select(rules, q))[e] == if Finds(q, e) then multiset(rules)[e] else 0
    decreases |rules|
  {
    if rules != [] {
      assert rules == [rules[0]] + rules[1..];
      SelectCount(rules[1..], q, e);
    }
  }

  /**
   RemoveRulesForLabel, when its commands succeed, leaves none of the label's rules exactly if none was there
   twice.
   */
  lemma ClearedExactly(rules: seq<Entry>, tag: string)
    ensures Select(Cleared(rules, tag), Under(tag)) == [] <==> NoDup(Select(rules, Under(tag)))
  {
    var q := Under(tag);
    var found, left := Select(rules, q), Select(Cleared(rules, tag), q);
    OnceEach(found);
    forall e ensures multiset(left)[e] == Minus(multiset(found)[e], 1) {
      SelectCount(rules, q, e);
      SelectCount(Cleared(rules, tag), q, e);
      DroppedMembers(rules, Snapshot(rules, tag), e);
      assert e in multiset(found) <==> e in found;
      assert e in found <==> e in Snapshot(rules, tag);
    }
    if left == [] {
      forall e ensures multiset(found)[e] <= 1 { assert multiset(left)[e] == 0; }
    } else {
      assert left[0] in multiset(left);
      assert multiset(found)[left[0]] >= 2;
    }
  }

  lemma ClearedElsewhere(rules: seq<Entry>, tag: string, q: Query)
    requires tag != "" && Misses(q, tag)
    ensures Select(Cleared(rules, tag), q) == Select(rules, q)
  {
    SelectMembers(rules, Under(tag));
    DroppedElsewhere(rules, Snapshot(rules, tag), q);
  }

  lemma DroppedNoDup(rules: seq<Entry>, todo: set<Entry>)
    requires NoDup(rules)
    ensures NoDup(DropFirsts(rules, todo))
  {
    OnceEach(rules);
    OnceEach(DropFirsts(rules, todo));
    forall e ensures multiset(DropFirsts(rules, todo))[e] <= 1 { DroppedMembers(rules, todo, e); }
  }

  // ---------------------------------------------------------------------------------------------
  // Deleting a batch
  // ---------------------------------------------------------------------------------------------

  /** The list after deleting, one after the other, those of the entries that the snapshot has. */
  function Removed(rules: seq<Entry>, snapshot: set<Entry>, es: seq<Entry>): seq<Entry> {
    if es == [] then rules
    else
      var r := Removed(rules, snapshot, es[..|es| - 1]);
      if es[|es| - 1] in snapshot then DeleteFirst(r, es[|es| - 1]) else r
  }

  lemma {:induction false} RemovedIsDropped(rules: seq<Entry>, snapshot: set<Entry>, es: seq<Entry>)
    requires NoDup(es)
    ensures Removed(rules, snapshot, es) == DropFirsts(rules, Elems(es) * snapshot)
    decreases |es|
  {
    if es == [] {
      DropNothing(rules);
      assert Elems(es) * snapshot == {};
    } else {
      var n := |es| - 1;
      assert es == es[..n] + [es[n]];
      LastNoDup(es[..n], es[n]);
      RemovedIsDropped(rules, snapshot, es[..n]);
      var done := Elems(es[..n]) * snapshot;
      if es[n] in snapshot {
        DropOneMore(rules, done, es[n]);
        assert Elems(es) * snapshot == done + {es[n]};
      } else {
        assert Elems(es) * snapshot == done;
      }
    }
  }

  lemma {:induction false} DropFront(a: seq<Entry>, b: seq<Entry>)
    requires NoDup(a)
    ensures DropFirsts(a + b, Elems(a)) == b
    decreases |a|
  {
    if a == [] {
      assert a + b == b && Elems(a) == {};
      DropNothing(b);
    } else {
      var all := a + b;
      assert a == [a[0]] + a[1..] && all[0] == a[0] && all[1..] == a[1..] + b;
      HeadNoDup(a[0], a[1..]);
      assert Elems(a) - {a[0]} == Elems(a[1..]);
      DropFront(a[1..], b);
    }
  }

  /**
   Adding a batch of distinct rules and then deleting it restores the rule list exactly when none of the
   batch was there before: an entry that was is not added again, but it is deleted.
   */
  lemma RestoredExactly(rules: seq<Entry>, tag: string, es: seq<Entry>)
    requires NoDup(es) && Labelled(es, tag)
    ensures var added := Added(rules, Snapshot(rules, tag), es);
      Removed(added, Snapshot(added, tag), es) == rules <==> forall e :: e in es ==> e !in rules
  {
    hide NoDup, Elems, Added, DropFirsts, Removed;
    var added := Added(rules, Snapshot(rules, tag), es);
    AllDeleted(rules, tag, es);
    RemovedIsDropped(added, Snapshot(added, tag), es);
    if forall e :: e in es ==> e !in rules {
      FreshRestored(rules, tag, es);
    } else {
      var e :| e in es && e in rules;
      PresentIsLost(rules, tag, es, e);
    }
  }

  /** Deleting finds the whole batch. */
  lemma AllDeleted(rules: seq<Entry>, tag: string, es: seq<Entry>)
    requires Labelled(es, tag)
    ensures Elems(es) * Snapshot(Added(rules, Snapshot(rules, tag), es), tag) == Elems(es)
  {
    var added := Added(rules, Snapshot(rules, tag), es);
    SelectMembers(rules, Under(tag));
    SelectMembers(added, Under(tag));
    NewAreAsked(Snapshot(rules, tag), es);
    forall e | e in es ensures e in added { }
  }

  lemma FreshRestored(rules: seq<Entry>, tag: string, es: seq<Entry>)
    requires NoDup(es) && forall e :: e in es ==> e !in rules
    ensures DropFirsts(Added(rules, Snapshot(rules, tag), es), Elems(es)) == rules
  {
    SelectMembers(rules, Under(tag));
    NothingMissing(es, Snapshot(rules, tag));
    ReverseNoDup(es);
    ReverseElems(es);
    assert Elems(Reverse(es)) == Elems(es);
    DropFront(Reverse(es), rules);
  }

  lemma PresentIsLost(rules: seq<Entry>, tag: string, es: seq<Entry>, e: Entry)
    requires Labelled(es, tag) && e in es && e in rules
    ensures DropFirsts(Added(rules, Snapshot(rules, tag), es), Elems(es)) != rules
  {
    var added := Added(rules, Snapshot(rules, tag), es);
    SelectMembers(rules, Under(tag));
    NewAreAsked(Snapshot(rules, tag), es);
    DroppedMembers(added, Elems(es), e);
    assert e !in Reverse(Missing(es, Snapshot(rules, tag)));
    assert multiset(added)[e] == multiset(rules)[e];
  }

  // ---------------------------------------------------------------------------------------------
  // What the rules do to packets
  // ---------------------------------------------------------------------------------------------

  /** Whether a packet gets through a chain: the first rule it matches decides, else the chain's policy. */
  predicate Passes(rules: seq<Entry>, chain: Chain, byPolicy: bool, matches: Entry -> bool) {
    if rules == [] then byPolicy
    else if rules[0].chain == chain && matches(rules[0]) then rules[0].accept
    else Passes(rules[1..], chain, byPolicy, matches)
  }

  predicate AcceptOnly(rules: seq<Entry>, chain: Chain) {
    forall e :: e in rules && e.chain == chain ==> e.accept
  }

  predicate Matched(rules: seq<Entry>, chain: Chain, matches: Entry -> bool) {
    exists e :: e in rules && e.chain == chain && matches(e)
  }

  /** On a chain whose rules all accept, order does not matter. */
  lemma {:induction false} AcceptOnlyVerdict(rules: seq<Entry>, chain: Chain, byPolicy: bool, matches: Entry -> bool)
    requires AcceptOnly(rules, chain)
    ensures Passes(rules, chain, byPolicy, matches) <==> Matched(rules, chain, matches) || byPolicy
    decreases |rules|
  {
    if rules != [] {
      assert rules == [rules[0]] + rules[1..];
      AcceptOnlyVerdict(rules[1..], chain, byPolicy, matches);
    }
  }

  /**
   On such a chain, adding a batch lets through exactly what got through before and what an entry of the
   batch matches.
   */
  lemma AddedVerdict(rules: seq<Entry>, tag: string, es: seq<Entry>, chain: Chain, byPolicy: bool,
      matches: Entry -> bool)
    requires AcceptOnly(rules, chain) && Labelled(es, tag)
    ensures Passes(Added(rules, Snapshot(rules, tag), es), chain, byPolicy, matches) <==>
      Passes(rules, chain, byPolicy, matches) || Matched(es, chain, matches)
  {
    var added := Added(rules, Snapshot(rules, tag), es);
    NewAreAsked(Snapshot(rules, tag), es);
    SelectMembers(rules, Under(tag));
    assert forall e :: e in added <==> e in rules || e in es;
    AcceptOnlyVerdict(rules, chain, byPolicy, matches);
    AcceptOnlyVerdict(added, chain, byPolicy, matches);
  }
}
