/**
 The procedures that bring a host's iptables rules up to date, command by command. Any command may fail;
 `failed` counts the failures, so what holds when every command succeeds is said under `failed == old(failed)`.
 */
module IptablesHost {
  import opened Iptables
  import opened Options
  import opened Seqs

  datatype Command = Insert(entry: Entry) | Delete(entry: Entry) | DropPolicy(chain: Chain)

  /** InterfaceActionsOp, as far as rules are concerned. */
  datatype Action = Action(createIptables: bool, deleteIptables: bool)

  function After(rules: seq<Entry>, cmd: Command): seq<Entry> {
    match cmd
    case Insert(e) => [e] + rules
    case Delete(e) => DeleteFirst(rules, e)
    case DropPolicy(_) => rules
  }

  /** The rules of no other label, nor those without one, have changed. */
  ghost predicate OnlyTouches(before: seq<Entry>, after: seq<Entry>, tag: string) {
    forall q :: Misses(q, tag) ==> Select(after, q) == Select(before, q)
  }

  lemma TouchesNothing(rules: seq<Entry>, tag: string)
    ensures OnlyTouches(rules, rules, tag)
  {
  }

  lemma TouchesMore(before: seq<Entry>, now: seq<Entry>, after: seq<Entry>, tag: string)
    requires OnlyTouches(before, now, tag) && OnlyTouches(now, after, tag)
    ensures OnlyTouches(before, after, tag)
  {
  }

  lemma TouchesInsert(before: seq<Entry>, now: seq<Entry>, e: Entry, tag: string)
    requires OnlyTouches(before, now, tag) && e.tag == Some(tag)
    ensures OnlyTouches(before, [e] + now, tag)
  {
    forall q | Misses(q, tag) ensures Select([e] + now, q) == Select(before, q) {
      assert ([e] + now)[1..] == now;
    }
  }

  lemma {:induction false} DeleteElsewhere(rules: seq<Entry>, e: Entry, q: Query)
    requires !Finds(q, e)
    ensures Select(DeleteFirst(rules, e), q) == Select(rules, q)
    decreases |rules|
  {
    if rules != [] && rules[0] != e {
      DeleteElsewhere(rules[1..], e, q);
    }
  }

  lemma TouchesDelete(before: seq<Entry>, now: seq<Entry>, e: Entry, tag: string)
    requires OnlyTouches(before, now, tag) && e.tag == Some(tag)
    ensures OnlyTouches(before, DeleteFirst(now, e), tag)
  {
    forall q | Misses(q, tag) ensures Select(DeleteFirst(now, e), q) == Select(before, q) {
      DeleteElsewhere(now, e, q);
    }
  }

  lemma ReverseStep(s: seq<Entry>, e: Entry)
    ensures Reverse(s + [e]) == [e] + Reverse(s)
  {
    assert (s + [e])[..|s|] == s;
  }

  lemma NothingToAdd(rules: seq<Entry>, snapshot: set<Entry>)
    ensures Added(rules, snapshot, []) == rules
  {
  }

  lemma AddedStep(rules: seq<Entry>, snapshot: set<Entry>, es: seq<Entry>, k: nat)
    requires k < |es|
    ensures Added(rules, snapshot, es[..k + 1]) ==
      if es[k] in snapshot then Added(rules, snapshot, es[..k]) else [es[k]] + Added(rules, snapshot, es[..k])
  {
    var more := es[..k + 1];
    assert more[..k] == es[..k] && more[k] == es[k];
    var m := Missing(es[..k], snapshot);
    ReverseStep(m, es[k]);
    assert Missing(more, snapshot) == if es[k] in snapshot then m else m + [es[k]];
  }

  lemma RemovedStep(rules: seq<Entry>, snapshot: set<Entry>, es: seq<Entry>, k: nat)
    requires k < |es|
    ensures Removed(rules, snapshot, es[..k + 1]) ==
      if es[k] in snapshot then DeleteFirst(Removed(rules, snapshot, es[..k]), es[k])
        else Removed(rules, snapshot, es[..k])
  {
    var more := es[..k + 1];
    assert more[..k] == es[..k] && more[k] == es[k];
  }

  lemma {:induction false} AddedBoth(rules: seq<Entry>, snapshot: set<Entry>, a: seq<Entry>, b: seq<Entry>)
    ensures Added(Added(rules, snapshot, a), snapshot, b) == Added(rules, snapshot, a + b)
    decreases |b|
  {
    NothingToAdd(Added(rules, snapshot, a), snapshot);
    hide Added;
    if b == [] {
      assert a + b == a;
    } else {
      var n := |b| - 1;
      AddedBoth(rules, snapshot, a, b[..n]);
      AddedStep(Added(rules, snapshot, a), snapshot, b, n);
      AddedStep(rules, snapshot, a + b, |a| + n);
      assert b[..n + 1] == b && (a + b)[..|a| + n] == a + b[..n] && (a + b)[..|a| + n + 1] == a + b;
    }
  }

  lemma {:induction false} RemovedBoth(rules: seq<Entry>, snapshot: set<Entry>, a: seq<Entry>, b: seq<Entry>)
    ensures Removed(Removed(rules, snapshot, a), snapshot, b) == Removed(rules, snapshot, a + b)
    decreases |b|
  {
    if b == [] {
      assert a + b == a;
    } else {
      var n := |b| - 1;
      RemovedBoth(rules, snapshot, a, b[..n]);
      assert (a + b)[..|a + b| - 1] == a + b[..n] && (a + b)[|a + b| - 1] == b[n];
    }
  }

  lemma EntriesStep(direction: Direction, tag: string, rules: seq<FirewallRule>, k: nat)
    requires k < |rules|
    ensures EntriesOfAll(direction, tag, rules[..k + 1]) == EntriesOfAll(direction, tag, rules[..k])
      + EntriesOf(direction, tag, rules[k])
    ensures rules[..|rules|] == rules
  {
    assert rules[..k + 1][..k] == rules[..k];
  }

  class Host {
    var rules: seq<Entry>
    var dropped: set<Chain>
    var persisted: seq<Entry>
    var failed: nat

    constructor (rules: seq<Entry>)
      ensures this.rules == rules && dropped == {} && failed == 0
    {
      this.rules, persisted, dropped, failed := rules, rules, {}, 0;
    }

    /** sudo iptables: it may fail, and deleting a rule that is not there does. */
    method Run(cmd: Command) returns (ok: bool)
      modifies this
      ensures persisted == old(persisted)
      ensures ok ==> failed == old(failed) && rules == After(old(rules), cmd)
      ensures ok ==> dropped == old(dropped) + (if cmd.DropPolicy? then {cmd.chain} else {})
      ensures ok && cmd.Delete? ==> cmd.entry in old(rules)
      ensures !ok ==> failed == old(failed) + 1 && rules == old(rules) && dropped == old(dropped)
    {
      ok := *;
      if cmd.Delete? && cmd.entry !in rules {
        ok := false;
      }
      if ok {
        rules := After(rules, cmd);
        if cmd.DropPolicy? {
          dropped := dropped + {cmd.chain};
        }
      } else {
        failed := failed + 1;
      }
    }

    /** Runs the command if its rule's existence and the action call for it. */
    method DoIptablesCommand(cmd: Command, ruleExists: bool, action: Action) returns (ok: bool)
      modifies this
      ensures persisted == old(persisted)
      ensures (if ruleExists then !action.deleteIptables else !action.createIptables) ==>
        ok && failed == old(failed) && rules == old(rules) && dropped == old(dropped)
      ensures ok && (if ruleExists then action.deleteIptables else action.createIptables) ==>
        && failed == old(failed) && rules == After(old(rules), cmd)
        && dropped == old(dropped) + (if cmd.DropPolicy? then {cmd.chain} else {})
      ensures !ok ==> failed == old(failed) + 1 && rules == old(rules) && dropped == old(dropped)
    {
      var runCommand := false;
      if ruleExists {
        if action.deleteIptables {
          runCommand := true;
        }
      } else {
        if action.createIptables {
          runCommand := true;
        }
      }
      ok := true;
      if runCommand {
        ok := Run(cmd);
      }
    }

    /** getCurrentIptableRulesForLabel: the label's rules as a map, so each of them once. */
    method GetCurrentRules(tag: string) returns (ok: bool, current: set<Entry>)
      modifies this`failed
      ensures ok ==> failed == old(failed) && current == Snapshot(rules, tag)
      ensures !ok ==> failed == old(failed) + 1
    {
      ok := *;
      current := {};
      if !ok {
        failed := failed + 1;
        return;
      }
      current := Snapshot(rules, tag);
    }

    method PersistIptablesRules() returns (ok: bool)
      modifies this`failed, this`persisted
      ensures ok ==> failed == old(failed) && persisted == rules
      ensures !ok ==> failed == old(failed) + 1 && persisted == old(persisted)
    {
      ok := *;
      if ok {
        persisted := rules;
      } else {
        failed := failed + 1;
      }
    }

    method AddIptablesRule(direction: Direction, tag: string, rule: FirewallRule, current: set<Entry>)
        returns (ok: bool)
      modifies this
      ensures dropped == old(dropped) && persisted == old(persisted)
      ensures if ok then failed == old(failed) else failed == old(failed) + 1
      ensures ok ==> rules == Added(old(rules), current, EntriesOf(direction, tag, rule))
      ensures OnlyTouches(old(rules), rules, tag)
    {
      hide OnlyTouches, Added;
      var entries := EntriesOf(direction, tag, rule);
      OneRuleLabelled(direction, tag, rule);
      TouchesNothing(rules, tag);
      NothingToAdd(rules, current);
      assert entries[..0] == [];
      hide EntriesOf;
      for k := 0 to |entries|
        invariant dropped == old(dropped) && persisted == old(persisted) && failed == old(failed)
        invariant rules == Added(old(rules), current, entries[..k])
        invariant OnlyTouches(old(rules), rules, tag)
      {
        AddedStep(old(rules), current, entries, k);
        TouchesInsert(old(rules), rules, entries[k], tag);
        ok := DoIptablesCommand(Insert(entries[k]), entries[k] in current, Action(true, false));
        if !ok {
          return;
        }
      }
      assert entries[..|entries|] == entries;
      ok := true;
    }

    method RemoveIptablesRule(direction: Direction, tag: string, rule: FirewallRule, current: set<Entry>)
        returns (ok: bool)
      modifies this
      ensures dropped == old(dropped) && persisted == old(persisted)
      ensures if ok then failed == old(failed) else failed == old(failed) + 1
      ensures ok ==> rules == Removed(old(rules), current, EntriesOf(direction, tag, rule))
      ensures OnlyTouches(old(rules), rules, tag)
    {
      var entries := EntriesOf(direction, tag, rule);
      OneRuleLabelled(direction, tag, rule);
      TouchesNothing(rules, tag);
      assert Removed(rules, current, entries[..0]) == rules;
      hide EntriesOf, OnlyTouches, Removed;
      for k := 0 to |entries|
        invariant dropped == old(dropped) && persisted == old(persisted) && failed == old(failed)
        invariant rules == Removed(old(rules), current, entries[..k])
        invariant OnlyTouches(old(rules), rules, tag)
      {
        RemovedStep(old(rules), current, entries, k);
        TouchesDelete(old(rules), rules, entries[k], tag);
        ok := DoIptablesCommand(Delete(entries[k]), entries[k] in current, Action(false, true));
        if !ok {
          return;
        }
      }
      assert entries[..|entries|] == entries;
      ok := true;
    }

    /** The loop over the rules of one direction. */
    method AddEach(direction: Direction, tag: string, fwRules: seq<FirewallRule>, current: set<Entry>)
        returns (ok: bool)
      modifies this
      ensures dropped == old(dropped) && persisted == old(persisted)
      ensures if ok then failed == old(failed) else failed == old(failed) + 1
      ensures ok ==> rules == Added(old(rules), current, EntriesOfAll(direction, tag, fwRules))
      ensures OnlyTouches(old(rules), rules, tag)
    {
      NothingToAdd(rules, current);
      TouchesNothing(rules, tag);
      assert EntriesOfAll(direction, tag, fwRules[..0]) == [];
      hide OnlyTouches, EntriesOfAll, EntriesOf, Added;
      for i := 0 to |fwRules|
        invariant dropped == old(dropped) && persisted == old(persisted) && failed == old(failed)
        invariant rules == Added(old(rules), current, EntriesOfAll(direction, tag, fwRules[..i]))
        invariant OnlyTouches(old(rules), rules, tag)
      {
        EntriesStep(direction, tag, fwRules, i);
        AddedBoth(old(rules), current, EntriesOfAll(direction, tag, fwRules[..i]),
          EntriesOf(direction, tag, fwRules[i]));
        ghost var now := rules;
        ok := AddIptablesRule(direction, tag, fwRules[i], current);
        TouchesMore(old(rules), now, rules, tag);
        if !ok {
          return;
        }
      }
      assert fwRules[..|fwRules|] == fwRules;
      ok := true;
    }

    /** Adds what the batch names and the host lacks, in front; on failure it stops, having touched this label only. */
    method AddIptablesRules(tag: string, fw: FirewallRules) returns (ok: bool)
      modifies this
      ensures dropped == old(dropped)
      ensures if ok then failed == old(failed) else failed == old(failed) + 1
      ensures ok ==> rules == Added(old(rules), Snapshot(old(rules), tag), Batch(tag, fw)) && persisted == rules
      ensures OnlyTouches(old(rules), rules, tag)
    {
      TouchesNothing(rules, tag);
      hide OnlyTouches, EntriesOfAll, Added;
      var current;
      ok, current := GetCurrentRules(tag);
      if !ok {
        return;
      }
      ok := AddEach(Egress, tag, fw.egress, current);
      if !ok {
        return;
      }
      ghost var halfway := rules;
      ok := AddEach(Ingress, tag, fw.ingress, current);
      TouchesMore(old(rules), halfway, rules, tag);
      if !ok {
        return;
      }
      AddedBoth(old(rules), current, EntriesOfAll(Egress, tag, fw.egress), EntriesOfAll(Ingress, tag, fw.ingress));
      ok := PersistIptablesRules();
    }

    /** The loop over the rules of one direction. */
    method RemoveEach(direction: Direction, tag: string, fwRules: seq<FirewallRule>, current: set<Entry>)
        returns (ok: bool)
      modifies this
      ensures dropped == old(dropped) && persisted == old(persisted)
      ensures if ok then failed == old(failed) else failed == old(failed) + 1
      ensures ok ==> rules == Removed(old(rules), current, EntriesOfAll(direction, tag, fwRules))
      ensures OnlyTouches(old(rules), rules, tag)
    {
      TouchesNothing(rules, tag);
      assert EntriesOfAll(direction, tag, fwRules[..0]) == [];
      hide OnlyTouches, EntriesOfAll, EntriesOf;
      for i := 0 to |fwRules|
        invariant dropped == old(dropped) && persisted == old(persisted) && failed == old(failed)
        invariant rules == Removed(old(rules), current, EntriesOfAll(direction, tag, fwRules[..i]))
        invariant OnlyTouches(old(rules), rules, tag)
      {
        EntriesStep(direction, tag, fwRules, i);
        RemovedBoth(old(rules), current, EntriesOfAll(direction, tag, fwRules[..i]),
          EntriesOf(direction, tag, fwRules[i]));
        ghost var now := rules;
        ok := RemoveIptablesRule(direction, tag, fwRules[i], current);
        TouchesMore(old(rules), now, rules, tag);
        if !ok {
          return;
        }
      }
      assert fwRules[..|fwRules|] == fwRules;
      ok := true;
    }

    /** Deletes what the batch names and the host has. */
    method DeleteIptablesRules(tag: string, fw: FirewallRules) returns (ok: bool)
      modifies this
      ensures dropped == old(dropped)
      ensures if ok then failed == old(failed) else failed == old(failed) + 1
      ensures ok ==> rules == Removed(old(rules), Snapshot(old(rules), tag), Batch(tag, fw)) && persisted == rules
      ensures OnlyTouches(old(rules), rules, tag)
    {
      TouchesNothing(rules, tag);
      hide OnlyTouches, EntriesOfAll;
      var current;
      ok, current := GetCurrentRules(tag);
      if !ok {
        return;
      }
      ok := RemoveEach(Egress, tag, fw.egress, current);
      if !ok {
        return;
      }
      ghost var halfway := rules;
      ok := RemoveEach(Ingress, tag, fw.ingress, current);
      TouchesMore(old(rules), halfway, rules, tag);
      if !ok {
        return;
      }
      RemovedBoth(old(rules), current, EntriesOfAll(Egress, tag, fw.egress), EntriesOfAll(Ingress, tag, fw.ingress));
      ok := PersistIptablesRules();
    }

    /** Deletes every rule the label finds, in any order; a failing deletion is skipped and not reported. */
    method RemoveRulesForLabel(tag: string) returns (ok: bool)
      modifies this
      ensures dropped == old(dropped) && persisted == old(persisted) && failed >= old(failed)
      ensures !ok ==> failed > old(failed) && rules == old(rules)
      ensures failed == old(failed) ==> rules == Cleared(old(rules), tag)
      ensures tag != "" ==> OnlyTouches(old(rules), rules, tag)
    {
      var current;
      ok, current := GetCurrentRules(tag);
      if !ok {
        return;
      }
      SelectMembers(rules, Under(tag));
      DropNothing(rules);
      ghost var done: set<Entry> := {};
      while current != {}
        invariant dropped == old(dropped) && persisted == old(persisted) && failed >= old(failed)
        invariant done + current == Snapshot(old(rules), tag) && done !! current
        invariant forall e :: e in current ==> Finds(Under(tag), e)
        invariant failed == old(failed) ==> rules == DropFirsts(old(rules), done)
        invariant tag != "" ==> OnlyTouches(old(rules), rules, tag)
        decreases current
      {
        var rule :| rule in current;
        if tag != "" { TouchesDelete(old(rules), rules, rule, tag); }
        DropOneMore(old(rules), done, rule);
        var deleted := DoIptablesCommand(Delete(rule), true, Action(false, true));
        current, done := current - {rule}, done + {rule};
      }
      assert done == Snapshot(old(rules), tag);
    }
  }
}
