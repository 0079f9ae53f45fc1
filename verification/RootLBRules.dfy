/**
 SetupIptablesRulesForRootLB: the load balancer's rules after a trust policy update, and after any
 history of such updates.
 */
module RootLBRules {
  import opened Numbers
  import opened Iptables
  import opened IptablesHost
  import opened Options
  import opened Seqs

  const NETWORKING: string := "rootlb-networking"
  const CLOUDLET_WIDE: string := "cloudlet-wide"
  const DEFAULTS: string := "default-rules"

  /** edgeproto.SecurityRule. */
  datatype SecurityRule = SecurityRule(protocol: string, portRangeMin: nat, portRangeMax: nat, remoteCidr: string)

  const ANY: FirewallRule := FirewallRule("", ALL, "", "", "", DestPort, "", "")

  function DefaultRules(): FirewallRules {
    FirewallRules(
      [ANY.(interfaceOut := "lo"), ANY.(conntrack := "RELATED,ESTABLISHED")],
      [ANY.(interfaceIn := "lo"), ANY.(conntrack := "RELATED,ESTABLISHED")])
  }

  function SshRule(cidr: string): FirewallRule {
    ANY.(protocol := "tcp", remoteCidr := cidr, portRange := "22")
  }

  /** SSH from the given networks, everything on the internal one. */
  function NetRules(sshCidrs: seq<string>, internalRoute: string): FirewallRules {
    FirewallRules([ANY.(remoteCidr := internalRoute)],
      seq(|sshCidrs|, i requires 0 <= i < |sshCidrs| => SshRule(sshCidrs[i])) + [ANY.(remoteCidr := internalRoute)])
  }

  function PortText(r: SecurityRule): string {
    Decimal(r.portRangeMin) + (if r.portRangeMax != 0 then ":" + Decimal(r.portRangeMax) else "")
  }

  function EgressRule(r: SecurityRule): FirewallRule {
    ANY.(protocol := r.protocol, portRange := PortText(r), remoteCidr := r.remoteCidr)
  }

  function Lowered(rules: seq<SecurityRule>): seq<SecurityRule> {
    seq(|rules|, i requires 0 <= i < |rules| => rules[i].(protocol := Lower(rules[i].protocol)))
  }

  /** A policy's rules, all egress; everything is allowed out too unless egress is restricted. */
  function PolicyRules(rules: seq<SecurityRule>, egressRestricted: bool): FirewallRules {
    FirewallRules(
      seq(|rules|, i requires 0 <= i < |rules| => EgressRule(rules[i])) + (if egressRestricted then [] else [ANY]),
      [])
  }

  /** One call of the procedure: its parameters and the internal network's route. */
  datatype Update = Update(sshCidrs: seq<string>, internalRoute: string, egressRestricted: bool, secGrp: string,
      rules: seq<SecurityRule>)

  function NetBatch(u: Update): seq<Entry> { Batch(NETWORKING, NetRules(u.sshCidrs, u.internalRoute)) }
  function PolicyBatch(u: Update): seq<Entry> { Batch(u.secGrp, PolicyRules(Lowered(u.rules), u.egressRestricted)) }
  function DefaultBatch(): seq<Entry> { Batch(DEFAULTS, DefaultRules()) }

  function AddedUnderTag(rules: seq<Entry>, tag: string, es: seq<Entry>): seq<Entry> {
    Added(rules, Snapshot(rules, tag), es)
  }

  /** The rules when the policy's old ones are gone. */
  function Prepared(rules: seq<Entry>, u: Update): seq<Entry> {
    Cleared(Cleared(AddedUnderTag(rules, NETWORKING, NetBatch(u)), CLOUDLET_WIDE), u.secGrp)
  }

  /** What an update makes of a host's rules when every command succeeds. */
  function Updated(rules: seq<Entry>, u: Update): seq<Entry> {
    AddedUnderTag(AddedUnderTag(Prepared(rules, u), u.secGrp, PolicyBatch(u)), DEFAULTS, DefaultBatch())
  }

  /** The labels an update may touch. */
  function Managed(u: Update): set<string> {
    {NETWORKING, CLOUDLET_WIDE, DEFAULTS, u.secGrp}
  }

  // ---------------------------------------------------------------------------------------------
  // The procedure
  // ---------------------------------------------------------------------------------------------

  /** Nothing outside the managed labels has changed. */
  ghost predicate KeepsOthers(before: seq<Entry>, after: seq<Entry>, managed: set<string>) {
    Select(after, Outside(managed)) == Select(before, Outside(managed))
  }

  lemma KeepsWithin(before: seq<Entry>, now: seq<Entry>, after: seq<Entry>, managed: set<string>, tag: string)
    requires KeepsOthers(before, now, managed) && OnlyTouches(now, after, tag) && tag in managed
    ensures KeepsOthers(before, after, managed)
  {
    assert Misses(Outside(managed), tag);
  }

  /** fixupSecurityRules. */
  method FixupSecurityRules(rules: array<SecurityRule>)
    modifies rules
    ensures rules[..] == Lowered(old(rules[..]))
  {
    for i := 0 to rules.Length
      invariant forall k :: 0 <= k < i ==> rules[k] == Lowered(old(rules[..]))[k]
      invariant forall k :: i <= k < rules.Length ==> rules[k] == old(rules[k])
    {
      rules[i] := rules[i].(protocol := Lower(rules[i].protocol));
    }
  }

  method AddDefaultIptablesRules(host: Host) returns (ok: bool)
    modifies host
    ensures host.failed >= old(host.failed) && (ok <==> host.failed == old(host.failed))
    ensures ok ==>
      host.rules == AddedUnderTag(old(host.rules), DEFAULTS, DefaultBatch()) && {INPUT, OUTPUT} <= host.dropped
    ensures OnlyTouches(old(host.rules), host.rules, DEFAULTS)
  {
    hide OnlyTouches, Batch, Added, Snapshot, DefaultRules;
    ok := host.AddIptablesRules(DEFAULTS, DefaultRules());
    if !ok {
      return;
    }
    ok := host.DoIptablesCommand(DropPolicy(INPUT), false, Action(true, false));
    if !ok {
      return;
    }
    ok := host.DoIptablesCommand(DropPolicy(OUTPUT), false, Action(true, false));
  }

  method BuildNetRules(sshCidrs: seq<string>, internalRoute: string) returns (netRules: FirewallRules)
    ensures netRules == NetRules(sshCidrs, internalRoute)
  {
    var ingress := [];
    for i := 0 to |sshCidrs|
      invariant |ingress| == i && forall k :: 0 <= k < i ==> ingress[k] == SshRule(sshCidrs[k])
    {
      ingress := ingress + [SshRule(sshCidrs[i])];
    }
    netRules := FirewallRules([ANY.(remoteCidr := internalRoute)], ingress + [ANY.(remoteCidr := internalRoute)]);
  }

  method BuildPolicyRules(rules: seq<SecurityRule>, egressRestricted: bool) returns (ppRules: FirewallRules)
    ensures ppRules == PolicyRules(rules, egressRestricted)
  {
    var egress := [];
    for i := 0 to |rules|
      invariant |egress| == i && forall k :: 0 <= k < i ==> egress[k] == EgressRule(rules[k])
    {
      var portRange := Decimal(rules[i].portRangeMin);
      if rules[i].portRangeMax != 0 {
        portRange := portRange + ":" + Decimal(rules[i].portRangeMax);
      }
      egress := egress + [ANY.(protocol := rules[i].protocol, portRange := portRange,
        remoteCidr := rules[i].remoteCidr)];
    }
    if !egressRestricted {
      egress := egress + [ANY];
    }
    ppRules := FirewallRules(egress, []);
  }

  /**
   The whole procedure. It reports success even when removing old rules failed; but if no command failed,
   the rules are as specified, and whatever failed, other labels' rules are as they were.
   */
  method SetupIptablesRulesForRootLB(host: Host, sshCidrs: seq<string>, internalRoute: Option<string>,
      egressRestricted: bool, secGrp: string, rules: array<SecurityRule>)
    returns (ok: bool)
    modifies host, rules
    ensures rules[..] == Lowered(old(rules[..]))
    ensures internalRoute.None? ==> !ok && host.rules == old(host.rules)
    ensures internalRoute.Some? ==> (!ok ==> host.failed > old(host.failed))
    ensures internalRoute.Some? && host.failed == old(host.failed) ==>
      ok && host.rules == Updated(old(host.rules),
        Update(sshCidrs, internalRoute.value, egressRestricted, secGrp, old(rules[..])))
      && {INPUT, OUTPUT} <= host.dropped
    ensures secGrp != "" ==> KeepsOthers(old(host.rules), host.rules, {NETWORKING, CLOUDLET_WIDE, DEFAULTS, secGrp})
  {
    hide OnlyTouches, KeepsOthers, Batch, Added, Snapshot, Cleared, NetRules, PolicyRules;
    ghost var before := host.rules;
    ghost var managed := {NETWORKING, CLOUDLET_WIDE, DEFAULTS, secGrp};
    assert KeepsOthers(before, before, managed) by { KeepsAll(before, managed); }
    FixupSecurityRules(rules);
    if internalRoute.None? {
      return false;
    }
    var netRules := BuildNetRules(sshCidrs, internalRoute.value);
    ok := host.AddIptablesRules(NETWORKING, netRules);
    KeepsWithin(before, before, host.rules, managed, NETWORKING);
    if !ok {
      return;
    }
    ghost var s1 := host.rules;
    ok := host.RemoveRulesForLabel(CLOUDLET_WIDE);
    KeepsWithin(before, s1, host.rules, managed, CLOUDLET_WIDE);
    ghost var s2 := host.rules;
    ok := host.RemoveRulesForLabel(secGrp);
    if secGrp != "" { KeepsWithin(before, s2, host.rules, managed, secGrp); }
    ghost var s3 := host.rules;
    var ppRules := BuildPolicyRules(rules[..], egressRestricted);
    ok := host.AddIptablesRules(secGrp, ppRules);
    if secGrp != "" { KeepsWithin(before, s3, host.rules, managed, secGrp); }
    if !ok {
      return;
    }
    ghost var s4 := host.rules;
    ok := AddDefaultIptablesRules(host);
    if secGrp != "" { KeepsWithin(before, s4, host.rules, managed, DEFAULTS); }
  }

  lemma KeepsAll(rules: seq<Entry>, managed: set<string>)
    ensures KeepsOthers(rules, rules, managed)
  {
  }

  // ---------------------------------------------------------------------------------------------
  // One update
  // ---------------------------------------------------------------------------------------------

  /** The group's label is its own: it finds neither everything nor rules the procedure adds or clears anyway. */
  predicate OwnLabel(secGrp: string) {
    secGrp != "" && secGrp !in {NETWORKING, CLOUDLET_WIDE, DEFAULTS}
  }

  lemma BatchTagged(tag: string, fw: FirewallRules)
    ensures Labelled(Batch(tag, fw), tag)
  {
    BatchLabelled(Egress, tag, fw.egress);
    BatchLabelled(Ingress, tag, fw.ingress);
  }

  /**
   After an update whose commands succeed, the rules under the policy's label are exactly the entries of
   the policy, latest first, provided the host held no such rule twice.
   */
  lemma PolicyInForce(rules: seq<Entry>, u: Update)
    requires OwnLabel(u.secGrp) && NoDup(Select(rules, Under(u.secGrp)))
    ensures Select(Updated(rules, u), Under(u.secGrp)) == Reverse(PolicyBatch(u))
  {
    hide Select, Batch, Added, Cleared, DefaultRules;
    var q := Under(u.secGrp);
    var r1 := AddedUnderTag(rules, NETWORKING, NetBatch(u));
    var r2 := Cleared(r1, CLOUDLET_WIDE);
    BatchTagged(NETWORKING, NetRules(u.sshCidrs, u.internalRoute));
    AddedElsewhere(rules, Snapshot(rules, NETWORKING), NetBatch(u), NETWORKING, q);
    ClearedElsewhere(r1, CLOUDLET_WIDE, q);
    ClearedExactly(r2, u.secGrp);
    PolicyAdded(Prepared(rules, u), u);
  }

  lemma PolicyAdded(r3: seq<Entry>, u: Update)
    requires OwnLabel(u.secGrp) && Select(r3, Under(u.secGrp)) == []
    ensures Select(AddedUnderTag(AddedUnderTag(r3, u.secGrp, PolicyBatch(u)), DEFAULTS, DefaultBatch()),
      Under(u.secGrp)) == Reverse(PolicyBatch(u))
  {
    hide Select, Batch, Added, DefaultRules;
    var q := Under(u.secGrp);
    BatchTagged(u.secGrp, PolicyRules(Lowered(u.rules), u.egressRestricted));
    BatchTagged(DEFAULTS, DefaultRules());
    AddedUnder(r3, Snapshot(r3, u.secGrp), PolicyBatch(u), u.secGrp);
    assert Snapshot(r3, u.secGrp) == {};
    NothingMissing(PolicyBatch(u), {});
    var r4 := AddedUnderTag(r3, u.secGrp, PolicyBatch(u));
    AddedElsewhere(r4, Snapshot(r4, DEFAULTS), DefaultBatch(), DEFAULTS, q);
  }

  /** An update leaves alone every query that misses its labels. */
  lemma ElsewhereUnchanged(rules: seq<Entry>, u: Update, q: Query)
    requires u.secGrp != "" && forall tag :: tag in Managed(u) ==> Misses(q, tag)
    ensures Select(Updated(rules, u), q) == Select(rules, q)
  {
    hide Select, Batch, Added, Cleared, DefaultRules;
    BatchTagged(NETWORKING, NetRules(u.sshCidrs, u.internalRoute));
    BatchTagged(u.secGrp, PolicyRules(Lowered(u.rules), u.egressRestricted));
    BatchTagged(DEFAULTS, DefaultRules());
    assert NETWORKING in Managed(u) && CLOUDLET_WIDE in Managed(u) && u.secGrp in Managed(u) && DEFAULTS in Managed(u);
    var r1 := AddedUnderTag(rules, NETWORKING, NetBatch(u));
    AddedElsewhere(rules, Snapshot(rules, NETWORKING), NetBatch(u), NETWORKING, q);
    ClearedElsewhere(r1, CLOUDLET_WIDE, q);
    ClearedElsewhere(Cleared(r1, CLOUDLET_WIDE), u.secGrp, q);
    var r3 := Prepared(rules, u);
    AddedElsewhere(r3, Snapshot(r3, u.secGrp), PolicyBatch(u), u.secGrp, q);
    var r4 := AddedUnderTag(r3, u.secGrp, PolicyBatch(u));
    AddedElsewhere(r4, Snapshot(r4, DEFAULTS), DefaultBatch(), DEFAULTS, q);
  }

  /**
   Rules under other labels, or without one, survive a successful update exactly when the policy has a
   label, or there are none: the empty label finds every rule.
   */
  lemma OthersKeptExactly(rules: seq<Entry>, u: Update)
    ensures KeepsOthers(rules, Updated(rules, u), Managed(u)) <==>
      u.secGrp != "" || Select(rules, Outside(Managed(u))) == []
  {
    hide Select, Batch, Added, Cleared, DefaultRules, Updated;
    var q := Outside(Managed(u));
    if u.secGrp != "" {
      ElsewhereUnchanged(rules, u, q);
    } else {
      var r2 := BeforeClearing(rules, u, q);
      if Select(rules, q) != [] {
        var e := Select(rules, q)[0];
        EmptyLabelTakesOne(r2, u, q, e);
        assert e in multiset(Select(rules, q));
      } else {
        forall e ensures e !in multiset(Select(Updated(rules, u), q)) { EmptyLabelTakesOne(r2, u, q, e); }
        assert multiset(Select(Updated(rules, u), q)) == multiset{};
        assert |multiset(Select(Updated(rules, u), q))| == 0;
      }
    }
  }

  lemma BeforeClearing(rules: seq<Entry>, u: Update, q: Query) returns (r2: seq<Entry>)
    requires q == Outside(Managed(u))
    ensures Prepared(rules, u) == Cleared(r2, u.secGrp) && Select(r2, q) == Select(rules, q)
    ensures Updated(rules, u)
      == AddedUnderTag(AddedUnderTag(Cleared(r2, u.secGrp), u.secGrp, PolicyBatch(u)), DEFAULTS, DefaultBatch())
  {
    hide Select, Batch, Added, Cleared;
    var r1 := AddedUnderTag(rules, NETWORKING, NetBatch(u));
    BatchTagged(NETWORKING, NetRules(u.sshCidrs, u.internalRoute));
    AddedElsewhere(rules, Snapshot(rules, NETWORKING), NetBatch(u), NETWORKING, q);
    ClearedElsewhere(r1, CLOUDLET_WIDE, q);
    r2 := Cleared(r1, CLOUDLET_WIDE);
  }

  /** With the empty label, one occurrence of each rule goes, and none that the update does not manage comes. */
  lemma EmptyLabelTakesOne(r2: seq<Entry>, u: Update, q: Query, e: Entry)
    requires u.secGrp == "" && q == Outside(Managed(u))
    ensures multiset(Select(AddedUnderTag(AddedUnderTag(Cleared(r2, ""), "", PolicyBatch(u)), DEFAULTS, DefaultBatch()),
      q))[e]
      == Minus(multiset(Select(r2, q))[e], 1)
  {
    hide Select, Batch, Added, DefaultRules, PolicyRules;
    var r3 := Cleared(r2, "");
    var r4 := AddedUnderTag(r3, "", PolicyBatch(u));
    BatchTagged("", PolicyRules(Lowered(u.rules), u.egressRestricted));
    BatchTagged(DEFAULTS, DefaultRules());
    AddedElsewhere(r3, Snapshot(r3, ""), PolicyBatch(u), "", q);
    AddedElsewhere(r4, Snapshot(r4, DEFAULTS), DefaultBatch(), DEFAULTS, q);
    SelectMembers(r2, Under(""));
    DroppedMembers(r2, Snapshot(r2, ""), e);
    SelectCount(r2, q, e);
    SelectCount(r3, q, e);
    assert e in multiset(r2) <==> e in r2;
  }

  /** No batch of the update names an entry twice. */
  ghost predicate Distinct(u: Update) {
    NoDup(NetBatch(u)) && NoDup(PolicyBatch(u))
  }

  lemma AddKeepsNoDup(rules: seq<Entry>, tag: string, fw: FirewallRules)
    requires NoDup(rules) && NoDup(Batch(tag, fw))
    ensures NoDup(AddedUnderTag(rules, tag, Batch(tag, fw)))
  {
    BatchTagged(tag, fw);
    MissingNoDup(Batch(tag, fw), Snapshot(rules, tag));
    AddedNoDup(rules, Batch(tag, fw), tag);
  }

  lemma {:induction false} TwoRules(direction: Direction, tag: string, a: FirewallRule, b: FirewallRule)
    ensures EntriesOfAll(direction, tag, [a, b]) == EntriesOf(direction, tag, a) + EntriesOf(direction, tag, b)
  {
    hide EntriesOf;
    assert [a, b][..1] == [a] && [a][..0] == [];
    assert EntriesOfAll(direction, tag, [a]) == EntriesOf(direction, tag, a);
  }

  lemma StartDifferently(a: Entry, b: Entry)
    requires a.words != [] && b.words != [] && a.words[0] != b.words[0]
    ensures a != b
  {
  }

  lemma DefaultsDistinct()
    ensures NoDup(DefaultBatch())
  {
    var lo, est, loIn := ANY.(interfaceOut := "lo"), ANY.(conntrack := "RELATED,ESTABLISHED"),
      ANY.(interfaceIn := "lo");
    FirstWords(Egress);
    FirstWords(Ingress);
    TwoRules(Egress, DEFAULTS, lo, est);
    TwoRules(Ingress, DEFAULTS, loIn, est);
    hide Words, EntriesOfAll;
    StartDifferently(EntryOf(OUTPUT, Egress, DEFAULTS, lo), EntryOf(OUTPUT, Egress, DEFAULTS, est));
    StartDifferently(EntryOf(FORWARD, Egress, DEFAULTS, lo), EntryOf(FORWARD, Egress, DEFAULTS, est));
    StartDifferently(EntryOf(INPUT, Ingress, DEFAULTS, loIn), EntryOf(INPUT, Ingress, DEFAULTS, est));
  }

  lemma FirstWords(direction: Direction)
    ensures var lo := Words(direction, ANY.(interfaceOut := "lo")); lo != [] && lo[0] == "-o"
    ensures var est := Words(direction, ANY.(conntrack := "RELATED,ESTABLISHED")); est != [] && est[0] == "-m"
    ensures var loIn := Words(direction, ANY.(interfaceIn := "lo")); loIn != [] && loIn[0] == "-i"
  {
  }

  /** Updates that name nothing twice never make a rule appear twice. */
  lemma UpdateKeepsNoDup(rules: seq<Entry>, u: Update)
    requires NoDup(rules) && Distinct(u)
    ensures NoDup(Updated(rules, u))
  {
    hide Batch, Added, NoDup, NetRules, PolicyRules, DefaultRules, Lowered;
    AddKeepsNoDup(rules, NETWORKING, NetRules(u.sshCidrs, u.internalRoute));
    var r1 := AddedUnderTag(rules, NETWORKING, NetBatch(u));
    DroppedNoDup(r1, Snapshot(r1, CLOUDLET_WIDE));
    var r2 := Cleared(r1, CLOUDLET_WIDE);
    DroppedNoDup(r2, Snapshot(r2, u.secGrp));
    var r3 := Prepared(rules, u);
    AddKeepsNoDup(r3, u.secGrp, PolicyRules(Lowered(u.rules), u.egressRestricted));
    DefaultsDistinct();
    AddKeepsNoDup(AddedUnderTag(r3, u.secGrp, PolicyBatch(u)), DEFAULTS, DefaultRules());
  }

  // ---------------------------------------------------------------------------------------------
  // Histories
  // ---------------------------------------------------------------------------------------------

  /** The host's rules before and after each update of a history, all commands succeeding. */
  ghost predicate IsHistory(us: seq<Update>, states: seq<seq<Entry>>) {
    && |states| == |us| + 1
    && forall k :: 0 <= k < |us| ==> states[k + 1] == Updated(states[k], us[k])
  }

  ghost predicate AllDistinct(us: seq<Update>) {
    forall k :: 0 <= k < |us| ==> Distinct(us[k]) && OwnLabel(us[k].secGrp)
  }

  lemma {:induction false} HistoryNoDup(us: seq<Update>, states: seq<seq<Entry>>, n: nat)
    requires IsHistory(us, states) && AllDistinct(us) && NoDup(states[0]) && n < |states|
    ensures NoDup(states[n])
    decreases n
  {
    hide NoDup, Distinct, Updated;
    if n > 0 {
      HistoryNoDup(us, states, n - 1);
      UpdateKeepsNoDup(states[n - 1], us[n - 1]);
    }
  }

  lemma NoDupSelect(rules: seq<Entry>, q: Query)
    requires NoDup(rules)
    ensures NoDup(Select(rules, q))
  {
    OnceEach(rules);
    OnceEach(Select(rules, q));
    forall e ensures multiset(Select(rules, q))[e] <= 1 { SelectCount(rules, q, e); }
  }

  /**
   After any history of updates that name nothing twice, on a host without duplicates: the rules under a
   policy's label are exactly the entries of the latest update of that policy, and no rule is there twice.
   */
  lemma {:induction false} LatestPolicyInForce(us: seq<Update>, states: seq<seq<Entry>>, latest: nat, n: nat)
    requires IsHistory(us, states) && AllDistinct(us) && NoDup(states[0]) && latest < n < |states|
    requires forall k :: latest < k < n ==> us[k].secGrp != us[latest].secGrp
    ensures Select(states[n], Under(us[latest].secGrp)) == Reverse(PolicyBatch(us[latest])) && NoDup(states[n])
    decreases n
  {
    hide NoDup, Distinct, Updated, Select, PolicyBatch;
    HistoryNoDup(us, states, n - 1);
    HistoryNoDup(us, states, n);
    var tag := us[latest].secGrp;
    if n == latest + 1 {
      NoDupSelect(states[latest], Under(tag));
      PolicyInForce(states[latest], us[latest]);
    } else {
      LatestPolicyInForce(us, states, latest, n - 1);
      OtherPolicy(states[n - 1], us[n - 1], us[latest]);
    }
  }

  lemma OtherPolicy(rules: seq<Entry>, u: Update, earlier: Update)
    requires OwnLabel(u.secGrp) && OwnLabel(earlier.secGrp) && u.secGrp != earlier.secGrp
    requires NoDup(rules) && Select(rules, Under(earlier.secGrp)) == Reverse(PolicyBatch(earlier))
    ensures Select(Updated(rules, u), Under(earlier.secGrp)) == Reverse(PolicyBatch(earlier))
  {
    hide Updated, Select, PolicyBatch;
    ElsewhereUnchanged(rules, u, Under(earlier.secGrp));
  }

  /** Rules under labels that no update of the history manages, and rules without a label, are never changed. */
  lemma {:induction false} UnmanagedNeverChanges(us: seq<Update>, states: seq<seq<Entry>>, managed: set<string>, n: nat)
    requires IsHistory(us, states) && n < |states|
    requires forall k :: 0 <= k < |us| ==> us[k].secGrp != "" && Managed(us[k]) <= managed
    ensures Select(states[n], Outside(managed)) == Select(states[0], Outside(managed))
    decreases n
  {
    hide Updated, Select;
    if n > 0 {
      UnmanagedNeverChanges(us, states, managed, n - 1);
      ElsewhereUnchanged(states[n - 1], us[n - 1], Outside(managed));
    }
  }
}
