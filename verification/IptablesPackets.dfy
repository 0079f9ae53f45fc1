/**
 What the words of an entry mean to the packet filter, and that the entries generated for a rule mean
 the rule: in particular what a trust policy update lets out.
 */
module IptablesPackets {
  import opened Iptables
  import opened RootLBRules
  import opened Seqs

  /** What the filter can ask of a packet; how addresses, ports and states compare is its own business. */
  datatype Packet = Packet(
    inInterface: string,
    outInterface: string,
    source: string -> bool,           // is the source address in this network
    destination: string -> bool,
    protocol: string,
    sourcePort: string -> bool,       // is the source port in this range
    destinationPort: string -> bool,
    state: string -> bool)            // is the connection in one of these states

  /** One option with its value. */
  predicate OptionMatches(p: Packet, flag: string, value: string) {
    if flag == "-i" then p.inInterface == value
    else if flag == "-o" then p.outInterface == value
    else if flag == "-s" then p.source(value)
    else if flag == "-d" then p.destination(value)
    else if flag == "-p" then p.protocol == value
    else if flag == "--sport" then p.sourcePort(value)
    else if flag == "--dport" then p.destinationPort(value)
    else if flag == "--ctstate" then p.state(value)
    else flag == "-m" || (flag == "--icmp-type" && value == "any")
  }

  /** The filter reads the words as options with one value each; all must match. */
  predicate WordsMatch(words: seq<string>, p: Packet) {
    if |words| < 2 then words == []
    else OptionMatches(p, words[0], words[1]) && WordsMatch(words[2..], p)
  }

  /** What a rule says, without its words; one whose network is the empty text is about no packet. */
  predicate RuleMatches(direction: Direction, rule: FirewallRule, p: Packet) {
    var ports, proto := Collapse(rule.portRange), Lower(rule.protocol);
    && rule.remoteCidr != ""
    && (if rule.interfaceIn != "" then p.inInterface == rule.interfaceIn
        else rule.interfaceOut != "" ==> p.outInterface == rule.interfaceOut)
    && (rule.destIP != "" ==> p.destination(rule.destIP + "/32"))
    && (rule.conntrack != "" ==> p.state(rule.conntrack))
    && (rule.remoteCidr != ALL ==>
      if direction.Egress? then p.destination(rule.remoteCidr) else p.source(rule.remoteCidr))
    && (proto != "" ==> p.protocol == proto)
    && (ports != "" && ports != "0" ==>
      if rule.endpoint.DestPort? then p.destinationPort(ports) else p.sourcePort(ports))
  }

  lemma {:induction false} BothMatch(a: seq<string>, b: seq<string>, p: Packet)
    requires |a| % 2 == 0
    ensures WordsMatch(a + b, p) <==> WordsMatch(a, p) && WordsMatch(b, p)
    ensures |a + b| % 2 == |b| % 2
    decreases |a|
  {
    hide OptionMatches;
    if a == [] {
      assert a + b == b;
    } else {
      BothMatch(a[2..], b, p);
      var all := a + b;
      assert all[0] == a[0] && all[1] == a[1] && all[2..] == a[2..] + b;
    }
  }

  /** A flag left without its value spoils the whole entry. */
  lemma {:induction false} OddNeverMatches(words: seq<string>, p: Packet)
    requires |words| % 2 == 1
    ensures !WordsMatch(words, p)
    decreases |words|
  {
    hide OptionMatches;
    if |words| > 1 { OddNeverMatches(words[2..], p); }
  }

  lemma NoWords(p: Packet)
    ensures WordsMatch([], p)
  {
  }

  lemma OneOption(flag: string, value: string, p: Packet)
    ensures WordsMatch([flag, value], p) <==> OptionMatches(p, flag, value)
  {
    assert [flag, value][2..] == [];
  }

  lemma TwoOptions(f: string, v: string, g: string, w: string, p: Packet)
    ensures WordsMatch([f, v, g, w], p) <==> OptionMatches(p, f, v) && OptionMatches(p, g, w)
  {
    OneOption(g, w, p);
    assert [f, v, g, w][2..] == [g, w];
  }

  /** One option of the rule, as words and as meaning. */
  predicate Means(words: seq<string>, p: Packet, meaning: bool) {
    |words| % 2 == 0 && (WordsMatch(words, p) <==> meaning)
  }

  lemma BothMean(a: seq<string>, b: seq<string>, p: Packet, x: bool, y: bool)
    requires Means(a, p, x) && Means(b, p, y)
    ensures Means(a + b, p, x && y)
  {
    BothMatch(a, b, p);
  }

  lemma InterfaceMeans(rule: FirewallRule, p: Packet)
    ensures Means(InterfaceWords(rule), p,
              if rule.interfaceIn != "" then p.inInterface == rule.interfaceIn
              else rule.interfaceOut != "" ==> p.outInterface == rule.interfaceOut)
  {
    NoWords(p);
    OneOption("-i", rule.interfaceIn, p);
    OneOption("-o", rule.interfaceOut, p);
  }

  lemma DestAndStateMean(rule: FirewallRule, p: Packet)
    ensures Means(DestWords(rule), p, rule.destIP != "" ==> p.destination(rule.destIP + "/32"))
    ensures Means(StateWords(rule), p, rule.conntrack != "" ==> p.state(rule.conntrack))
  {
    NoWords(p);
    OneOption("-d", rule.destIP + "/32", p);
    TwoOptions("-m", "conntrack", "--ctstate", rule.conntrack, p);
  }

  lemma CidrMeans(direction: Direction, rule: FirewallRule, p: Packet)
    requires rule.remoteCidr != ""
    ensures Means(CidrWords(direction, rule), p,
              rule.remoteCidr != ALL ==>
                if direction.Egress? then p.destination(rule.remoteCidr) else p.source(rule.remoteCidr))
  {
    NoWords(p);
    OneOption("-d", rule.remoteCidr, p);
    OneOption("-s", rule.remoteCidr, p);
  }

  lemma ProtocolMeans(rule: FirewallRule, p: Packet)
    ensures Means(ProtocolWords(rule), p, Lower(rule.protocol) != "" ==> p.protocol == Lower(rule.protocol))
  {
    var proto := Lower(rule.protocol);
    NoWords(p);
    TwoOptions("-p", proto, "-m", proto, p);
    OneOption("--icmp-type", "any", p);
    BothMatch(["-p", proto, "-m", proto], ["--icmp-type", "any"], p);
    assert ["-p", proto, "-m", proto] + ["--icmp-type", "any"] == ["-p", proto, "-m", proto, "--icmp-type", "any"];
  }

  lemma PortMeans(rule: FirewallRule, p: Packet)
    ensures var ports := Collapse(rule.portRange);
      Means(PortWords(rule), p,
        ports != "" && ports != "0" ==>
          if rule.endpoint.DestPort? then p.destinationPort(ports) else p.sourcePort(ports))
  {
    NoWords(p);
    OneOption("--dport", Collapse(rule.portRange), p);
    OneOption("--sport", Collapse(rule.portRange), p);
  }

  lemma FullWordsMean(direction: Direction, rule: FirewallRule, p: Packet)
    requires rule.remoteCidr != ""
    ensures WordsMatch(Words(direction, rule), p) <==> RuleMatches(direction, rule, p)
  {
    InterfaceMeans(rule, p);
    DestAndStateMean(rule, p);
    CidrMeans(direction, rule, p);
    ProtocolMeans(rule, p);
    PortMeans(rule, p);
    hide WordsMatch, Collapse, Lower, InterfaceWords, DestWords, StateWords, CidrWords, ProtocolWords, PortWords;
    var w := InterfaceWords(rule);
    BothMean(w, DestWords(rule), p, WordsMatch(w, p), WordsMatch(DestWords(rule), p));
    w := w + DestWords(rule);
    BothMean(w, StateWords(rule), p, WordsMatch(w, p), WordsMatch(StateWords(rule), p));
    w := w + StateWords(rule);
    BothMean(w, CidrWords(direction, rule), p, WordsMatch(w, p), WordsMatch(CidrWords(direction, rule), p));
    w := w + CidrWords(direction, rule);
    BothMean(w, ProtocolWords(rule), p, WordsMatch(w, p), WordsMatch(ProtocolWords(rule), p));
    w := w + ProtocolWords(rule);
    BothMean(w, PortWords(rule), p, WordsMatch(w, p), WordsMatch(PortWords(rule), p));
  }

  lemma OneLeft(direction: Direction, rule: FirewallRule)
    requires rule.remoteCidr == ""
    ensures |Words(direction, rule)| % 2 == 1
  {
    hide Collapse, Lower;
  }

  /** An empty network leaves its flag behind, and the entry matches nothing. */
  lemma EmptyCidrMatchesNothing(direction: Direction, rule: FirewallRule, p: Packet)
    requires rule.remoteCidr == ""
    ensures !WordsMatch(Words(direction, rule), p)
  {
    OneLeft(direction, rule);
    hide WordsMatch, Words;
    OddNeverMatches(Words(direction, rule), p);
  }

  /** The entries of a rule match exactly the packets the rule is about, whatever chain they are in. */
  lemma WordsMeanRule(direction: Direction, rule: FirewallRule, p: Packet)
    ensures WordsMatch(Words(direction, rule), p) <==> RuleMatches(direction, rule, p)
  {
    hide WordsMatch, Words;
    if rule.remoteCidr == "" {
      EmptyCidrMatchesNothing(direction, rule, p);
    } else {
      FullWordsMean(direction, rule, p);
    }
  }

  // ---------------------------------------------------------------------------------------------
  // What an update lets out
  // ---------------------------------------------------------------------------------------------

  /** Some rule of a list is about the packet. */
  ghost predicate SomeRule(direction: Direction, rules: seq<FirewallRule>, p: Packet) {
    exists i :: 0 <= i < |rules| && RuleMatches(direction, rules[i], p)
  }

  ghost predicate EntryMatches(e: Entry, p: Packet) {
    WordsMatch(e.words, p)
  }

  ghost predicate MatchedBy(es: seq<Entry>, chain: Chain, p: Packet) {
    exists i :: 0 <= i < |es| && es[i].chain == chain && EntryMatches(es[i], p)
  }

  lemma MatchedByBoth(a: seq<Entry>, b: seq<Entry>, chain: Chain, p: Packet)
    ensures MatchedBy(a + b, chain, p) <==> MatchedBy(a, chain, p) || MatchedBy(b, chain, p)
  {
    hide EntryMatches;
    var all := a + b;
    if MatchedBy(a, chain, p) {
      var i :| 0 <= i < |a| && a[i].chain == chain && EntryMatches(a[i], p);
      assert all[i] == a[i];
    }
    if MatchedBy(b, chain, p) {
      var i :| 0 <= i < |b| && b[i].chain == chain && EntryMatches(b[i], p);
      assert all[|a| + i] == b[i];
    }
    if MatchedBy(all, chain, p) {
      var i :| 0 <= i < |all| && all[i].chain == chain && EntryMatches(all[i], p);
      assert if i < |a| then all[i] == a[i] else all[i] == b[i - |a|];
    }
  }

  /** Egress rules are in force for packets the host sends or forwards, ingress rules for those it receives. */
  predicate Serves(direction: Direction, chain: Chain) {
    if direction.Egress? then chain == OUTPUT || chain == FORWARD else chain == INPUT
  }

  lemma OneRule(direction: Direction, tag: string, rule: FirewallRule, chain: Chain, p: Packet)
    ensures MatchedBy(EntriesOf(direction, tag, rule), chain, p) <==>
      Serves(direction, chain) && RuleMatches(direction, rule, p)
  {
    WordsMeanRule(direction, rule, p);
    hide Words, WordsMatch, RuleMatches;
    var es := EntriesOf(direction, tag, rule);
    match direction
    case Egress => assert es[0].chain == OUTPUT && es[1].chain == FORWARD;
    case Ingress => assert es[0].chain == INPUT;
  }

  lemma {:induction false} RulesInForce(direction: Direction, tag: string, rules: seq<FirewallRule>, chain: Chain,
      p: Packet)
    ensures MatchedBy(EntriesOfAll(direction, tag, rules), chain, p) <==>
      Serves(direction, chain) && SomeRule(direction, rules, p)
    decreases |rules|
  {
    hide EntriesOf, RuleMatches, EntryMatches, Serves;
    if rules != [] {
      var n := |rules| - 1;
      RulesInForce(direction, tag, rules[..n], chain, p);
      OneRule(direction, tag, rules[n], chain, p);
      MatchedByBoth(EntriesOfAll(direction, tag, rules[..n]), EntriesOf(direction, tag, rules[n]), chain, p);
      OneMoreRule(direction, rules, p);
    }
  }

  /** A batch is in force for the chain by its rules of the chain's direction. */
  lemma BatchInForce(tag: string, fw: FirewallRules, chain: Chain, p: Packet)
    ensures MatchedBy(Batch(tag, fw), chain, p) <==>
      if chain == INPUT then SomeRule(Ingress, fw.ingress, p) else SomeRule(Egress, fw.egress, p)
  {
    hide SomeRule, MatchedBy;
    RulesInForce(Egress, tag, fw.egress, chain, p);
    RulesInForce(Ingress, tag, fw.ingress, chain, p);
    MatchedByBoth(EntriesOfAll(Egress, tag, fw.egress), EntriesOfAll(Ingress, tag, fw.ingress), chain, p);
  }

  lemma OneMoreRule(direction: Direction, rules: seq<FirewallRule>, p: Packet)
    requires rules != []
    ensures var n := |rules| - 1;
      SomeRule(direction, rules, p) <==> SomeRule(direction, rules[..n], p) || RuleMatches(direction, rules[n], p)
  {
    hide RuleMatches;
    var n := |rules| - 1;
    if SomeRule(direction, rules, p) {
      var i :| 0 <= i < |rules| && RuleMatches(direction, rules[i], p);
      if i < n { assert rules[..n][i] == rules[i]; }
    }
    if SomeRule(direction, rules[..n], p) {
      var i :| 0 <= i < n && RuleMatches(direction, rules[..n][i], p);
      assert rules[i] == rules[..n][i];
    }
  }

  /** What a security rule of a policy allows out. */
  predicate Allows(r: SecurityRule, p: Packet) {
    RuleMatches(Egress, EgressRule(r), p)
  }

  lemma AnyMatchesAll(p: Packet)
    ensures RuleMatches(Egress, ANY, p)
  {
  }

  /**
   The entries an update installs for a policy let a packet out, or through, exactly when egress is not
   restricted or one of the policy's rules allows it.
   */
  lemma PolicyLetsOut(u: Update, chain: Chain, p: Packet)
    requires chain == OUTPUT || chain == FORWARD
    ensures MatchedBy(PolicyBatch(u), chain, p) <==>
      !u.egressRestricted || exists i ::
        0 <= i < |u.rules| && Allows(u.rules[i].(protocol := Lower(u.rules[i].protocol)), p)
  {
    var rules := PolicyRules(Lowered(u.rules), u.egressRestricted).egress;
    hide RuleMatches, EntryMatches, Lower;
    BatchInForce(u.secGrp, PolicyRules(Lowered(u.rules), u.egressRestricted), chain, p);
    AnyMatchesAll(p);
    if !u.egressRestricted {
      assert rules[|u.rules|] == ANY;
    }
    forall i | 0 <= i < |u.rules|
      ensures rules[i] == EgressRule(u.rules[i].(protocol := Lower(u.rules[i].protocol)))
    {
    }
  }

  /**
   After a successful update, the rules under the policy's label let a packet out, or through, exactly
   when egress is not restricted or one of the policy's rules allows it.
   */
  lemma EgressAfterUpdate(rules: seq<Entry>, u: Update, chain: Chain, p: Packet)
    requires OwnLabel(u.secGrp) && NoDup(Select(rules, Under(u.secGrp)))
    requires chain == OUTPUT || chain == FORWARD
    ensures MatchedBy(Select(Updated(rules, u), Under(u.secGrp)), chain, p) <==>
      !u.egressRestricted || exists i ::
        0 <= i < |u.rules| && Allows(u.rules[i].(protocol := Lower(u.rules[i].protocol)), p)
  {
    hide EntryMatches, PolicyBatch, Updated, Select, Allows, Lower;
    PolicyInForce(rules, u);
    PolicyLetsOut(u, chain, p);
    var es := PolicyBatch(u);
    ReverseElems(es);
    if MatchedBy(es, chain, p) {
      var i :| 0 <= i < |es| && es[i].chain == chain && EntryMatches(es[i], p);
      assert es[i] in Reverse(es);
    }
    if MatchedBy(Reverse(es), chain, p) {
      var i :| 0 <= i < |Reverse(es)| && Reverse(es)[i].chain == chain && EntryMatches(Reverse(es)[i], p);
      assert Reverse(es)[i] in es;
    }
  }
}
