/** What a load balancer lets in and out after a trust policy update: the verdict of a whole chain. */
module IptablesChains {
  import opened Iptables
  import opened IptablesPackets
  import opened Options
  import opened RootLBRules
  import opened Seqs

  /** How the filter reads entries for a packet. */
  function Reads(p: Packet): Entry -> bool {
    (e: Entry) => WordsMatch(e.words, p)
  }

  lemma MatchedAlike(es: seq<Entry>, chain: Chain, p: Packet)
    ensures Matched(es, chain, Reads(p)) <==> MatchedBy(es, chain, p)
  {
    hide WordsMatch;
    if e :| e in es && e.chain == chain && Reads(p)(e) {
      var i :| 0 <= i < |es| && es[i] == e;
      assert EntryMatches(es[i], p);
    }
    if i :| 0 <= i < |es| && es[i].chain == chain && EntryMatches(es[i], p) {
      assert es[i] in es && Reads(p)(es[i]);
    }
  }

  // ---------------------------------------------------------------------------------------------
  // What is on the list after an update
  // ---------------------------------------------------------------------------------------------

  lemma AddedMembers(rules: seq<Entry>, tag: string, es: seq<Entry>)
    ensures forall e :: e in AddedUnderTag(rules, tag, es) <==> e in rules || e in es
  {
    NewAreAsked(Snapshot(rules, tag), es);
    SelectMembers(rules, Under(tag));
  }

  lemma ClearedMembers(rules: seq<Entry>, tag: string)
    requires tag != "" && NoDup(Select(rules, Under(tag)))
    ensures forall e :: e in Cleared(rules, tag) <==> e in rules && e.tag != Some(tag)
  {
    hide Cleared, Select, NoDup;
    ClearedExactly(rules, tag);
    ClearedElsewhere(rules, tag, Outside({tag}));
    SelectMembers(Cleared(rules, tag), Under(tag));
    SelectMembers(Cleared(rules, tag), Outside({tag}));
    SelectMembers(rules, Outside({tag}));
  }

  /** The rule survives the update, unless it is there anyway. */
  predicate Kept(u: Update, e: Entry) {
    e.tag != Some(CLOUDLET_WIDE) && e.tag != Some(u.secGrp)
  }

  /** No rule under a label that the update clears is on the list twice. */
  ghost predicate Clearable(rules: seq<Entry>, u: Update) {
    OwnLabel(u.secGrp) && NoDup(Select(rules, Under(CLOUDLET_WIDE))) && NoDup(Select(rules, Under(u.secGrp)))
  }

  lemma NetAdded(rules: seq<Entry>, u: Update, q: Query)
    requires q == Under(CLOUDLET_WIDE) || (q == Under(u.secGrp) && OwnLabel(u.secGrp))
    ensures Select(AddedUnderTag(rules, NETWORKING, NetBatch(u)), q) == Select(rules, q)
    ensures forall e :: e in NetBatch(u) ==> e.tag == Some(NETWORKING)
  {
    hide Select, Batch, Added;
    BatchTagged(NETWORKING, NetRules(u.sshCidrs, u.internalRoute));
    AddedElsewhere(rules, Snapshot(rules, NETWORKING), NetBatch(u), NETWORKING, q);
    forall e | e in NetBatch(u) ensures e.tag == Some(NETWORKING) {
      var i :| 0 <= i < |NetBatch(u)| && NetBatch(u)[i] == e;
    }
  }

  lemma PreparedMembers(rules: seq<Entry>, u: Update)
    requires Clearable(rules, u)
    ensures forall e :: e in Prepared(rules, u) <==> e in NetBatch(u) || (e in rules && Kept(u, e))
  {
    hide Select, Batch, Added, Cleared, NoDup;
    var r1 := AddedUnderTag(rules, NETWORKING, NetBatch(u));
    NetAdded(rules, u, Under(CLOUDLET_WIDE));
    NetAdded(rules, u, Under(u.secGrp));
    AddedMembers(rules, NETWORKING, NetBatch(u));
    ClearedMembers(r1, CLOUDLET_WIDE);
    ClearedElsewhere(r1, CLOUDLET_WIDE, Under(u.secGrp));
    ClearedMembers(Cleared(r1, CLOUDLET_WIDE), u.secGrp);
  }

  /** After a successful update exactly its own rules are there, and those that were and that it does not clear. */
  lemma UpdatedMembers(rules: seq<Entry>, u: Update)
    requires Clearable(rules, u)
    ensures forall e :: e in Updated(rules, u) <==>
      || e in NetBatch(u) || e in PolicyBatch(u) || e in DefaultBatch()
      || (e in rules && Kept(u, e))
  {
    hide Clearable, Prepared, NetBatch, PolicyBatch, DefaultBatch, AddedUnderTag, Kept;
    PreparedMembers(rules, u);
    AddedMembers(Prepared(rules, u), u.secGrp, PolicyBatch(u));
    AddedMembers(AddedUnderTag(Prepared(rules, u), u.secGrp, PolicyBatch(u)), DEFAULTS, DefaultBatch());
  }

  // ---------------------------------------------------------------------------------------------
  // What gets through
  // ---------------------------------------------------------------------------------------------

  /** The packet is on the loopback interface, or of an established connection. */
  predicate DefaultLets(chain: Chain, p: Packet) {
    (if chain == INPUT then p.inInterface == "lo" else p.outInterface == "lo") || p.state("RELATED,ESTABLISHED")
  }

  /** An address is in a network; the empty text is none. */
  predicate Within(cidr: string, address: string -> bool) {
    cidr != "" && (cidr == ALL || address(cidr))
  }

  /** The packet is from or to the internal network, or comes in for SSH from an allowed one. */
  predicate NetLets(u: Update, chain: Chain, p: Packet) {
    if chain == INPUT then
      || Within(u.internalRoute, p.source)
      || (p.protocol == "tcp" && p.destinationPort("22")
          && exists i :: 0 <= i < |u.sshCidrs| && Within(u.sshCidrs[i], p.source))
    else Within(u.internalRoute, p.destination)
  }

  /** Egress is open, or some rule of the policy allows the packet out. */
  ghost predicate PolicyLets(u: Update, chain: Chain, p: Packet) {
    && chain != INPUT
    && (!u.egressRestricted
        || exists i :: 0 <= i < |u.rules| && Allows(u.rules[i].(protocol := Lower(u.rules[i].protocol)), p))
  }

  /** A rule that was there and that the update does not clear matches the packet. */
  ghost predicate OldLets(rules: seq<Entry>, u: Update, chain: Chain, p: Packet) {
    exists e :: e in rules && Kept(u, e) && e.chain == chain && Reads(p)(e)
  }

  lemma DefaultMeans(chain: Chain, p: Packet)
    ensures MatchedBy(DefaultBatch(), chain, p) <==> DefaultLets(chain, p)
  {
    hide MatchedBy;
    BatchInForce(DEFAULTS, DefaultRules(), chain, p);
    EmptyTexts();
    var out, est, lo := ANY.(interfaceOut := "lo"), ANY.(conntrack := "RELATED,ESTABLISHED"), ANY.(interfaceIn := "lo");
    assert RuleMatches(Egress, out, p) <==> p.outInterface == "lo";
    assert RuleMatches(Egress, est, p) <==> p.state("RELATED,ESTABLISHED");
    assert RuleMatches(Ingress, lo, p) <==> p.inInterface == "lo";
    assert RuleMatches(Ingress, est, p) <==> p.state("RELATED,ESTABLISHED");
    hide RuleMatches;
    OneOfTwo(Egress, out, est, p);
    OneOfTwo(Ingress, lo, est, p);
  }

  lemma EmptyTexts()
    ensures Collapse("") == "" && Lower("") == "" && Collapse("22") == "22" && Lower("tcp") == "tcp"
  {
  }

  lemma OneOfTwo(direction: Direction, a: FirewallRule, b: FirewallRule, p: Packet)
    ensures SomeRule(direction, [a, b], p) <==> RuleMatches(direction, a, p) || RuleMatches(direction, b, p)
  {
    hide RuleMatches;
    assert [a, b][0] == a && [a, b][1] == b;
  }

  lemma NetRuleMeans(direction: Direction, cidr: string, p: Packet)
    ensures RuleMatches(direction, ANY.(remoteCidr := cidr), p) <==>
      Within(cidr, if direction.Egress? then p.destination else p.source)
    ensures RuleMatches(Ingress, SshRule(cidr), p) <==>
      Within(cidr, p.source) && p.protocol == "tcp" && p.destinationPort("22")
  {
    EmptyTexts();
    hide Collapse, Lower;
  }

  lemma NetMeans(u: Update, chain: Chain, p: Packet)
    ensures MatchedBy(NetBatch(u), chain, p) <==> NetLets(u, chain, p)
  {
    hide MatchedBy, RuleMatches, Within;
    var fw, route := NetRules(u.sshCidrs, u.internalRoute), ANY.(remoteCidr := u.internalRoute);
    BatchInForce(NETWORKING, fw, chain, p);
    NetRuleMeans(Egress, u.internalRoute, p);
    NetRuleMeans(Ingress, u.internalRoute, p);
    forall i | 0 <= i < |u.sshCidrs|
      ensures RuleMatches(Ingress, fw.ingress[i], p) <==>
        Within(u.sshCidrs[i], p.source) && p.protocol == "tcp" && p.destinationPort("22")
    {
      NetRuleMeans(Ingress, u.sshCidrs[i], p);
    }
    assert fw.egress[0] == route && fw.ingress[|u.sshCidrs|] == route;
  }

  lemma PolicyMeans(u: Update, chain: Chain, p: Packet)
    ensures MatchedBy(PolicyBatch(u), chain, p) <==> PolicyLets(u, chain, p)
  {
    hide MatchedBy, Allows;
    if chain == INPUT {
      BatchInForce(u.secGrp, PolicyRules(Lowered(u.rules), u.egressRestricted), chain, p);
    } else {
      PolicyLetsOut(u, chain, p);
    }
  }

  /**
   After a successful update a packet gets through a chain of accepting rules exactly if the chain's policy
   lets it, or it is on the loopback interface or established, or the internal network's, or SSH from an
   allowed network, or allowed out by the policy, or an older rule that the update does not clear matches.
   */
  lemma ChainAfterUpdate(rules: seq<Entry>, u: Update, chain: Chain, byPolicy: bool, p: Packet)
    requires Clearable(rules, u) && AcceptOnly(rules, chain)
    ensures Passes(Updated(rules, u), chain, byPolicy, Reads(p)) <==>
      || byPolicy || DefaultLets(chain, p) || NetLets(u, chain, p) || PolicyLets(u, chain, p)
      || OldLets(rules, u, chain, p)
  {
    var now := Updated(rules, u);
    UpdatedMembers(rules, u);
    BatchesAccept(u);
    hide Updated, NetBatch, PolicyBatch, DefaultBatch, Clearable, Kept, Reads, Passes, MatchedBy;
    AcceptOnlyVerdict(now, chain, byPolicy, Reads(p));
    MatchedAlike(NetBatch(u), chain, p);
    MatchedAlike(PolicyBatch(u), chain, p);
    MatchedAlike(DefaultBatch(), chain, p);
    DefaultMeans(chain, p);
    NetMeans(u, chain, p);
    PolicyMeans(u, chain, p);
    hide DefaultLets, NetLets, PolicyLets;
    if Matched(now, chain, Reads(p)) {
      var e :| e in now && e.chain == chain && Reads(p)(e);
      assert e in NetBatch(u) || e in PolicyBatch(u) || e in DefaultBatch() || (e in rules && Kept(u, e));
    }
  }

  lemma BatchesAccept(u: Update)
    ensures forall e :: e in NetBatch(u) || e in PolicyBatch(u) || e in DefaultBatch() ==> e.accept
  {
    hide Batch;
    BatchTagged(NETWORKING, NetRules(u.sshCidrs, u.internalRoute));
    BatchTagged(u.secGrp, PolicyRules(Lowered(u.rules), u.egressRestricted));
    BatchTagged(DEFAULTS, DefaultRules());
    LabelledAccept(NetBatch(u), NETWORKING);
    LabelledAccept(PolicyBatch(u), u.secGrp);
    LabelledAccept(DefaultBatch(), DEFAULTS);
  }

  lemma LabelledAccept(es: seq<Entry>, tag: string)
    requires Labelled(es, tag)
    ensures forall e :: e in es ==> e.accept
  {
  }

  /**
   A host without rules drops, after its first successful update, whatever comes in that is not local,
   established, internal or allowed SSH, and whatever goes out that is not local, established, internal or
   allowed by the policy.
   */
  lemma FreshHost(u: Update, p: Packet)
    requires OwnLabel(u.secGrp)
    ensures Passes(Updated([], u), INPUT, false, Reads(p)) <==> DefaultLets(INPUT, p) || NetLets(u, INPUT, p)
    ensures Passes(Updated([], u), OUTPUT, false, Reads(p)) <==>
      DefaultLets(OUTPUT, p) || NetLets(u, OUTPUT, p) || PolicyLets(u, OUTPUT, p)
  {
    hide Updated, Passes, DefaultLets, NetLets, Reads;
    ChainAfterUpdate([], u, INPUT, false, p);
    ChainAfterUpdate([], u, OUTPUT, false, p);
  }
}
