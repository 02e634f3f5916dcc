/** What translation preserves: the translated rules mean exactly the policy with
    its refused parts taken out, which is never wider than the policy. */
module TranslationMeaning {
  import opened Wrappers
  import opened Text
  import opened NetworkPolicy
  import opened Translate
  import opened Peers

  // ----- the meaning of translated rules -----

  ghost predicate PeerReaches(e: Env, c: Cluster, q: Peer, addr: string) {
    if q.cidr != "" then e.inCIDR(q.cidr, addr) else Listed(e, c, q.sel, addr)
  }

  predicate PortReaches(p: Port, f: Flow) {
    && f.proto == ToLower(p.protocol)
    && ((p.min == 0 && p.max == 0) || p.min <= f.port <= p.max)
  }

  ghost predicate RuleReaches(e: Env, c: Cluster, r: Rule, f: Flow) {
    && r.dir == f.dir
    && (exists q :: q in r.peers && PeerReaches(e, c, q, f.remote))
    && (r.ports == [] || exists p :: p in r.ports && PortReaches(p, f))
  }

  ghost predicate RulesReach(e: Env, c: Cluster, rules: seq<Rule>, f: Flow) {
    exists r :: r in rules && RuleReaches(e, c, r, f)
  }

  /** What a translated policy allows: its rules, in the directions it isolates. */
  ghost predicate TranslatedAllows(e: Env, c: Cluster, t: Translated, f: Flow) {
    f.dir in t.isolates && RulesReach(e, c, t.rules, f)
  }

  // ----- stripping -----

  lemma {:induction false} KeptPeersAre(e: Env, s: seq<PolicyPeer>)
    ensures forall q :: q in KeptPeers(e, s) <==> q in s && PeerRefusal(e, q).None?
  {
    if s != [] {
      KeptPeersAre(e, s[..|s| - 1]);
      assert s == s[..|s| - 1] + [s[|s| - 1]];
    }
  }

  lemma {:induction false} KeptPortsAre(s: seq<PolicyPort>)
    ensures forall p :: p in KeptPorts(s) <==> p in s && PortRefusal(p).None?
  {
    if s != [] {
      KeptPortsAre(s[..|s| - 1]);
      assert s == s[..|s| - 1] + [s[|s| - 1]];
    }
  }

  predicate Expressible(e: Env, r: PolicyRule) {
    && (forall q :: q in r.peers ==> PeerRefusal(e, q).None?)
    && (forall p :: p in r.ports ==> PortRefusal(p).None?)
  }

  lemma StrippedRule(e: Env, r: PolicyRule)
    requires StripRule(e, r).Some?
    ensures Expressible(e, StripRule(e, r).value)
    ensures ValidRule(r) ==> ValidRule(StripRule(e, r).value)
  {
    KeptPeersAre(e, r.peers);
    KeptPortsAre(r.ports);
  }

  lemma StrippedRuleNarrower(e: Env, c: Cluster, v: View, ns: string, r: PolicyRule, f: Flow)
    requires StripRule(e, r).Some? && RuleAllows(e, c, v, ns, StripRule(e, r).value, f)
    ensures RuleAllows(e, c, v, ns, r, f)
  {
    KeptPeersAre(e, r.peers);
    KeptPortsAre(r.ports);
    var r' := StripRule(e, r).value;
    if r'.peers != [] {
      var q :| q in r'.peers && PeerAllows(e, c, v, ns, q, f.remote);
      assert q in r.peers;
    }
    if r'.ports != [] {
      var p :| p in r'.ports && PortAllows(e, p, f);
      assert p in r.ports;
    }
  }

  lemma {:induction false} StrippedRulesAre(e: Env, s: seq<PolicyRule>)
    ensures forall x :: x in StripRules(e, s) <==> exists r :: r in s && StripRule(e, r) == Some(x)
  {
    if s != [] {
      StrippedRulesAre(e, s[..|s| - 1]);
      assert s == s[..|s| - 1] + [s[|s| - 1]];
    }
  }

  /** Taking out what cannot be expressed only ever narrows. */
  lemma StripNarrower(e: Env, c: Cluster, v: View, p: Policy, f: Flow)
    requires PolicyAllows(e, c, v, Strip(e, p), f)
    ensures PolicyAllows(e, c, v, p, f)
  {
    StrippedRulesAre(e, p.Rules(f.dir));
    var x :| x in Strip(e, p).Rules(f.dir) && RuleAllows(e, c, v, p.namespace, x, f);
    var r :| r in p.Rules(f.dir) && StripRule(e, r) == Some(x);
    StrippedRuleNarrower(e, c, v, p.namespace, r, f);
    DeclaredTypesKept(e, p);
  }

  lemma DeclaredTypesKept(e: Env, p: Policy)
    ensures EffectiveTypes(Strip(e, p)) == EffectiveTypes(p)
    ensures forall dir :: Declares(Strip(e, p), dir) <==> Declares(p, dir)
    ensures forall dir :: dir in Isolates(EffectiveTypes(p)) <==> Declares(p, dir)
  {
  }

  // ----- nothing refused, nothing taken out -----

  lemma {:induction false} NoPeerRefused(e: Env, dir: Direction, index: nat, s: seq<PolicyPeer>)
    ensures PeerRefusals(e, dir, index, s) == [] <==> KeptPeers(e, s) == s
    ensures |KeptPeers(e, s)| <= |s|
  {
    if s != [] {
      var init, last := s[..|s| - 1], s[|s| - 1];
      NoPeerRefused(e, dir, index, init);
      assert s == init + [last];
      if PeerRefusal(e, last).None? && KeptPeers(e, s) == s {
        assert KeptPeers(e, init) == KeptPeers(e, s)[..|s| - 1] == init;
      }
    }
  }

  lemma {:induction false} NoPortRefused(dir: Direction, index: nat, s: seq<PolicyPort>)
    ensures PortRefusals(dir, index, s) == [] <==> KeptPorts(s) == s
    ensures |KeptPorts(s)| <= |s|
  {
    if s != [] {
      var init, last := s[..|s| - 1], s[|s| - 1];
      NoPortRefused(dir, index, init);
      assert s == init + [last];
      if PortRefusal(last).None? && KeptPorts(s) == s {
        assert KeptPorts(init) == KeptPorts(s)[..|s| - 1] == init;
      }
    }
  }

  lemma {:induction false} NoRuleRefused(e: Env, dir: Direction, s: seq<PolicyRule>)
    ensures RuleRefusals(e, dir, s) == [] <==> StripRules(e, s) == s
    ensures |StripRules(e, s)| <= |s|
  {
    if s != [] {
      var init, last := s[..|s| - 1], s[|s| - 1];
      NoRuleRefused(e, dir, init);
      NoPeerRefused(e, dir, |s| - 1, last.peers);
      NoPortRefused(dir, |s| - 1, last.ports);
      assert s == init + [last];
      assert last == PolicyRule(last.peers, last.ports);
      if StripRules(e, s) == s {
        var tail := match StripRule(e, last) case None => [] case Some(r) => [r];
        assert |tail| == 1;
        assert StripRules(e, init) == s[..|s| - 1] == init;
        assert tail[0] == StripRules(e, s)[|s| - 1] == last;
      }
    }
  }

  /** Stripping is the identity (up to the defaulted types) exactly when the
      translation reports no refusal. */
  lemma NothingRefused(e: Env, p: Policy)
    requires Translation(e, p).Ok?
    ensures Translation(e, p).value.refused == []
       <==> Strip(e, p) == p.(types := EffectiveTypes(p))
  {
    NoRuleRefused(e, Ingress, p.ingress);
    NoRuleRefused(e, Egress, p.egress);
  }

  // ----- compiling one expressible rule -----

  lemma PeerCompiled(e: Env, c: Cluster, ns: string, q: PolicyPeer, addr: string)
    requires ns != "" && ValidPeer(q) && PeerRefusal(e, q).None?
    ensures PeerReaches(e, c, CompilePeer(e, ns, q), addr) <==> PeerAllows(e, c, Served, ns, q, addr)
  {
    if q.ipBlock.None? {
      ListedIsMeant(e, c, ns, q, addr);
    }
  }

  lemma PortCompiled(e: Env, p: PolicyPort, f: Flow)
    requires ValidPort(p) && PortRefusal(p).None?
    ensures PortReaches(CompilePort(p), f) <==> PortAllows(e, p, f)
  {
  }

  lemma RuleCompiled(e: Env, c: Cluster, ns: string, dir: Direction, r: PolicyRule, f: Flow)
    requires Faithful(e) && ns != "" && ValidRule(r) && Expressible(e, r)
    ensures RuleReaches(e, c, CompileRule(e, ns, dir, r), f)
       <==> dir == f.dir && RuleAllows(e, c, Served, ns, r, f)
  {
    var t := CompileRule(e, ns, dir, r);
    PeersCompiled(e, c, ns, dir, r, f.remote);
    PortsCompiled(e, r.ports, f);
  }

  lemma PeersCompiled(e: Env, c: Cluster, ns: string, dir: Direction, r: PolicyRule, addr: string)
    requires Faithful(e) && ns != "" && ValidRule(r) && Expressible(e, r)
    ensures (exists q :: q in CompileRule(e, ns, dir, r).peers && PeerReaches(e, c, q, addr))
       <==> (r.peers == [] || exists q :: q in r.peers && PeerAllows(e, c, Served, ns, q, addr))
  {
    var t := CompileRule(e, ns, dir, r);
    if r.peers == [] {
      assert t.peers[0] in t.peers && t.peers[1] in t.peers;
      assert PeerReaches(e, c, t.peers[0], addr) || PeerReaches(e, c, t.peers[1], addr);
    } else {
      forall q | q in r.peers {
        PeerCompiled(e, c, ns, q, addr);
      }
      if x :| x in t.peers && PeerReaches(e, c, x, addr) {
        var i :| 0 <= i < |r.peers| && t.peers[i] == x;
        assert r.peers[i] in r.peers;
      }
      if q :| q in r.peers && PeerAllows(e, c, Served, ns, q, addr) {
        var i :| 0 <= i < |r.peers| && r.peers[i] == q;
        assert t.peers[i] in t.peers && PeerReaches(e, c, t.peers[i], addr);
      }
    }
  }

  lemma PortsCompiled(e: Env, ports: seq<PolicyPort>, f: Flow)
    requires forall p :: p in ports ==> ValidPort(p) && PortRefusal(p).None?
    ensures (exists p :: p in CompilePorts(ports) && PortReaches(p, f))
       <==> (exists p :: p in ports && PortAllows(e, p, f))
  {
    var t := CompilePorts(ports);
    if x :| x in t && PortReaches(x, f) {
      var i :| 0 <= i < |ports| && t[i] == x;
      PortCompiled(e, ports[i], f);
      assert ports[i] in ports;
    }
    if p :| p in ports && PortAllows(e, p, f) {
      var i :| 0 <= i < |ports| && ports[i] == p;
      PortCompiled(e, p, f);
      assert t[i] in t;
    }
  }

  // ----- the theorem -----

  lemma RulesCompiled(e: Env, c: Cluster, ns: string, dir: Direction, s: seq<PolicyRule>, f: Flow)
    requires Faithful(e) && ns != "" && forall r :: r in s ==> ValidRule(r)
    ensures RulesReach(e, c, CompileRules(e, ns, dir, StripRules(e, s)), f)
       <==> dir == f.dir && exists x :: x in StripRules(e, s) && RuleAllows(e, c, Served, ns, x, f)
  {
    var kept := StripRules(e, s);
    var t := CompileRules(e, ns, dir, kept);
    StrippedRulesAre(e, s);
    hide RuleReaches, RuleAllows, CompileRule, StripRules, ValidRule, StripRule, Expressible, Faithful;
    forall x | x in kept
      ensures RuleReaches(e, c, CompileRule(e, ns, dir, x), f)
         <==> dir == f.dir && RuleAllows(e, c, Served, ns, x, f)
    {
      var r :| r in s && StripRule(e, r) == Some(x);
      StrippedRule(e, r);
      RuleCompiled(e, c, ns, dir, x, f);
    }
    if y :| y in t && RuleReaches(e, c, y, f) {
      var i :| 0 <= i < |kept| && t[i] == y;
      assert kept[i] in kept;
    }
    if x :| x in kept && dir == f.dir && RuleAllows(e, c, Served, ns, x, f) {
      var i :| 0 <= i < |kept| && kept[i] == x;
      assert t[i] in t;
    }
  }

  /** For every policy and every connection, the translation allows exactly what
      the policy without its refused parts allows. */
  lemma TranslationExact(e: Env, c: Cluster, p: Policy, f: Flow)
    requires Faithful(e) && ValidPolicy(p) && Translation(e, p).Ok?
    ensures TranslatedAllows(e, c, Translation(e, p).value, f)
       <==> PolicyAllows(e, c, Served, Strip(e, p), f)
  {
    var t := Translation(e, p).value;
    var ingress := CompileRules(e, p.namespace, Ingress, StripRules(e, p.ingress));
    var egress := CompileRules(e, p.namespace, Egress, StripRules(e, p.egress));
    RulesCompiled(e, c, p.namespace, Ingress, p.ingress, f);
    RulesCompiled(e, c, p.namespace, Egress, p.egress, f);
    DeclaredTypesKept(e, p);
    assert t.rules == ingress + egress;
    assert RulesReach(e, c, t.rules, f) <==> RulesReach(e, c, ingress, f) || RulesReach(e, c, egress, f);
    assert Strip(e, p).Rules(f.dir) == StripRules(e, p.Rules(f.dir));
  }

  /** Never wider than what was asked for; and, with nothing refused and every
      selected address listable, never narrower either. */
  lemma TranslationSound(e: Env, c: Cluster, p: Policy, f: Flow)
    requires Faithful(e) && ValidPolicy(p) && Translation(e, p).Ok?
    ensures TranslatedAllows(e, c, Translation(e, p).value, f) ==> PolicyAllows(e, c, Full, p, f)
    ensures Translation(e, p).value.refused == [] && PeersListable(e, c, p) ==>
              (TranslatedAllows(e, c, Translation(e, p).value, f) <==> PolicyAllows(e, c, Full, p, f))
  {
    TranslationExact(e, c, p, f);
    if PolicyAllows(e, c, Served, Strip(e, p), f) {
      StripNarrower(e, c, Served, p, f);
      ServedNarrower(e, c, p, f);
    }
    if Translation(e, p).value.refused == [] && PeersListable(e, c, p) {
      NothingRefused(e, p);
      ViewsAgree(e, c, p, f);
      DeclaredTypesKept(e, p);
      assert PolicyAllows(e, c, Served, Strip(e, p), f) <==> PolicyAllows(e, c, Served, p, f);
    }
  }

  // ----- on the fields of the policy as written -----

  /** A peer that can be carried: a block without exceptions; or selectors, one at
      least, that parse. */
  predicate Carried(e: Env, q: PolicyPeer) {
    if q.ipBlock.Some? then q.ipBlock.value.except == []
    else
      && (q.podSelector.Some? || q.namespaceSelector.Some?)
      && (q.podSelector.Some? ==> e.valid(q.podSelector.value))
      && (q.namespaceSelector.Some? ==> e.valid(q.namespaceSelector.value))
  }

  /** A port that can: not named, and of any protocol but SCTP. */
  predicate CarriedPort(p: PolicyPort) {
    (p.port.None? || p.port.value.Number?) && p.protocol != Some("SCTP")
  }

  /** What a rule allows through the peers and ports that can be carried. */
  ghost predicate RuleCarries(e: Env, c: Cluster, ns: string, r: PolicyRule, f: Flow) {
    && (r.peers == [] || exists q :: q in r.peers && Carried(e, q) && PeerAllows(e, c, Served, ns, q, f.remote))
    && (r.ports == [] || exists p :: p in r.ports && CarriedPort(p) && PortAllows(e, p, f))
  }

  /** And the policy: whatever else in it, or in the same rule, cannot be. */
  ghost predicate PolicyCarries(e: Env, c: Cluster, p: Policy, f: Flow) {
    && DeclaresRaw(p, f.dir)
    && exists r :: r in (if f.dir.Ingress? then p.ingress else p.egress) && RuleCarries(e, c, p.namespace, r, f)
  }

  /** Which directions a policy isolates, from its types or for want of them. */
  predicate DeclaresRaw(p: Policy, dir: Direction) {
    if dir.Ingress? then TypeIngress in p.types || p.types == []
    else TypeEgress in p.types || (p.types == [] && p.egress != [])
  }

  lemma RefusedWhenNotCarried(e: Env, q: PolicyPeer, p: PolicyPort)
    ensures PeerRefusal(e, q).None? <==> Carried(e, q)
    ensures PortRefusal(p).None? <==> CarriedPort(p)
  {
  }

  lemma StrippedRuleCarries(e: Env, c: Cluster, ns: string, r: PolicyRule, f: Flow)
    ensures (StripRule(e, r).Some? && RuleAllows(e, c, Served, ns, StripRule(e, r).value, f))
       <==> RuleCarries(e, c, ns, r, f)
  {
    KeptPeersAre(e, r.peers);
    KeptPortsAre(r.ports);
    var peers, ports := KeptPeers(e, r.peers), KeptPorts(r.ports);
    hide PeerAllows, PortAllows, KeptPeers, KeptPorts;
    forall q | q in r.peers
      ensures q in peers <==> Carried(e, q)
    {
      RefusedWhenNotCarried(e, q, PolicyPort(None, None, None));
    }
    forall p | p in r.ports
      ensures p in ports <==> CarriedPort(p)
    {
      RefusedWhenNotCarried(e, PolicyPeer(None, None, None), p);
    }
    hide Carried, CarriedPort, PeerRefusal, PortRefusal;
    assert r.peers == [] ==> peers == [] by { if peers != [] { assert peers[0] in r.peers; } }
    assert r.ports == [] ==> ports == [] by { if ports != [] { assert ports[0] in r.ports; } }
  }

  /** The policy with its refused parts taken out, said without taking them out.
      Holds of every policy, valid or not. */
  lemma StripCarries(e: Env, c: Cluster, p: Policy, f: Flow)
    ensures PolicyAllows(e, c, Served, Strip(e, p), f) <==> PolicyCarries(e, c, p, f)
  {
    var rules := p.Rules(f.dir);
    StrippedRulesAre(e, rules);
    assert Strip(e, p).Rules(f.dir) == StripRules(e, rules);
    assert Declares(Strip(e, p), f.dir) <==> DeclaresRaw(p, f.dir);
    hide RuleAllows, RuleCarries, StripRules, StripRule, DeclaresRaw, Declares;
    forall r | r in rules { StrippedRuleCarries(e, c, p.namespace, r, f); }
    if r :| r in rules && RuleCarries(e, c, p.namespace, r, f) {
      assert StripRule(e, r).value in StripRules(e, rules);
    }
  }

  /** For every policy and connection: a policy translates exactly when its own
      pod selector parses, and the translation then lets through what the policy
      allows, in the directions it isolates, by the peers and ports that can be
      carried - whatever else in it cannot. */
  lemma TranslationCarries(e: Env, c: Cluster, p: Policy, f: Flow)
    requires Faithful(e) && ValidPolicy(p)
    ensures Translation(e, p).Ok? <==> e.valid(p.podSelector)
    ensures Translation(e, p).Ok? ==>
              && Translation(e, p).value.subject == p.podSelector
              && (f.dir in Translation(e, p).value.isolates <==> DeclaresRaw(p, f.dir))
              && (TranslatedAllows(e, c, Translation(e, p).value, f) <==> PolicyCarries(e, c, p, f))
  {
    hide TranslatedAllows, PolicyCarries, Strip, PolicyAllows;
    if Translation(e, p).Ok? {
      TranslationExact(e, c, p, f);
      StripCarries(e, c, p, f);
      DeclaredTypesKept(e, p);
    }
  }

  // ----- what is refused -----

  /** Why a peer or a port of a rule is refused, from what is written there. */
  predicate Faulty(e: Env, r: PolicyRule, at: nat, why: Reason) {
    match why
    case ExceptInBlock => at < |r.peers| && r.peers[at].ipBlock.Some? && r.peers[at].ipBlock.value.except != []
    case BadSelector =>
      && at < |r.peers| && r.peers[at].ipBlock.None?
      && ((r.peers[at].podSelector.Some? && !e.valid(r.peers[at].podSelector.value))
          || (r.peers[at].namespaceSelector.Some? && !e.valid(r.peers[at].namespaceSelector.value)))
    case EmptyPeer => at < |r.peers| && r.peers[at] == PolicyPeer(None, None, None)
    case NamedPort => at < |r.ports| && r.ports[at].port.Some? && r.ports[at].port.value.Named?
    case SctpProtocol =>
      at < |r.ports| && r.ports[at].protocol == Some("SCTP")
      && (r.ports[at].port.None? || r.ports[at].port.value.Number?)
  }

  predicate OfPeers(why: Reason) {
    why.ExceptInBlock? || why.BadSelector? || why.EmptyPeer?
  }

  lemma {:induction false} PeerRefusalsAre(e: Env, dir: Direction, index: nat, s: seq<PolicyPeer>, x: Refusal)
    ensures x in PeerRefusals(e, dir, index, s) <==>
            x.dir == dir && x.rule == index && OfPeers(x.reason) && Faulty(e, PolicyRule(s, []), x.at, x.reason)
  {
    if s != [] {
      var last := s[|s| - 1];
      PeerRefusalsAre(e, dir, index, s[..|s| - 1], x);
      assert PeerRefusal(e, last) == Some(x.reason) <==>
             OfPeers(x.reason) && Faulty(e, PolicyRule([last], []), 0, x.reason);
    }
  }

  lemma {:induction false} PortRefusalsAre(e: Env, dir: Direction, index: nat, s: seq<PolicyPort>, x: Refusal)
    ensures x in PortRefusals(dir, index, s) <==>
            x.dir == dir && x.rule == index && !OfPeers(x.reason) && Faulty(e, PolicyRule([], s), x.at, x.reason)
  {
    if s != [] {
      var last := s[|s| - 1];
      PortRefusalsAre(e, dir, index, s[..|s| - 1], x);
      assert PortRefusal(last) == Some(x.reason) <==>
             !OfPeers(x.reason) && Faulty(e, PolicyRule([], [last]), 0, x.reason);
    }
  }

  lemma {:induction false} RuleRefusalsAre(e: Env, dir: Direction, s: seq<PolicyRule>, x: Refusal)
    ensures x in RuleRefusals(e, dir, s) <==>
            x.dir == dir && x.rule < |s| && Faulty(e, s[x.rule], x.at, x.reason)
  {
    if s != [] {
      var last := |s| - 1;
      RuleRefusalsAre(e, dir, s[..last], x);
      PeerRefusalsAre(e, dir, last, s[last].peers, x);
      PortRefusalsAre(e, dir, last, s[last].ports, x);
    }
  }

  /** What is reported refused is exactly what is written that cannot be carried,
      each place with its reason. */
  lemma RefusedExactly(e: Env, p: Policy)
    requires Translation(e, p).Ok?
    ensures forall x :: x in Translation(e, p).value.refused <==>
              var rules := if x.dir.Ingress? then p.ingress else p.egress;
              x.rule < |rules| && Faulty(e, rules[x.rule], x.at, x.reason)
    ensures Translation(e, p).value.refused == [] <==>
            forall r :: r in p.ingress || r in p.egress ==>
              (forall q :: q in r.peers ==> Carried(e, q)) && forall x :: x in r.ports ==> CarriedPort(x)
  {
    var refused := Translation(e, p).value.refused;
    forall x ensures x in refused <==>
                     var rules := if x.dir.Ingress? then p.ingress else p.egress;
                     x.rule < |rules| && Faulty(e, rules[x.rule], x.at, x.reason)
    {
      RuleRefusalsAre(e, Ingress, p.ingress, x);
      RuleRefusalsAre(e, Egress, p.egress, x);
    }
    hide Translation, Faulty;
    if refused != [] {
      var x := refused[0];
      var rules := if x.dir.Ingress? then p.ingress else p.egress;
      assert x in refused && rules[x.rule] in rules;
      FaultyNotCarried(e, rules[x.rule], x.at, x.reason);
    }
    forall r | r in p.ingress || r in p.egress
      ensures refused == [] ==>
                (forall q :: q in r.peers ==> Carried(e, q)) && forall x :: x in r.ports ==> CarriedPort(x)
    {
      if !((forall q :: q in r.peers ==> Carried(e, q)) && forall x :: x in r.ports ==> CarriedPort(x)) {
        var at, why := NotCarriedFaulty(e, r);
        var dir := if r in p.ingress then Ingress else Egress;
        var rules := if dir.Ingress? then p.ingress else p.egress;
        var i :| 0 <= i < |rules| && rules[i] == r;
        assert Refusal(dir, i, at, why) in refused;
      }
    }
  }

  lemma FaultyNotCarried(e: Env, r: PolicyRule, at: nat, why: Reason)
    requires Faulty(e, r, at, why)
    ensures !((forall q :: q in r.peers ==> Carried(e, q)) && forall x :: x in r.ports ==> CarriedPort(x))
  {
    if OfPeers(why) { assert r.peers[at] in r.peers; } else { assert r.ports[at] in r.ports; }
  }

  lemma NotCarriedFaulty(e: Env, r: PolicyRule) returns (at: nat, why: Reason)
    requires !((forall q :: q in r.peers ==> Carried(e, q)) && forall x :: x in r.ports ==> CarriedPort(x))
    ensures Faulty(e, r, at, why)
  {
    if q :| q in r.peers && !Carried(e, q) {
      at :| at < |r.peers| && r.peers[at] == q;
      why := if q.ipBlock.Some? then ExceptInBlock
             else if q.podSelector.None? && q.namespaceSelector.None? then EmptyPeer else BadSelector;
    } else {
      var x :| x in r.ports && !CarriedPort(x);
      at :| at < |r.ports| && r.ports[at] == x;
      why := if x.port.Some? && x.port.value.Named? then NamedPort else SctpProtocol;
    }
  }
}
