/** The expansion changes nothing: the Neutron rules, their repeats dropped and
    put in order, allow exactly what the translated rules allow. */
module RuleSetMeaning {
  import opened Wrappers
  import opened Text
  import opened NetworkPolicy
  import opened Translate
  import opened Peers
  import opened RuleSets
  import opened TranslationMeaning
  import Ordering

  // ----- keys -----

  predicate WellKeyed(r: SGRule) {
    && r.etherType in {"IPv4", "IPv6"}
    && !HasChar(r.protocol, '|')
    && !HasChar(r.remoteCIDR, '|')
  }

  lemma RemoteTextInjective(a: SGRule, b: SGRule)
    requires WellKeyed(a) && WellKeyed(b) && RemoteText(a) == RemoteText(b)
    ensures a.remoteCIDR == b.remoteCIDR && a.remoteAddressGroup == b.remoteAddressGroup
  {
    FirstFieldUnique(a.remoteCIDR, a.remoteAddressGroup, b.remoteCIDR, b.remoteAddressGroup, '|');
  }

  lemma NumberThen(m: int, s: string, n: int, t: string)
    requires Decimal(m) + "|" + s == Decimal(n) + "|" + t
    ensures m == n && s == t
  {
    DecimalHasNo(m, '|');
    DecimalHasNo(n, '|');
    FirstFieldUnique(Decimal(m), s, Decimal(n), t, '|');
    DecimalInjective(m, n);
  }

  lemma PortsTextInjective(a: SGRule, b: SGRule)
    requires WellKeyed(a) && WellKeyed(b) && PortsText(a) == PortsText(b)
    ensures a.portMin == b.portMin && a.portMax == b.portMax && RemoteText(a) == RemoteText(b)
  {
    NumberThen(a.portMin, Decimal(a.portMax) + "|" + RemoteText(a), b.portMin,
               Decimal(b.portMax) + "|" + RemoteText(b));
    NumberThen(a.portMax, RemoteText(a), b.portMax, RemoteText(b));
  }

  lemma KindTextInjective(a: SGRule, b: SGRule)
    requires WellKeyed(a) && WellKeyed(b) && KindText(a) == KindText(b)
    ensures a.etherType == b.etherType && a.protocol == b.protocol && PortsText(a) == PortsText(b)
  {
    FirstFieldUnique(a.etherType, a.protocol + "|" + PortsText(a), b.etherType, b.protocol + "|" + PortsText(b), '|');
    FirstFieldUnique(a.protocol, PortsText(a), b.protocol, PortsText(b), '|');
  }

  /** Two rules of one key are one rule, so dropping repeats by key loses
      nothing. The address group comes last and may hold any text. */
  lemma KeyInjective(a: SGRule, b: SGRule)
    requires WellKeyed(a) && WellKeyed(b) && KeyOf(a) == KeyOf(b)
    ensures a == b
  {
    FirstFieldUnique(DirName(a.dir), KindText(a), DirName(b.dir), KindText(b), '|');
    assert (DirName(a.dir) == "ingress") == (DirName(b.dir) == "ingress");
    KindTextInjective(a, b);
    PortsTextInjective(a, b);
    RemoteTextInjective(a, b);
  }

  predicate DistinctKeys(s: seq<SGRule>) {
    forall i, j :: 0 <= i < j < |s| ==> KeyOf(s[i]) != KeyOf(s[j])
  }

  lemma {:induction false} AddAllMembers(s: seq<SGRule>)
    requires forall x :: x in s ==> WellKeyed(x)
    ensures forall x :: x in AddAll([], s) <==> x in s
    ensures DistinctKeys(AddAll([], s))
  {
    if s != [] {
      var init, x := s[..|s| - 1], s[|s| - 1];
      assert s == init + [x];
      AddAllMembers(init);
      var d := AddAll([], init);
      if HasKey(d, KeyOf(x)) {
        var i :| 0 <= i < |d| && KeyOf(d[i]) == KeyOf(x);
        assert d[i] in d;
        KeyInjective(d[i], x);
      } else {
        assert forall i :: 0 <= i < |d| ==> KeyOf(d[i]) != KeyOf(x);
      }
    }
  }

  // ----- members -----

  predicate Combines(r: Rule, q: Peer, p: Port, family: string, x: SGRule) {
    q in r.peers && p in PortsOf(r) && family in FamiliesFor(q) && x == MakeRule(r.dir, q, p, family)
  }

  lemma {:induction false} FamilyRulesAre(dir: Direction, q: Peer, p: Port, families: seq<string>)
    ensures forall x :: x in FamilyRules(dir, q, p, families)
               <==> exists g :: g in families && x == MakeRule(dir, q, p, g)
  {
    if families != [] {
      var last := |families| - 1;
      FamilyRulesAre(dir, q, p, families[..last]);
      assert families == families[..last] + [families[last]];
    }
  }

  lemma {:induction false} PortRulesAre(dir: Direction, q: Peer, ports: seq<Port>)
    ensures forall x :: x in PortRules(dir, q, ports)
               <==> exists p, g :: p in ports && g in FamiliesFor(q) && x == MakeRule(dir, q, p, g)
  {
    if ports != [] {
      var last := |ports| - 1;
      PortRulesAre(dir, q, ports[..last]);
      FamilyRulesAre(dir, q, ports[last], FamiliesFor(q));
      assert ports == ports[..last] + [ports[last]];
    }
  }

  lemma {:induction false} PeerRulesAre(dir: Direction, peers: seq<Peer>, ports: seq<Port>)
    ensures forall x :: x in PeerRules(dir, peers, ports)
               <==> exists q, p, g :: q in peers && p in ports && g in FamiliesFor(q) && x == MakeRule(dir, q, p, g)
  {
    if peers != [] {
      var last := |peers| - 1;
      PeerRulesAre(dir, peers[..last], ports);
      PortRulesAre(dir, peers[last], ports);
      assert peers == peers[..last] + [peers[last]];
    }
  }

  /** F peers, P ports and the peer's families: every combination, nothing else. */
  lemma {:induction false} CombinationsAre(rules: seq<Rule>)
    ensures forall x :: x in Combinations(rules)
               <==> exists r, q, p, g :: r in rules && Combines(r, q, p, g, x)
  {
    if rules != [] {
      var init, r := rules[..|rules| - 1], rules[|rules| - 1];
      CombinationsAre(init);
      PeerRulesAre(r.dir, r.peers, PortsOf(r));
      assert rules == init + [r];
      forall x | x in PeerRules(r.dir, r.peers, PortsOf(r)) ensures exists q, p, g :: Combines(r, q, p, g, x) {
        var q, p, g :| q in r.peers && p in PortsOf(r) && g in FamiliesFor(q) && x == MakeRule(r.dir, q, p, g);
        assert Combines(r, q, p, g, x);
      }
    }
  }

  // ----- meaning -----

  /** Text a rule's key can carry without being torn: no separator in CIDRs or
      protocols. */
  predicate Separable(rules: seq<Rule>) {
    forall r :: r in rules ==>
      && (forall q :: q in r.peers ==> !HasChar(q.cidr, '|'))
      && (forall p :: p in r.ports ==> p.protocol != "" && !HasChar(p.protocol, '|'))
  }

  /** What the address groups hold, by selector key, agrees with what each peer
      of these rules lists. */
  ghost predicate Holds(e: Env, c: Cluster, rules: seq<Rule>, reach: (string, string) -> bool) {
    forall r, q, a :: r in rules && q in r.peers && q.cidr == "" ==> (reach(q.key, a) <==> Listed(e, c, q.sel, a))
  }

  /** What Neutron lets through one rule. */
  predicate SGAllows(e: Env, reach: (string, string) -> bool, x: SGRule, f: Flow) {
    && x.dir == f.dir
    && x.etherType == FamilyOf(f.remote)
    && (x.protocol == "" || x.protocol == f.proto)
    && ((x.portMin == 0 && x.portMax == 0) || x.portMin <= f.port <= x.portMax)
    && if x.remoteCIDR != "" then e.inCIDR(x.remoteCIDR, f.remote) else reach(x.remoteAddressGroup, f.remote)
  }

  ghost predicate SetAllows(e: Env, reach: (string, string) -> bool, rules: seq<SGRule>, f: Flow) {
    exists x :: x in rules && SGAllows(e, reach, x, f)
  }

  lemma LowerKeepsSeparators(s: string)
    ensures HasChar(ToLower(s), '|') <==> HasChar(s, '|')
  {
    if HasChar(s, '|') {
      var i :| 0 <= i < |s| && s[i] == '|';
      assert ToLower(s)[i] == '|';
    }
  }

  lemma CombinationWellKeyed(rules: seq<Rule>, r: Rule, q: Peer, p: Port, g: string)
    requires Separable(rules) && r in rules && q in r.peers && p in PortsOf(r) && g in FamiliesFor(q)
    ensures WellKeyed(MakeRule(r.dir, q, p, g))
  {
    LowerKeepsSeparators(p.protocol);
    assert r.ports == [] ==> p == EveryPort;
  }

  lemma CombinationsWellKeyed(rules: seq<Rule>)
    requires Separable(rules)
    ensures forall x :: x in Combinations(rules) ==> WellKeyed(x)
  {
    CombinationsAre(rules);
    forall x | x in Combinations(rules) ensures WellKeyed(x) {
      var r, q, p, g :| r in rules && Combines(r, q, p, g, x);
      CombinationWellKeyed(rules, r, q, p, g);
    }
  }

  lemma CombinationAllows(e: Env, c: Cluster, rules: seq<Rule>, reach: (string, string) -> bool,
                          r: Rule, q: Peer, p: Port, g: string, f: Flow)
    requires Faithful(e) && Separable(rules) && Holds(e, c, rules, reach) && r in rules
    requires q in r.peers && p in PortsOf(r)
    ensures g in FamiliesFor(q) && SGAllows(e, reach, MakeRule(r.dir, q, p, g), f)
       ==> RuleReaches(e, c, r, f)
    ensures g == FamilyOf(f.remote) && r.dir == f.dir && PeerReaches(e, c, q, f.remote)
            && (r.ports == [] || PortReaches(p, f))
       ==> g in FamiliesFor(q) && SGAllows(e, reach, MakeRule(r.dir, q, p, g), f)
  {
    assert r.ports == [] ==> p == EveryPort;
    assert r.ports != [] ==> p in r.ports && ToLower(p.protocol) != "";
    assert q.cidr == "" ==> (reach(q.key, f.remote) <==> Listed(e, c, q.sel, f.remote));
    assert q.cidr != "" && e.inCIDR(q.cidr, f.remote) ==> FamilyOf(q.cidr) == FamilyOf(f.remote);
  }

  lemma CombinationsAllow(e: Env, c: Cluster, rules: seq<Rule>, reach: (string, string) -> bool, f: Flow)
    requires Faithful(e) && Separable(rules) && Holds(e, c, rules, reach)
    ensures SetAllows(e, reach, Combinations(rules), f) <==> RulesReach(e, c, rules, f)
  {
    CombinationsAre(rules);
    if SetAllows(e, reach, Combinations(rules), f) {
      var x :| x in Combinations(rules) && SGAllows(e, reach, x, f);
      var r, q, p, g :| r in rules && Combines(r, q, p, g, x);
      CombinationAllows(e, c, rules, reach, r, q, p, g, f);
    }
    if RulesReach(e, c, rules, f) {
      var r :| r in rules && RuleReaches(e, c, r, f);
      var q :| q in r.peers && PeerReaches(e, c, q, f.remote);
      var p := if r.ports == [] then EveryPort else (var p :| p in r.ports && PortReaches(p, f); p);
      CombinationAllows(e, c, rules, reach, r, q, p, FamilyOf(f.remote), f);
      assert Combines(r, q, p, FamilyOf(f.remote), MakeRule(r.dir, q, p, FamilyOf(f.remote)));
    }
  }

  lemma KeyLePreorder()
    ensures Ordering.TotalPreorder(KeyLe)
  {
    Ordering.StrLePreorder();
    assert forall x: SGRule, y: SGRule :: Ordering.StrLe(KeyOf(x), KeyOf(y)) || Ordering.StrLe(KeyOf(y), KeyOf(x));
  }

  /** The expanded set holds each combination once, in key order. */
  lemma ExpansionMembers(rules: seq<Rule>)
    requires Separable(rules)
    ensures forall x :: x in Expansion(rules).rules <==> x in Combinations(rules)
    ensures Ordering.SortedBy(Expansion(rules).rules, KeyLe)
    ensures Ordering.NoRepeats(Expansion(rules).rules)
  {
    var d := AddAll([], Combinations(rules));
    CombinationsWellKeyed(rules);
    AddAllMembers(Combinations(rules));
    Ordering.SortMembers(d, KeyLe);
    KeyLePreorder();
    Ordering.SortSorted(d, KeyLe);
    KeysTellRulesApart(d);
    Ordering.PermutationNoRepeats(d, Expansion(rules).rules);
  }

  lemma KeysTellRulesApart(d: seq<SGRule>)
    requires DistinctKeys(d)
    ensures Ordering.NoRepeats(d)
  {
  }

  /** The expansion theorem. */
  lemma ExpansionExact(e: Env, c: Cluster, rules: seq<Rule>, reach: (string, string) -> bool, f: Flow)
    requires Faithful(e) && Separable(rules) && Holds(e, c, rules, reach)
    ensures SetAllows(e, reach, Expansion(rules).rules, f) <==> RulesReach(e, c, rules, f)
  {
    ExpansionMembers(rules);
    CombinationsAllow(e, c, rules, reach, f);
  }

  // ----- selector keys -----

  /** One key, one pod set, whichever policies it is used in: the namespace
      scope and the pod selector can both be read back out of the key. */
  lemma SelectorKeyInjective(e: Env, ns: string, q: PolicyPeer, ns': string, q': PolicyPeer)
    requires Faithful(e) && !HasChar(ns, ';') && !HasChar(ns', ';')
    requires SelectorKey(e, ns, q) == SelectorKey(e, ns', q')
    ensures Scope(e, ns, q) == Scope(e, ns', q') && PodsText(e, q) == PodsText(e, q')
  {
    var scope, pods := Scope(e, ns, q), PodsText(e, q);
    var scope', pods' := Scope(e, ns', q'), PodsText(e, q');
    ScopeHasNoSeparator(e, ns, q);
    ScopeHasNoSeparator(e, ns', q');
    assert scope + ";" + ("pods=" + pods) == scope + ";pods=" + pods;
    assert scope' + ";" + ("pods=" + pods') == scope' + ";pods=" + pods';
    FirstFieldUnique(scope, "pods=" + pods, scope', "pods=" + pods', ';');
    assert pods == ("pods=" + pods)[5..] == ("pods=" + pods')[5..] == pods';
  }

  lemma ScopesTellApart(e: Env, ns: string, q: PolicyPeer, ns': string, q': PolicyPeer)
    requires Scope(e, ns, q) == Scope(e, ns', q')
    ensures q.namespaceSelector.Some? <==> q'.namespaceSelector.Some?
    ensures q.namespaceSelector.Some? ==>
              e.render(q.namespaceSelector.value) == e.render(q'.namespaceSelector.value)
    ensures q.namespaceSelector.None? ==> ns == ns'
  {
    var scope, scope' := Scope(e, ns, q), Scope(e, ns', q');
    assert (scope[2] == 'S') == q.namespaceSelector.Some?;
    assert (scope'[2] == 'S') == q'.namespaceSelector.Some?;
    if q.namespaceSelector.Some? {
      assert e.render(q.namespaceSelector.value) == scope[11..];
      assert e.render(q'.namespaceSelector.value) == scope'[11..];
    } else {
      assert ns == scope[3..] && ns' == scope'[3..];
    }
  }

  lemma PodsTextsTellApart(e: Env, q: PolicyPeer, q': PolicyPeer)
    requires Faithful(e) && PodsText(e, q) == PodsText(e, q')
    ensures q.podSelector.Some? <==> q'.podSelector.Some?
    ensures q.podSelector.Some? ==> e.render(q.podSelector.value) == e.render(q'.podSelector.value)
  {
  }

  function Scope(e: Env, ns: string, q: PolicyPeer): string {
    if q.namespaceSelector.Some? then "nsSelector=" + e.render(q.namespaceSelector.value) else "ns=" + ns
  }

  function PodsText(e: Env, q: PolicyPeer): string {
    if q.podSelector.Some? then e.render(q.podSelector.value) else "all"
  }

  lemma ScopeHasNoSeparator(e: Env, ns: string, q: PolicyPeer)
    requires Faithful(e) && !HasChar(ns, ';')
    ensures !HasChar(Scope(e, ns, q), ';')
    ensures SelectorKey(e, ns, q) == Scope(e, ns, q) + ";pods=" + PodsText(e, q)
  {
    if q.namespaceSelector.Some? {
      var r := e.render(q.namespaceSelector.value);
      assert !HasChar(r, ';');
      forall i | 0 <= i < |Scope(e, ns, q)| ensures Scope(e, ns, q)[i] != ';' {
        if i >= 11 { assert Scope(e, ns, q)[i] == r[i - 11]; }
      }
    } else {
      forall i | 0 <= i < |Scope(e, ns, q)| ensures Scope(e, ns, q)[i] != ';' {
        if i >= 3 { assert Scope(e, ns, q)[i] == ns[i - 3]; }
      }
    }
  }

  lemma SameKeySameList(e: Env, c: Cluster, ns: string, q: PolicyPeer, ns': string, q': PolicyPeer, a: string)
    requires Faithful(e) && !HasChar(ns, ';') && !HasChar(ns', ';')
    requires SelectorKey(e, ns, q) == SelectorKey(e, ns', q')
    ensures Listed(e, c, ResolvePeer(ns, q), a) <==> Listed(e, c, ResolvePeer(ns', q'), a)
  {
    SelectorKeyInjective(e, ns, q, ns', q');
    ScopesTellApart(e, ns, q, ns', q');
    PodsTextsTellApart(e, q, q');
    var s, s' := ResolvePeer(ns, q), ResolvePeer(ns', q');
    assert forall l :: PodMatches(e, s.pods, l) == PodMatches(e, s'.pods, l);
    assert forall l :: PodMatches(e, s.namespaces, l) == PodMatches(e, s'.namespaces, l);
    forall pod ensures PodListed(e, c, s, pod, a) <==> PodListed(e, c, s', pod, a) {
    }
  }

  // ----- one policy, end to end -----

  /** Every pod set in these rules was made from a written peer of this
      namespace, and every CIDR and protocol is separable. */
  ghost predicate Compiled(e: Env, ns: string, rules: seq<Rule>) {
    && Separable(rules)
    && forall r, q :: r in rules && q in r.peers && q.cidr == "" ==> Written(e, ns, q)
  }

  ghost predicate Written(e: Env, ns: string, q: Peer) {
    exists w: PolicyPeer ::
      w.ipBlock.None? && (w.podSelector.Some? || w.namespaceSelector.Some?) && CompilePeer(e, ns, w) == q
  }

  lemma CompiledRulesAre(e: Env, ns: string, dir: Direction, s: seq<PolicyRule>)
    requires forall r :: r in s ==> ValidRule(r)
    ensures Compiled(e, ns, CompileRules(e, ns, dir, StripRules(e, s)))
  {
    StrippedRulesAre(e, s);
    var kept := StripRules(e, s);
    var t := CompileRules(e, ns, dir, kept);
    forall r | r in t
      ensures forall q :: q in r.peers ==> !HasChar(q.cidr, '|')
      ensures forall p :: p in r.ports ==> p.protocol != "" && !HasChar(p.protocol, '|')
      ensures forall q :: q in r.peers && q.cidr == "" ==> Written(e, ns, q)
    {
      var i :| 0 <= i < |kept| && t[i] == r;
      var x := kept[i];
      var o :| o in s && StripRule(e, o) == Some(x);
      StrippedRule(e, o);
      forall q | q in r.peers { CompiledPeerIs(e, ns, x, q); }
      forall p | p in r.ports { CompiledPortIs(e, x, p); }
    }
  }

  lemma CompiledPeerIs(e: Env, ns: string, x: PolicyRule, q: Peer)
    requires ValidRule(x) && Expressible(e, x)
    requires q in CompileRule(e, ns, Ingress, x).peers
    ensures !HasChar(q.cidr, '|') && (q.cidr == "" ==> Written(e, ns, q))
  {
    if x.peers != [] {
      var peers := CompilePeers(e, ns, x.peers);
      var i :| 0 <= i < |peers| && peers[i] == q;
      assert x.peers[i] in x.peers;
    }
  }

  lemma CompiledPortIs(e: Env, x: PolicyRule, p: Port)
    requires ValidRule(x) && Expressible(e, x) && p in CompilePorts(x.ports)
    ensures p.protocol != "" && !HasChar(p.protocol, '|')
  {
    var ports := CompilePorts(x.ports);
    var i :| 0 <= i < |ports| && ports[i] == p;
    assert x.ports[i] in x.ports;
  }

  lemma {:induction false} DeclaredAre(rules: seq<Rule>, isolates: set<Direction>)
    ensures forall r :: r in Declared(rules, isolates) <==> r in rules && r.dir in isolates
  {
    if rules != [] {
      DeclaredAre(rules[..|rules| - 1], isolates);
      assert rules == rules[..|rules| - 1] + [rules[|rules| - 1]];
    }
  }

  lemma {:induction false} PeerMapIs(peers: seq<Peer>)
    ensures forall k :: k in PeerMap(peers) ==>
              exists q :: q in peers && q.cidr == "" && q.key == k && q.sel == PeerMap(peers)[k]
    ensures forall q :: q in peers && q.cidr == "" ==> q.key in PeerMap(peers)
  {
    if peers != [] {
      var init, last := peers[..|peers| - 1], peers[|peers| - 1];
      PeerMapIs(init);
      assert peers == init + [last];
      forall k | k in PeerMap(peers)
        ensures exists q :: q in peers && q.cidr == "" && q.key == k && q.sel == PeerMap(peers)[k]
      {
        if last.cidr == "" && last.key == k {
          assert last in peers;
        } else {
          assert k in PeerMap(init) && PeerMap(init)[k] == PeerMap(peers)[k];
          var q :| q in init && q.cidr == "" && q.key == k && q.sel == PeerMap(init)[k];
          assert q in peers;
        }
      }
    }
  }

  lemma {:induction false} RulePeersAre(rules: seq<Rule>)
    ensures forall k :: k in RulePeers(rules) ==>
              exists r, q :: r in rules && q in r.peers && q.cidr == "" && q.key == k && q.sel == RulePeers(rules)[k]
    ensures forall r, q :: r in rules && q in r.peers && q.cidr == "" ==> q.key in RulePeers(rules)
  {
    if rules != [] {
      var init, last := rules[..|rules| - 1], rules[|rules| - 1];
      RulePeersAre(init);
      PeerMapIs(last.peers);
      assert rules == init + [last];
      forall k | k in RulePeers(rules)
        ensures exists r, q :: r in rules && q in r.peers && q.cidr == "" && q.key == k && q.sel == RulePeers(rules)[k]
      {
        if k in PeerMap(last.peers) {
          assert RulePeers(rules)[k] == PeerMap(last.peers)[k];
          var q :| q in last.peers && q.cidr == "" && q.key == k && q.sel == PeerMap(last.peers)[k];
          assert last in rules;
        } else {
          assert k in RulePeers(init) && RulePeers(rules)[k] == RulePeers(init)[k];
          var r, q :| r in init && q in r.peers && q.cidr == "" && q.key == k && q.sel == RulePeers(init)[k];
          assert r in rules;
        }
      }
    }
  }

  /** The address groups hold what this set's pod sets list. */
  ghost predicate Synced(e: Env, c: Cluster, peers: map<string, PeerSelector>, reach: (string, string) -> bool) {
    forall k, a :: k in peers ==> (reach(k, a) <==> Listed(e, c, peers[k], a))
  }

  lemma WrittenSameList(e: Env, c: Cluster, ns: string, q: Peer, ns': string, q': Peer, a: string)
    requires Faithful(e) && !HasChar(ns, ';') && !HasChar(ns', ';')
    requires Written(e, ns, q) && Written(e, ns', q') && q.key == q'.key
    ensures Listed(e, c, q.sel, a) <==> Listed(e, c, q'.sel, a)
  {
    var w: PolicyPeer :| w.ipBlock.None? && (w.podSelector.Some? || w.namespaceSelector.Some?)
      && CompilePeer(e, ns, w) == q;
    var w': PolicyPeer :| w'.ipBlock.None? && (w'.podSelector.Some? || w'.namespaceSelector.Some?)
      && CompilePeer(e, ns', w') == q';
    SameKeySameList(e, c, ns, w, ns', w', a);
  }

  /** Filling one address group per key serves every peer with that key. */
  lemma SyncedHolds(e: Env, c: Cluster, ns: string, rules: seq<Rule>, reach: (string, string) -> bool)
    requires Faithful(e) && ns != "" && !HasChar(ns, ';') && Compiled(e, ns, rules)
    requires Synced(e, c, RulePeers(rules), reach)
    ensures Holds(e, c, rules, reach)
  {
    RulePeersAre(rules);
    forall r, q, a | r in rules && q in r.peers && q.cidr == ""
      ensures reach(q.key, a) <==> Listed(e, c, q.sel, a)
    {
      var r', q' :| r' in rules && q' in r'.peers && q'.cidr == "" && q'.key == q.key
        && q'.sel == RulePeers(rules)[q.key];
      WrittenSameList(e, c, ns, q, ns, q', a);
    }
  }

  lemma TranslatedIsCompiled(e: Env, p: Policy)
    requires ValidPolicy(p) && Translation(e, p).Ok?
    ensures Compiled(e, p.namespace, Declared(Translation(e, p).value.rules, Translation(e, p).value.isolates))
  {
    var t := Translation(e, p).value;
    CompiledRulesAre(e, p.namespace, Ingress, p.ingress);
    CompiledRulesAre(e, p.namespace, Egress, p.egress);
    DeclaredAre(t.rules, t.isolates);
  }

  /** The compiler theorem. With the address groups filled through
      AddressesFor, the Neutron rules of a policy allow exactly what the policy
      without its refused parts allows - for every policy and connection. */
  lemma PolicyRulesExact(e: Env, c: Cluster, p: Policy, reach: (string, string) -> bool, f: Flow)
    requires Faithful(e) && ValidPolicy(p) && Translation(e, p).Ok?
    requires Synced(e, c, RulesOfPolicy(Translation(e, p).value).peers, reach)
    ensures SetAllows(e, reach, RulesOfPolicy(Translation(e, p).value).rules, f)
       <==> PolicyAllows(e, c, Served, Strip(e, p), f)
  {
    var t := Translation(e, p).value;
    var rules := Declared(t.rules, t.isolates);
    TranslatedIsCompiled(e, p);
    SyncedHolds(e, c, p.namespace, rules, reach);
    ExpansionExact(e, c, rules, reach, f);
    DeclaredAre(t.rules, t.isolates);
    assert RulesReach(e, c, rules, f) <==> TranslatedAllows(e, c, t, f);
    TranslationExact(e, c, p, f);
  }

  /** Never wider than the policy; exactly the policy when nothing was refused
      and every selected address can be listed here. */
  lemma PolicyRulesSound(e: Env, c: Cluster, p: Policy, reach: (string, string) -> bool, f: Flow)
    requires Faithful(e) && ValidPolicy(p) && Translation(e, p).Ok?
    requires Synced(e, c, RulesOfPolicy(Translation(e, p).value).peers, reach)
    ensures SetAllows(e, reach, RulesOfPolicy(Translation(e, p).value).rules, f) ==> PolicyAllows(e, c, Full, p, f)
    ensures Translation(e, p).value.refused == [] && PeersListable(e, c, p) ==>
              (SetAllows(e, reach, RulesOfPolicy(Translation(e, p).value).rules, f) <==> PolicyAllows(e, c, Full, p, f))
  {
    PolicyRulesExact(e, c, p, reach, f);
    TranslationExact(e, c, p, f);
    TranslationSound(e, c, p, f);
  }
}
