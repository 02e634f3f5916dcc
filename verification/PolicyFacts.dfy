/** What the protocol relies on about compiled policies: their rules and pod sets
    fit together, pod sets of one key agree across policies, and a completely
    prepared policy's group means what the policy says. */
module PolicyFacts {
  import opened Wrappers
  import opened NetworkPolicy
  import opened Translate
  import opened Peers
  import opened RuleSets
  import opened RuleSetMeaning
  import opened NeutronStore
  import opened NeutronMeaning
  import opened Composition
  import opened Preparation

  lemma EveryPeerCombines(rules: seq<Rule>, r: Rule, q: Peer)
    requires r in rules && q in r.peers && q.cidr == ""
    ensures exists x :: x in Combinations(rules) && x.remoteCIDR == "" && x.remoteAddressGroup == q.key
  {
    CombinationsAre(rules);
    var ports := PortsOf(r);
    var p := ports[0];
    assert p in ports;
    var x := MakeRule(r.dir, q, p, "IPv4");
    assert Combines(r, q, p, "IPv4", x);
  }

  lemma PolicyIsLawful(e: Env, p: Policy)
    requires ValidPolicy(p) && Translation(e, p).Ok?
    ensures Lawful(RulesOfPolicy(Translation(e, p).value))
  {
    var t := Translation(e, p).value;
    var rules := Declared(t.rules, t.isolates);
    var rs := Expansion(rules);
    PolicyRulesHaveRemotes(e, p);
    TranslatedIsCompiled(e, p);
    ExpansionMembers(rules);
    RulePeersAre(rules);
    CombinationsAre(rules);
    forall x | x in rs.rules && x.remoteCIDR == "" ensures x.remoteAddressGroup in rs.peers {
      var r, q, port, g :| r in rules && Combines(r, q, port, g, x);
    }
    forall k | k in rs.peers ensures exists x :: x in rs.rules && x.remoteCIDR == "" && x.remoteAddressGroup == k {
      var r, q :| r in rules && q in r.peers && q.cidr == "" && q.key == k && q.sel == RulePeers(rules)[k];
      EveryPeerCombines(rules, r, q);
    }
  }

  lemma PodSetIsWritten(e: Env, p: Policy, k: string) returns (q: Peer)
    requires ValidPolicy(p) && Translation(e, p).Ok? && k in RulesOfPolicy(Translation(e, p).value).peers
    ensures Written(e, p.namespace, q) && q.key == k && q.sel == RulesOfPolicy(Translation(e, p).value).peers[k]
  {
    var t := Translation(e, p).value;
    var rules := Declared(t.rules, t.isolates);
    TranslatedIsCompiled(e, p);
    RulePeersAre(rules);
    var r, q' :| r in rules && q' in r.peers && q'.cidr == "" && q'.key == k && q'.sel == RulePeers(rules)[k];
    q := q';
  }

  /** Two policies using one key mean one pod set by it, in any namespaces, so
      they can share the address group. */
  lemma PoliciesAgree(e: Env, c: Cluster, p: Policy, p': Policy)
    requires Faithful(e) && ValidPolicy(p) && ValidPolicy(p') && Translation(e, p).Ok? && Translation(e, p').Ok?
    ensures Agree(e, c, RulesOfPolicy(Translation(e, p).value).peers, RulesOfPolicy(Translation(e, p').value).peers)
  {
    var a, b := RulesOfPolicy(Translation(e, p).value).peers, RulesOfPolicy(Translation(e, p').value).peers;
    forall k, addr | k in a && k in b ensures Listed(e, c, a[k], addr) <==> Listed(e, c, b[k], addr) {
      var q := PodSetIsWritten(e, p, k);
      var q' := PodSetIsWritten(e, p', k);
      WrittenSameList(e, c, p.namespace, q, p'.namespace, q', addr);
    }
  }

  lemma ReadyMirrors(e: Env, c: Cluster, h: string -> string, s: Store, rs: RuleSet, bs: set<NRule>)
    requires BodiesReady(e, c, h, s, rs, bs) && AllRepresented(e, c, h, s, rs, bs)
    ensures Mirrors(e, c, s, rs, bs)
  {
    hide Stands;
    forall b | b in bs ensures exists r :: r in rs.rules && Stands(e, c, s, rs.peers, r, b) {
      assert Standing(e, c, h, s, rs, b);
    }
    forall r | r in rs.rules ensures exists b :: b in bs && Stands(e, c, s, rs.peers, r, b) {
      assert Represented(e, c, h, s, rs, r, bs);
    }
  }

  /** A completely prepared policy is one the cache is right about. */
  lemma CompleteIsCoherent(e: Env, c: Cluster, h: string -> string, s: Store, cache: map<string, string>, p: Policy)
    requires Faithful(e) && HostRoutes(e) && PlainPods(c) && ValidStore(s)
    requires ValidPolicy(p) && Translation(e, p).Ok?
    requires var rs := RulesOfPolicy(Translation(e, p).value);
             Prepared(e, c, h, s, cache, p.Key(), rs) && Complete(e, c, h, s, cache, p.Key(), rs)
    ensures Coherent(e, c, s, cache, p)
  {
    var rs := RulesOfPolicy(Translation(e, p).value);
    if rs.rules != [] {
      assert "" !in s.groups;
      var g := cache[p.Key()];
      ReadyMirrors(e, c, h, s, rs, Bodies(s.groups[g].rules));
      forall f: Flow ensures GroupAllows(e, s, g, f) <==> PolicyAllows(e, c, Served, Strip(e, p), f) {
        PolicyGroupExact(e, c, s, p, Bodies(s.groups[g].rules), f);
      }
    }
  }
}
