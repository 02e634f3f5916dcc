/** What the rules in the store let through, and that a policy's group lets
    through exactly what the policy allows. */
module NeutronMeaning {
  import opened Wrappers
  import opened NetworkPolicy
  import opened Translate
  import opened Peers
  import opened RuleSets
  import opened RuleSetMeaning
  import opened NeutronStore
  import opened RuleSync
  import opened Baseline
  import opened AddressSync

  ghost predicate InGroup(e: Env, s: Store, a: string, addr: string) {
    a in s.addressGroups && exists x :: x in s.addressGroups[a].addresses && e.inCIDR(x, addr)
  }

  /** Remote security groups are never named by the rules made here; one in a
      tenant's own rule admits nothing this model counts. */
  ghost predicate RemoteAllows(e: Env, s: Store, b: NRule, addr: string) {
    if b.addressGroup != "" then InGroup(e, s, b.addressGroup, addr)
    else b.remoteGroup == "" && (b.prefix == "" || e.inCIDR(b.prefix, addr))
  }

  ghost predicate BodyAllows(e: Env, s: Store, b: NRule, f: Flow) {
    && b.dir == f.dir
    && b.etherType == FamilyOf(f.remote)
    && (b.protocol == "" || b.protocol == f.proto)
    && ((b.portMin == 0 && b.portMax == 0) || b.portMin <= f.port <= b.portMax)
    && RemoteAllows(e, s, b, f.remote)
  }

  ghost predicate BodiesAllow(e: Env, s: Store, bs: set<NRule>, f: Flow) {
    exists b :: b in bs && BodyAllows(e, s, b, f)
  }

  ghost predicate GroupAllows(e: Env, s: Store, g: string, f: Flow) {
    g in s.groups && BodiesAllow(e, s, Bodies(s.groups[g].rules), f)
  }

  /** Security group rules are an allow-list: a port carrying several groups is
      allowed what any one of them allows. */
  ghost predicate ListAllows(e: Env, s: Store, groups: seq<string>, f: Flow) {
    exists g :: g in groups && GroupAllows(e, s, g, f)
  }

  /** Two rules Neutron takes for one let through the same connections. */
  lemma AliasesAllowAlike(e: Env, s: Store, a: NRule, b: NRule, f: Flow)
    requires Faithful(e) && Alias(a, b)
    ensures BodyAllows(e, s, a, f) <==> BodyAllows(e, s, b, f)
  {
    CanonAllowsAlike(e, s, a, f);
    CanonAllowsAlike(e, s, b, f);
  }

  lemma CanonAllowsAlike(e: Env, s: Store, a: NRule, f: Flow)
    requires Faithful(e)
    ensures BodyAllows(e, s, a, f) <==> BodyAllows(e, s, Canon(a), f)
  {
    if a.etherType == FamilyOf(f.remote) {
      assert e.inCIDR(AnyPrefix(a.etherType), f.remote);
    }
  }

  /** An opening group lets through everything in its direction and nothing in
      the other. */
  lemma OpeningAllows(e: Env, s: Store, bs: set<NRule>, dir: Direction, f: Flow)
    requires Faithful(e) && OpensOnly(bs, dir)
    ensures BodiesAllow(e, s, bs, f) <==> f.dir == dir
  {
    if f.dir == dir {
      var any := AnyRule(dir, FamilyOf(f.remote));
      assert BodyAllows(e, s, any, f);
      var b :| b in bs && Alias(b, any);
      AliasesAllowAlike(e, s, b, any, f);
    }
  }

  // ----- sent rules -----

  predicate HasRemote(r: SGRule) {
    r.remoteCIDR != "" || r.remoteAddressGroup != ""
  }

  lemma {:induction false} WantOfIs(rules: seq<SGRule>, peers: map<string, string>)
    requires WantOf(rules, peers).Some?
    ensures |WantOf(rules, peers).value| == |rules|
    ensures forall i :: 0 <= i < |rules| ==> Sent(rules[i], peers) == Some(WantOf(rules, peers).value[i])
  {
    if rules != [] {
      WantOfIs(rules[..|rules| - 1], peers);
    }
  }

  // ----- filled address groups -----

  /** A stored one-address CIDR holds that address and no other. */
  ghost predicate HostRoutes(e: Env) {
    forall a, b :: Plain(a) ==> (e.inCIDR(Normalize(a), b) <==> a == b)
  }

  predicate PlainPods(c: Cluster) {
    forall pod :: pod in c.pods && pod.PodIP() != "" ==> Plain(pod.PodIP())
  }

  /** These are the stored forms of exactly what a selector lists. */
  ghost predicate Holding(e: Env, c: Cluster, addresses: set<string>, sel: PeerSelector) {
    forall x :: x in addresses <==> exists a :: Listed(e, c, sel, a) && x == Normalize(a)
  }

  lemma HoldingReaches(e: Env, c: Cluster, s: Store, a: string, sel: PeerSelector, addr: string)
    requires HostRoutes(e) && PlainPods(c) && a in s.addressGroups && Holding(e, c, s.addressGroups[a].addresses, sel)
    ensures InGroup(e, s, a, addr) <==> Listed(e, c, sel, addr)
  {
    if InGroup(e, s, a, addr) {
      var x :| x in s.addressGroups[a].addresses && e.inCIDR(x, addr);
      var b :| Listed(e, c, sel, b) && x == Normalize(b);
      assert Plain(b);
    }
    if Listed(e, c, sel, addr) {
      assert Plain(addr);
      assert Normalize(addr) in s.addressGroups[a].addresses;
    }
  }

  // ----- rules in the store, and the rules they stand for -----

  /** A rule as it is sent, before any address group is filled in. */
  function Bare(r: SGRule): NRule {
    NRule(r.dir, r.etherType, r.protocol, r.portMin, r.portMax, r.remoteCIDR, "", "")
  }

  /** A stored rule stands for a compiled one: the same but for a pod set, where
      it names some address group holding what that set lists - whichever, when
      there is more than one. */
  ghost predicate Stands(e: Env, c: Cluster, s: Store, sets: map<string, PeerSelector>, r: SGRule, b: NRule) {
    if r.remoteCIDR != "" then b == Bare(r)
    else
      && b == Bare(r).(addressGroup := b.addressGroup) && b.addressGroup in s.addressGroups
      && b.addressGroup != "" && r.remoteAddressGroup in sets
      && Holding(e, c, s.addressGroups[b.addressGroup].addresses, sets[r.remoteAddressGroup])
  }

  /** Every rule of the group stands for one of these, and every one of these
      has a rule standing for it. */
  ghost predicate Mirrors(e: Env, c: Cluster, s: Store, rs: RuleSet, bs: set<NRule>) {
    && (forall b :: b in bs ==> exists r :: r in rs.rules && Stands(e, c, s, rs.peers, r, b))
    && (forall r :: r in rs.rules ==> exists b :: b in bs && Stands(e, c, s, rs.peers, r, b))
  }

  lemma StandsAllows(e: Env, c: Cluster, s: Store, sets: map<string, PeerSelector>, r: SGRule, b: NRule, f: Flow)
    requires HostRoutes(e) && PlainPods(c) && HasRemote(r) && Stands(e, c, s, sets, r, b)
    ensures BodyAllows(e, s, b, f) <==> SGAllows(e, ListingOf(e, c, sets), r, f)
  {
    if r.remoteCIDR == "" {
      HoldingReaches(e, c, s, b.addressGroup, sets[r.remoteAddressGroup], f.remote);
    }
  }

  lemma MirrorWithin(e: Env, c: Cluster, s: Store, rs: RuleSet, bs: set<NRule>, f: Flow)
    requires HostRoutes(e) && PlainPods(c) && (forall r :: r in rs.rules ==> HasRemote(r)) && Mirrors(e, c, s, rs, bs)
    requires BodiesAllow(e, s, bs, f)
    ensures SetAllows(e, ListingOf(e, c, rs.peers), rs.rules, f)
  {
    hide Stands, BodyAllows, SGAllows, HostRoutes, PlainPods, HasRemote;
    var b :| b in bs && BodyAllows(e, s, b, f);
    var r :| r in rs.rules && Stands(e, c, s, rs.peers, r, b);
    StandsAllows(e, c, s, rs.peers, r, b, f);
  }

  lemma MirrorWhole(e: Env, c: Cluster, s: Store, rs: RuleSet, bs: set<NRule>, f: Flow)
    requires HostRoutes(e) && PlainPods(c) && (forall r :: r in rs.rules ==> HasRemote(r)) && Mirrors(e, c, s, rs, bs)
    requires SetAllows(e, ListingOf(e, c, rs.peers), rs.rules, f)
    ensures BodiesAllow(e, s, bs, f)
  {
    hide Stands, BodyAllows, SGAllows, HostRoutes, PlainPods, HasRemote;
    var r :| r in rs.rules && SGAllows(e, ListingOf(e, c, rs.peers), r, f);
    var b :| b in bs && Stands(e, c, s, rs.peers, r, b);
    StandsAllows(e, c, s, rs.peers, r, b, f);
  }

  lemma MirrorAllows(e: Env, c: Cluster, s: Store, rs: RuleSet, bs: set<NRule>, f: Flow)
    requires HostRoutes(e) && PlainPods(c) && (forall r :: r in rs.rules ==> HasRemote(r)) && Mirrors(e, c, s, rs, bs)
    ensures BodiesAllow(e, s, bs, f) <==> SetAllows(e, ListingOf(e, c, rs.peers), rs.rules, f)
  {
    hide Mirrors, BodiesAllow, SetAllows, HostRoutes, PlainPods;
    if BodiesAllow(e, s, bs, f) { MirrorWithin(e, c, s, rs, bs, f); }
    if SetAllows(e, ListingOf(e, c, rs.peers), rs.rules, f) { MirrorWhole(e, c, s, rs, bs, f); }
  }

  // ----- one policy's group -----

  lemma PolicyRulesHaveRemotes(e: Env, p: Policy)
    requires ValidPolicy(p) && Translation(e, p).Ok?
    ensures forall r :: r in RulesOfPolicy(Translation(e, p).value).rules ==> HasRemote(r)
  {
    var t := Translation(e, p).value;
    var rules := Declared(t.rules, t.isolates);
    TranslatedIsCompiled(e, p);
    ExpansionMembers(rules);
    CombinationsAre(rules);
    forall x | x in Combinations(rules) ensures HasRemote(x) {
      var r, q, port, g :| r in rules && Combines(r, q, port, g, x);
      if q.cidr == "" {
        assert Written(e, p.namespace, q);
        var w: PolicyPeer :| w.ipBlock.None? && (w.podSelector.Some? || w.namespaceSelector.Some?)
                             && CompilePeer(e, p.namespace, w) == q;
        assert |SelectorKey(e, p.namespace, w)| > 0;
      }
    }
  }

  /** Once a policy's group mirrors its compiled rules, the group lets through
      exactly the policy without its refused parts - and never more than the
      policy. */
  lemma PolicyGroupExact(e: Env, c: Cluster, s: Store, p: Policy, bs: set<NRule>, f: Flow)
    requires Faithful(e) && HostRoutes(e) && PlainPods(c) && ValidPolicy(p) && Translation(e, p).Ok?
    requires Mirrors(e, c, s, RulesOfPolicy(Translation(e, p).value), bs)
    ensures BodiesAllow(e, s, bs, f) <==> PolicyAllows(e, c, Served, Strip(e, p), f)
    ensures BodiesAllow(e, s, bs, f) ==> PolicyAllows(e, c, Full, p, f)
  {
    var rs := RulesOfPolicy(Translation(e, p).value);
    var listing := ListingOf(e, c, rs.peers);
    PolicyRulesHaveRemotes(e, p);
    MirrorAllows(e, c, s, rs, bs, f);
    hide Mirrors;
    PolicyRulesExact(e, c, p, listing, f);
    PolicyRulesSound(e, c, p, listing, f);
  }

  /** A policy with no rules to send allows nothing. */
  lemma EmptySetAllowsNothing(e: Env, c: Cluster, p: Policy, f: Flow)
    requires Faithful(e) && ValidPolicy(p) && Translation(e, p).Ok?
    requires RulesOfPolicy(Translation(e, p).value).rules == []
    ensures !PolicyAllows(e, c, Served, Strip(e, p), f)
  {
    var sets := RulesOfPolicy(Translation(e, p).value).peers;
    var listing: (string, string) -> bool := ListingOf(e, c, sets);
    PolicyRulesExact(e, c, p, listing, f);
  }

  ghost function ListingOf(e: Env, c: Cluster, sets: map<string, PeerSelector>): (string, string) -> bool {
    (k, a) => k in sets && Listed(e, c, sets[k], a)
  }
}
