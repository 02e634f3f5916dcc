/** EnsureRuleSet, EnsureDenyAll and the baseline of pkg/netpol/neutron.go. */
module RuleSync {
  import opened Wrappers
  import opened NeutronStore
  import opened NeutronClient
  import opened RulePass
  import opened RuleSets

  const AllowIngress := "knp-allow-ingress"
  const AllowEgress := "knp-allow-egress"
  const DenyAll := "knp-deny-all"

  /** One rule as it is sent, its pod set already an address group id. */
  function Sent(r: SGRule, peers: map<string, string>): Option<NRule> {
    var w := NRule(r.dir, r.etherType, r.protocol, r.portMin, r.portMax, r.remoteCIDR, "", "");
    if r.remoteCIDR != "" || r.remoteAddressGroup == "" then Some(w)
    else if r.remoteAddressGroup !in peers || peers[r.remoteAddressGroup] == "" then None
    else Some(w.(addressGroup := peers[r.remoteAddressGroup]))
  }

  /** All of them, or nothing if a pod set has no address group yet. */
  function WantOf(rules: seq<SGRule>, peers: map<string, string>): Option<seq<NRule>> {
    if rules == [] then Some([])
    else
      match (WantOf(rules[..|rules| - 1], peers), Sent(rules[|rules| - 1], peers))
      case (Some(ws), Some(w)) => Some(ws + [w])
      case _ => None
  }

  function Describing(policyRef: string): string {
    "kubezun: what NetworkPolicy " + policyRef + " allows"
  }

  /** A state passed through while the groups of one name converge on want:
      nothing else in the store is touched. */
  ghost predicate Converging(s: Store, t: Store, name: string, want: seq<NRule>) {
    && t.addressGroups == s.addressGroups && t.ports == s.ports && Minted(s, t)
    && (forall g :: g in s.groups ==>
          && g in t.groups && t.groups[g].name == s.groups[g].name
          && (s.groups[g].name != name ==> t.groups[g] == s.groups[g])
          && Between(Bodies(s.groups[g].rules), want, Bodies(t.groups[g].rules)))
    && (forall g :: g in t.groups && g !in s.groups ==>
          t.groups[g].name == name && Between(Defaults, want, Bodies(t.groups[g].rules)))
  }

  ghost function RulesBefore(s: Store, g: string): set<NRule> {
    if g in s.groups then Bodies(s.groups[g].rules) else Defaults
  }

  lemma GrownConverges(s: Store, t: Store, name: string, want: seq<NRule>)
    requires Grown(s, t, name)
    ensures Converging(s, t, name, want)
  {
  }

  lemma SyncConverges(s: Store, t: Store, u: Store, name: string, g: string, want: seq<NRule>)
    requires Grown(s, t, name) && g in t.groups && t.groups[g].name == name && InFlight(t, u, g, want)
    ensures Converging(s, u, name, want)
  {
    forall h | h in s.groups
      ensures h in u.groups && u.groups[h].name == s.groups[h].name
      ensures s.groups[h].name != name ==> u.groups[h] == s.groups[h]
      ensures Between(Bodies(s.groups[h].rules), want, Bodies(u.groups[h].rules))
    {
      if h != g { assert u.groups[h] == t.groups[h]; }
    }
    forall h | h in u.groups && h !in s.groups
      ensures u.groups[h].name == name && Between(Defaults, want, Bodies(u.groups[h].rules))
    {
      if h != g { assert u.groups[h] == t.groups[h]; }
    }
  }

  ghost predicate AllConverging(states: seq<Store>, n: nat, s: Store, name: string, want: seq<NRule>) {
    forall i :: n <= i < |states| ==> Converging(s, states[i], name, want)
  }

  lemma {:induction false} WantOfPrefix(rules: seq<SGRule>, peers: map<string, string>, i: nat)
    requires i <= |rules| && WantOf(rules[..i], peers).None?
    ensures WantOf(rules, peers).None?
    decreases |rules| - i
  {
    if i == |rules| {
      assert rules[..i] == rules;
    } else {
      assert rules[..i + 1][..i] == rules[..i];
      WantOfPrefix(rules, peers, i + 1);
    }
  }

  /** Every rule with its pod set's address group filled in. */
  method Resolve(rules: seq<SGRule>, peers: map<string, string>) returns (r: Option<seq<NRule>>)
    ensures r == WantOf(rules, peers)
  {
    var want: seq<NRule> := [];
    for i := 0 to |rules|
      invariant WantOf(rules[..i], peers) == Some(want)
    {
      assert rules[..i + 1][..i] == rules[..i];
      var w := Sent(rules[i], peers);
      if w.None? {
        WantOfPrefix(rules, peers, i + 1);
        return None;
      }
      want := want + [w.value];
    }
    assert rules[..|rules|] == rules;
    return Some(want);
  }

  /** The rules a group is brought to; none when a pod set has no group yet. */
  function Target(rules: seq<SGRule>, peers: map<string, string>): seq<NRule> {
    match WantOf(rules, peers) case Some(want) => want case None => []
  }

  lemma GrownTrace(states: seq<Store>, n: nat, s: Store, name: string, want: seq<NRule>)
    requires forall i :: n <= i < |states| ==> Grown(s, states[i], name)
    ensures AllConverging(states, n, s, name, want)
  {
    forall i | n <= i < |states| { GrownConverges(s, states[i], name, want); }
  }

  lemma SyncTrace(states: seq<Store>, n: nat, mid: nat, s: Store, t: Store, name: string, g: string, want: seq<NRule>)
    requires Grown(s, t, name) && g in t.groups && t.groups[g].name == name && n <= mid <= |states|
    requires Passed(states, mid, t, g, want) && AllConverging(states[..mid], n, s, name, want)
    ensures AllConverging(states, n, s, name, want)
  {
    forall i | n <= i < |states| ensures Converging(s, states[i], name, want) {
      if i < mid {
        assert states[..mid][i] == states[i];
      } else {
        SyncConverges(s, t, states[i], name, g, want);
      }
    }
  }

  lemma RulesKeepNames(s: Store, t: Store, u: Store, g: string, description: string)
    requires Labelled(s, t, description) && NamesKept(s, t) && OnlyRulesOf(t, u, g)
    ensures Labelled(s, u, description) && NamesKept(s, u)
  {
    forall x | OneNamed(s, x) ensures OneNamed(u, x) {
      assert OneNamed(t, x);
    }
  }

  lemma GrownKeepsSets(s: Store, t: Store, name: string, want: seq<NRule>)
    requires Grown(s, t, name)
    ensures Resolvable(s, want) ==> Resolvable(t, want)
    ensures forall g :: g in t.groups ==> Bodies(t.groups[g].rules) == RulesBefore(s, g)
  {
  }

  /** Makes the policy's group hold exactly these rules. Whatever fails and
      whenever, no state in between lacks a rule both the old set and the new
      one have, or holds a rule neither has. */
  method EnsureRuleSet(n: Neutron, name: string, policyRef: string, rules: seq<SGRule>, peers: map<string, string>)
    returns (r: Option<string>)
    requires n.Valid()
    modifies n
    ensures n.Valid() && old(n.trace) <= n.trace
    ensures Converging(old(n.store), n.store, name, Target(rules, peers))
    ensures AllConverging(n.trace, |old(n.trace)|, old(n.store), name, Target(rules, peers))
    ensures r.Some? ==>
              && WantOf(rules, peers).Some?
              && r.value in n.store.groups && n.store.groups[r.value].name == name
              && Bodies(n.store.groups[r.value].rules) ==
                   Pass(RulesBefore(old(n.store), r.value), WantOf(rules, peers).value)
              && (r.value in old(n.store).groups ==> n.store.groups[r.value].description == Describing(policyRef))
    ensures Labelled(old(n.store), n.store, Describing(policyRef))
    ensures NamesKept(old(n.store), n.store)
    ensures old(n.Healthy()) ==> n.Healthy()
    ensures old(n.Healthy()) && WantOf(rules, peers).Some? && Resolvable(old(n.store), WantOf(rules, peers).value) ==>
              r.Some?
  {
    hide Grown, ValidStore, Converging, AllConverging, InFlight, Labelled, Resolvable, WantOf, Pass, Bodies,
         RulesBefore;
    ghost var s, n0 := n.store, |n.trace|;
    var found := n.EnsureGroup(name, Describing(policyRef));
    ghost var t, mid := n.store, |n.trace|;
    GrownConverges(s, t, name, Target(rules, peers));
    GrownKeepsSets(s, t, name, if WantOf(rules, peers).Some? then WantOf(rules, peers).value else []);
    GrownTrace(n.trace, n0, s, name, Target(rules, peers));
    if found.None? {
      return None;
    }
    var g := found.value;
    var want := Resolve(rules, peers);
    if want.None? {
      return None;
    }
    ghost var states := n.trace;
    var ok := n.SyncRules(g, want.value);
    SyncConverges(s, t, n.store, name, g, want.value);
    assert n.trace[..mid] == states;
    SyncTrace(n.trace, n0, mid, s, t, name, g, want.value);
    RulesKeepNames(s, t, n.store, g, Describing(policyRef));
    r := if ok then Some(g) else None;
  }
}
