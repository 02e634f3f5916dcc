/** The constant groups of pkg/netpol: two that open one direction each, and an
    anchor that allows nothing. */
module Baseline {
  import opened Wrappers
  import opened NetworkPolicy
  import opened NeutronStore
  import opened NeutronClient
  import opened RulePass
  import opened RuleSync

  /** The ids a pod's list is made from; an empty one is not resolved yet. */
  datatype BaselineIds = BaselineIds(ingress: string, egress: string, denyAll: string)

  function AnyRule(dir: Direction, family: string): NRule {
    NRule(dir, family, "", 0, 0, AnyPrefix(family), "", "")
  }

  /** Opens one direction for both families and says nothing about the other. */
  ghost predicate OpensOnly(s: set<NRule>, dir: Direction) {
    && (forall b :: b in s ==> b.dir == dir)
    && Clash(s, AnyRule(dir, "IPv4")) && Clash(s, AnyRule(dir, "IPv6"))
  }

  /** Nothing but groups of these names changed. */
  ghost predicate Untouched(s: Store, t: Store, names: set<string>) {
    && t.addressGroups == s.addressGroups && t.ports == s.ports
    && (forall g :: g in s.groups ==>
          g in t.groups && t.groups[g].name == s.groups[g].name
          && (s.groups[g].name !in names ==> t.groups[g] == s.groups[g]))
    && (forall g :: g in t.groups && g !in s.groups ==> t.groups[g].name in names)
  }

  function SameDirection(have: seq<StoredRule>, dir: Direction): (r: seq<NRule>)
    ensures forall b :: b in r <==> b.dir == dir && b in Bodies(have)
  {
    if have == [] then []
    else
      var last := have[|have| - 1];
      assert have == have[..|have| - 1] + [last];
      SameDirection(have[..|have| - 1], dir) + (if last.body.dir == dir then [last.body] else [])
  }

  lemma {:induction false} AlreadyThere(have: set<NRule>, want: seq<NRule>, more: seq<NRule>)
    requires forall b :: b in more ==> b in have
    ensures CreateAll(have, want + more) == CreateAll(have, want)
  {
    if more == [] {
      assert want + more == want;
    } else {
      assert (want + more)[..|want + more| - 1] == want + more[..|more| - 1];
      AlreadyThere(have, want, more[..|more| - 1]);
    }
  }

  /** A created rule is there, or something Neutron takes for it is. */
  lemma {:induction false} CreatedOrAliased(have: set<NRule>, want: seq<NRule>)
    ensures forall w :: w in want ==> Clash(CreateAll(have, want), w)
  {
    if want != [] {
      var init, last := want[..|want| - 1], want[|want| - 1];
      CreatedOrAliased(have, init);
      CreateAllBounds(have, want);
      var all := CreateAll(have, want);
      assert Clash(all, last) by { assert last in all || Clash(CreateAll(have, init), last); }
      forall w | w in want ensures Clash(all, w) {
        if w in init {
          var r :| r in CreateAll(have, init) && Alias(r, w);
          assert r in all;
        }
      }
    }
  }

  lemma OpensOneDirection(have: set<NRule>, dir: Direction, want: seq<NRule>, now: set<NRule>)
    requires want == [AnyRule(dir, "IPv4"), AnyRule(dir, "IPv6")]
    requires now == CreateAll(have, want) - (set h | h in have && h.dir != dir)
    ensures OpensOnly(now, dir)
  {
    CreateAllBounds(have, want);
    CreatedOrAliased(have, want);
    forall w | w in want ensures Clash(now, w) {
      var r :| r in CreateAll(have, want) && Alias(r, w);
      assert r.dir == dir && r in now;
    }
    assert want[0] in want && want[1] in want;
  }

  /** Opens one direction completely and closes the other. */
  method EnsureBaselineRules(n: Neutron, g: string, dir: Direction) returns (ok: bool)
    requires n.Valid() && g in n.store.groups
    modifies n
    ensures n.Valid() && old(n.trace) <= n.trace
    ensures OnlyRulesOf(old(n.store), n.store, g)
    ensures ok ==> OpensOnly(Bodies(n.store.groups[g].rules), dir)
    ensures old(n.Healthy()) ==> n.Healthy() && ok
  {
    hide ValidStore, CreateAll, InFlight, OpensOnly, Alias;
    InFlightAtFirst(n.store, g, []);
    var want := [AnyRule(dir, "IPv4"), AnyRule(dir, "IPv6")];
    var f := n.NextFault();
    if !f.NoFault? {
      return false;
    }
    var have := n.store.groups[g].rules;
    ghost var s := n.store;
    ok := n.CreateMissing(g, have, want);
    if !ok {
      return;
    }
    // Deletes every rule read that points the other way: the ones to keep are
    // the wanted two and whatever else already pointed this way.
    var same := SameDirection(have, dir);
    AlreadyThere(Bodies(have), want, same);
    ok := n.DeleteStale(g, have, want + same, s);
    if ok {
      assert Stale(Bodies(have), want + same) == set h | h in Bodies(have) && h.dir != dir;
      OpensOneDirection(Bodies(have), dir, want, Bodies(n.store.groups[g].rules));
    }
  }

  /** The anchor group exists and is empty. */
  method EnsureDenyAll(n: Neutron) returns (r: Option<string>)
    requires n.Valid()
    modifies n
    ensures n.Valid() && old(n.trace) <= n.trace
    ensures Untouched(old(n.store), n.store, {DenyAll})
    ensures r.Some? ==> r.value in n.store.groups && n.store.groups[r.value].name == DenyAll
    ensures r.Some? ==> Bodies(n.store.groups[r.value].rules) == {}
    ensures old(n.Healthy()) ==> n.Healthy() && r.Some?
  {
    hide ValidStore, InFlight, CreateAll, Pass, Grown, Labelled, NamesKept, OnlyRulesOf, Untouched, Bodies;
    ghost var s0 := n.store;
    r := n.EnsureGroup(DenyAll, "kubezun: allows nothing; carried so a port's group list is never empty");
    GrownUntouched(s0, n.store, {DenyAll}, DenyAll);
    if r.None? {
      return;
    }
    ghost var s := n.store;
    var f := n.NextFault();
    if !f.NoFault? {
      return None;
    }
    InFlightAtFirst(s, r.value, []);
    NothingWanted(Bodies(s.groups[r.value].rules));
    OnlyItself(s, r.value);
    var ok := n.DeleteStale(r.value, n.store.groups[r.value].rules, [], s);
    RulesUntouched(s, n.store, r.value, {DenyAll});
    UntouchedTransitive(s0, s, n.store, {DenyAll});
    if !ok {
      return None;
    }
  }

  lemma NothingWanted(have: set<NRule>)
    ensures CreateAll(have, []) == have && Pass(have, []) == {}
  {
  }

  lemma OnlyItself(s: Store, g: string)
    requires g in s.groups
    ensures OnlyRulesOf(s, s, g)
  {
    InFlightAtFirst(s, g, []);
  }

  lemma GrownUntouched(s: Store, t: Store, names: set<string>, name: string)
    requires Grown(s, t, name) && name in names
    ensures Untouched(s, t, names)
  {
  }

  lemma UntouchedTransitive(s: Store, t: Store, u: Store, names: set<string>)
    requires Untouched(s, t, names) && Untouched(t, u, names)
    ensures Untouched(s, u, names)
  {
  }

  lemma RulesUntouched(s: Store, t: Store, g: string, names: set<string>)
    requires OnlyRulesOf(s, t, g) && s.groups[g].name in names
    ensures Untouched(s, t, names) && g in t.groups && t.groups[g].name == s.groups[g].name
  {
  }

  /** What a resolved baseline is: three different groups, two opening one
      direction each and one allowing nothing. */
  ghost predicate BaselineHolds(s: Store, b: BaselineIds) {
    && b.ingress in s.groups && b.egress in s.groups && b.denyAll in s.groups
    && s.groups[b.ingress].name == AllowIngress
    && s.groups[b.egress].name == AllowEgress
    && s.groups[b.denyAll].name == DenyAll
    && OpensOnly(Bodies(s.groups[b.ingress].rules), Ingress)
    && OpensOnly(Bodies(s.groups[b.egress].rules), Egress)
    && Bodies(s.groups[b.denyAll].rules) == {}
  }

  /** Finds or makes the two opening groups. */
  method EnsureBoth(n: Neutron) returns (r: Option<(string, string)>)
    requires n.Valid()
    modifies n
    ensures n.Valid() && old(n.trace) <= n.trace
    ensures Untouched(old(n.store), n.store, {AllowIngress, AllowEgress})
    ensures r.Some? ==>
              && r.value.0 in n.store.groups && n.store.groups[r.value.0].name == AllowIngress
              && r.value.1 in n.store.groups && n.store.groups[r.value.1].name == AllowEgress
    ensures old(n.Healthy()) ==> n.Healthy() && r.Some?
  {
    ghost var names := {AllowIngress, AllowEgress};
    ghost var s := n.store;
    var ingress := n.EnsureGroup(AllowIngress, "kubezun: a pod no policy has isolated for ingress");
    GrownUntouched(s, n.store, names, AllowIngress);
    if ingress.None? {
      return None;
    }
    ghost var t := n.store;
    var egress := n.EnsureGroup(AllowEgress, "kubezun: a pod no policy has isolated for egress");
    GrownUntouched(t, n.store, names, AllowEgress);
    UntouchedTransitive(s, t, n.store, names);
    if egress.None? {
      return None;
    }
    r := Some((ingress.value, egress.value));
  }

  lemma NamesDiffer()
    ensures AllowIngress != AllowEgress && AllowIngress != DenyAll && AllowEgress != DenyAll
  {
    assert AllowIngress[10] == 'i' && AllowEgress[10] == 'e' && DenyAll[4] == 'd';
  }

  /** Opens each group in its own direction. */
  method OpenBoth(n: Neutron, ingress: string, egress: string) returns (ok: bool)
    requires n.Valid()
    requires ingress in n.store.groups && n.store.groups[ingress].name == AllowIngress
    requires egress in n.store.groups && n.store.groups[egress].name == AllowEgress
    modifies n
    ensures n.Valid() && old(n.trace) <= n.trace
    ensures Untouched(old(n.store), n.store, {AllowIngress, AllowEgress})
    ensures ok ==>
              && OpensOnly(Bodies(n.store.groups[ingress].rules), Ingress)
              && OpensOnly(Bodies(n.store.groups[egress].rules), Egress)
    ensures old(n.Healthy()) ==> n.Healthy() && ok
  {
    ghost var names := {AllowIngress, AllowEgress};
    NamesDiffer();
    ghost var s := n.store;
    ok := EnsureBaselineRules(n, ingress, Ingress);
    RulesUntouched(s, n.store, ingress, names);
    if !ok {
      return;
    }
    ghost var t := n.store;
    ok := EnsureBaselineRules(n, egress, Egress);
    RulesUntouched(t, n.store, egress, names);
    UntouchedTransitive(s, t, n.store, names);
  }

  /** EnsureBaseline of pkg/netpol/neutron.go. */
  method EnsureOpenings(n: Neutron) returns (r: Option<(string, string)>)
    requires n.Valid()
    modifies n
    ensures n.Valid() && old(n.trace) <= n.trace
    ensures Untouched(old(n.store), n.store, {AllowIngress, AllowEgress, DenyAll})
    ensures r.Some? ==>
              && r.value.0 in n.store.groups && n.store.groups[r.value.0].name == AllowIngress
              && r.value.1 in n.store.groups && n.store.groups[r.value.1].name == AllowEgress
              && OpensOnly(Bodies(n.store.groups[r.value.0].rules), Ingress)
              && OpensOnly(Bodies(n.store.groups[r.value.1].rules), Egress)
    ensures old(n.Healthy()) ==> n.Healthy() && r.Some?
  {
    ghost var names := {AllowIngress, AllowEgress, DenyAll};
    ghost var s := n.store;
    var first := EnsureDenyAll(n);
    if first.None? {
      return None;
    }
    ghost var t := n.store;
    r := EnsureBoth(n);
    UntouchedTransitive(s, t, n.store, names);
    if r.None? {
      return None;
    }
    ghost var u := n.store;
    var ok := OpenBoth(n, r.value.0, r.value.1);
    UntouchedTransitive(s, u, n.store, names);
    if !ok {
      return None;
    }
  }

  /** EnsureBaseline of pkg/netpol/reconciler.go: resolved once, at startup. */
  method EnsureBaseline(n: Neutron) returns (r: Option<BaselineIds>)
    requires n.Valid()
    modifies n
    ensures n.Valid() && old(n.trace) <= n.trace
    ensures Untouched(old(n.store), n.store, {AllowIngress, AllowEgress, DenyAll})
    ensures r.Some? ==> BaselineHolds(n.store, r.value)
    ensures old(n.Healthy()) ==> n.Healthy() && r.Some?
  {
    NamesDiffer();
    ghost var s := n.store;
    var open := EnsureOpenings(n);
    if open.None? {
      return None;
    }
    ghost var t := n.store;
    var denyAll := EnsureDenyAll(n);
    UntouchedTransitive(s, t, n.store, {AllowIngress, AllowEgress, DenyAll});
    if denyAll.None? {
      return None;
    }
    assert n.store.groups[open.value.0] == t.groups[open.value.0];
    assert n.store.groups[open.value.1] == t.groups[open.value.1];
    r := Some(BaselineIds(open.value.0, open.value.1, denyAll.value));
  }
}
