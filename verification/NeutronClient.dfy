/** The writing half of pkg/netpol/neutron.go: groups, rule sets, address groups,
    converged one call at a time against a store any call to which may fail,
    with or without having taken effect. */
module NeutronClient {
  import opened Wrappers
  import opened Faults
  import opened NeutronStore
  import opened RulePass

  const ManagedBy := "kubezun-networkpolicy"

  /** Only the rules of group g (and the supply of ids) differ. */
  ghost predicate OnlyRulesOf(s: Store, t: Store, g: string) {
    && g in s.groups && g in t.groups && s.next <= t.next
    && t == s.(groups := s.groups[g := s.groups[g].(rules := t.groups[g].rules)], next := t.next)
  }

  /** Whatever groups are new carry ids never given out before. */
  ghost predicate Minted(s: Store, t: Store) {
    && s.next <= t.next
    && forall g :: g in t.groups && g !in s.groups ==> exists n: nat :: s.next <= n < t.next && g == IdOf(n)
  }

  /** A group of this name may have been created (with Neutron's own rules) or
      had its description corrected; nothing else changed. */
  ghost predicate Grown(s: Store, t: Store, name: string) {
    && t.addressGroups == s.addressGroups && t.ports == s.ports && Minted(s, t)
    && (forall g :: g in s.groups ==>
          && g in t.groups
          && t.groups[g] == s.groups[g].(description := t.groups[g].description)
          && (s.groups[g].name != name ==> t.groups[g] == s.groups[g]))
    && (forall g :: g in t.groups && g !in s.groups ==>
          t.groups[g].name == name && Bodies(t.groups[g].rules) == Defaults)
  }

  /** At most one group goes by this name. */
  ghost predicate OneNamed(s: Store, name: string) {
    forall g, h :: g in s.groups && h in s.groups && s.groups[g].name == name && s.groups[h].name == name ==> g == h
  }

  /** A group's description is what it was, or the one asked for - with the
      marker a group is created with, until it is next ensured. */
  ghost predicate Labelled(s: Store, t: Store, description: string) {
    forall g :: g in t.groups ==>
      || (g in s.groups && t.groups[g].description == s.groups[g].description)
      || t.groups[g].description == description
      || t.groups[g].description == description + " [" + ManagedBy + "]"
  }

  /** No name stopped being unique. */
  ghost predicate NamesKept(s: Store, t: Store) {
    forall x :: OneNamed(s, x) ==> OneNamed(t, x)
  }

  lemma GrownAtFirst(s: Store, name: string, description: string)
    ensures Grown(s, s, name) && Labelled(s, s, description) && NamesKept(s, s)
  {
    assert forall g :: g in s.groups ==> s.groups[g] == s.groups[g].(description := s.groups[g].description);
  }

  lemma CreatedIsGrown(s: Store, name: string, description: string)
    requires ValidStore(s) && forall g :: g in s.groups ==> s.groups[g].name != name
    ensures var t := CreateGroup(s, name, description + " [" + ManagedBy + "]");
            && Grown(s, t, name) && Labelled(s, t, description) && NamesKept(s, t)
            && IdOf(s.next) in t.groups && IdOf(s.next) !in s.groups
            && t.groups[IdOf(s.next)].name == name
            && t.groups[IdOf(s.next)].description == description + " [" + ManagedBy + "]"
  {
    CreateGroupValid(s, name, description + " [" + ManagedBy + "]");
    GrownAtFirst(s, name, description);
  }

  lemma DescribedIsGrown(s: Store, g: string, name: string, description: string)
    requires g in s.groups && s.groups[g].name == name
    ensures var (t, a) := Describe(s, g, description);
            && Grown(s, t, name) && Labelled(s, t, description) && NamesKept(s, t) && a.Done?
            && t.groups.Keys == s.groups.Keys && t.groups[g].name == name && t.groups[g].description == description
  {
    GrownAtFirst(s, name, description);
  }

  lemma OnlyRulesTransitive(s: Store, t: Store, u: Store, g: string)
    requires OnlyRulesOf(s, t, g) && OnlyRulesOf(t, u, g)
    ensures OnlyRulesOf(s, u, g)
  {
  }

  function HasRule(have: seq<StoredRule>, w: NRule): (r: bool)
    ensures r <==> w in Bodies(have)
  {
    exists i :: 0 <= i < |have| && have[i].body == w
  }

  class Neutron {
    var store: Store
    /** What becomes of the calls still to be made; calls past the end work. */
    var faults: seq<Fault>
    /** Every state the store has been in since this client started. */
    ghost var trace: seq<Store>

    ghost predicate Valid()
      reads this
    {
      ValidStore(store)
    }

    ghost predicate Healthy()
      reads this
    {
      forall i :: 0 <= i < |faults| ==> faults[i].NoFault?
    }

    constructor (s: Store, f: seq<Fault>)
      requires ValidStore(s)
      ensures Valid() && store == s && faults == f && trace == [s]
    {
      store, faults, trace := s, f, [s];
    }

    method NextFault() returns (f: Fault)
      modifies this`faults
      ensures old(Healthy()) ==> Healthy() && f.NoFault?
    {
      if faults == [] {
        f := NoFault;
      } else {
        f := faults[0];
        faults := faults[1..];
      }
    }

    // ----- single calls -----

    method CallCreateGroup(name: string, description: string) returns (r: Option<string>)
      requires Valid()
      modifies this
      ensures Valid() && trace == old(trace) + [store]
      ensures store == old(store) || store == CreateGroup(old(store), name, description)
      ensures r.Some? ==> store == CreateGroup(old(store), name, description) && r.value == IdOf(old(store).next)
      ensures old(Healthy()) ==> Healthy() && r.Some?
    {
      var f := NextFault();
      CreateGroupValid(store, name, description);
      r := if f.NoFault? then Some(IdOf(store.next)) else None;
      if !f.Before? {
        store := CreateGroup(store, name, description);
      }
      trace := trace + [store];
    }

    method CallDescribe(g: string, description: string) returns (a: Answer)
      requires Valid()
      modifies this
      ensures Valid() && trace == old(trace) + [store]
      ensures store == old(store) || store == Describe(old(store), g, description).0
      ensures !a.Failed? ==> (store, a) == Describe(old(store), g, description)
      ensures old(Healthy()) ==> Healthy() && (store, a) == Describe(old(store), g, description)
    {
      var f := NextFault();
      OtherCallsValid(store, g, description, {}, []);
      a := if f.NoFault? then Describe(store, g, description).1 else Failed;
      if !f.Before? {
        store := Describe(store, g, description).0;
      }
      trace := trace + [store];
    }

    method CallCreateRule(g: string, body: NRule) returns (a: Answer)
      requires Valid()
      modifies this
      ensures Valid() && trace == old(trace) + [store]
      ensures store == old(store) || store == CreateRule(old(store), g, body).0
      ensures !a.Failed? ==> (store, a) == CreateRule(old(store), g, body)
      ensures old(Healthy()) ==> Healthy() && (store, a) == CreateRule(old(store), g, body)
    {
      var f := NextFault();
      CreateRuleValid(store, g, body);
      a := if f.NoFault? then CreateRule(store, g, body).1 else Failed;
      if !f.Before? {
        store := CreateRule(store, g, body).0;
      }
      trace := trace + [store];
    }

    method CallDeleteRule(g: string, id: string) returns (a: Answer)
      requires Valid()
      modifies this
      ensures Valid() && trace == old(trace) + [store]
      ensures store == old(store) || store == DeleteRule(old(store), g, id).0
      ensures !a.Failed? ==> (store, a) == DeleteRule(old(store), g, id)
      ensures old(Healthy()) ==> Healthy() && (store, a) == DeleteRule(old(store), g, id)
    {
      var f := NextFault();
      DeleteRuleValid(store, g, id);
      a := if f.NoFault? then DeleteRule(store, g, id).1 else Failed;
      if !f.Before? {
        store := DeleteRule(store, g, id).0;
      }
      trace := trace + [store];
    }

    // ----- groups -----

    /** Finds a group by name and corrects its description, or creates it. */
    method EnsureGroup(name: string, description: string) returns (r: Option<string>)
      requires Valid()
      modifies this
      ensures Valid() && |trace| >= |old(trace)| && trace[..|old(trace)|] == old(trace)
      ensures Grown(old(store), store, name)
      ensures forall i :: |old(trace)| <= i < |trace| ==> Grown(old(store), trace[i], name)
      ensures r.Some? ==> r.value in store.groups && store.groups[r.value].name == name
      ensures r.Some? && r.value in old(store).groups ==> store.groups[r.value].description == description
      ensures r.Some? && r.value !in old(store).groups ==>
                store.groups[r.value].description == description + " [" + ManagedBy + "]"
      ensures old(Healthy()) ==> Healthy() && r.Some?
      ensures (exists g :: g in old(store).groups && old(store).groups[g].name == name) ==>
                store.groups.Keys == old(store).groups.Keys
      ensures Labelled(old(store), store, description)
      ensures NamesKept(old(store), store)
    {
      hide Grown, Labelled, NamesKept, ValidStore, CreateGroup, Describe;
      GrownAtFirst(store, name, description);
      var f := NextFault();
      if !f.NoFault? {
        return None;
      }
      if g :| g in store.groups && store.groups[g].name == name {
        if store.groups[g].description != description {
          DescribedIsGrown(store, g, name, description);
          var a := CallDescribe(g, description);
          if !a.Done? {
            return None;
          }
        }
        return Some(g);
      }
      CreatedIsGrown(store, name, description);
      r := CallCreateGroup(name, description + " [" + ManagedBy + "]");
    }

    // ----- rules -----

    method CreateOne(g: string, have: seq<StoredRule>, want: seq<NRule>, i: nat, ghost s0: Store) returns (ok: bool)
      requires Valid() && i < |want| && want[i] !in Bodies(have)
      requires OnlyRulesOf(s0, store, g) && have <= store.groups[g].rules && s0.groups[g].rules == have
      requires Bodies(store.groups[g].rules) == CreateAll(Bodies(have), want[..i])
      modifies this
      ensures Valid() && trace == old(trace) + [store]
      ensures OnlyRulesOf(s0, store, g) && have <= store.groups[g].rules
      ensures InFlight(s0, store, g, want)
      ensures ok ==> Bodies(store.groups[g].rules) == CreateAll(Bodies(have), want[..i + 1])
      ensures old(Healthy()) ==> Healthy()
      ensures old(Healthy()) && Resolvable(s0, want) ==> ok
    {
      CreateStep(store, g, have, want, i);
      CreatingBetween(Bodies(have), want, i);
      CreatingBetween(Bodies(have), want, i + 1);
      ghost var s, t := store, CreateRule(store, g, want[i]).0;
      OnlyRulesTransitive(s0, s, t, g);
      var a := CallCreateRule(g, want[i]);
      ok := !a.Failed? && !a.Gone?;
    }

    method DeleteOne(g: string, have: seq<StoredRule>, want: seq<NRule>, j: nat, ghost s0: Store) returns (ok: bool)
      requires Valid() && j < |have| && have[j].body !in want && NoAliases(have)
      requires OnlyRulesOf(s0, store, g) && s0.groups[g].rules == have
      requires forall k :: j <= k < |have| ==> have[k] in store.groups[g].rules
      requires Bodies(store.groups[g].rules) == CreateAll(Bodies(have), want) - Removed(have, want, j)
      modifies this
      ensures Valid() && trace == old(trace) + [store]
      ensures OnlyRulesOf(s0, store, g)
      ensures InFlight(s0, store, g, want)
      ensures ok ==> forall k :: j < k < |have| ==> have[k] in store.groups[g].rules
      ensures ok ==> Bodies(store.groups[g].rules) == CreateAll(Bodies(have), want) - Removed(have, want, j + 1)
      ensures old(Healthy()) ==> Healthy() && ok
    {
      RemovedAre(have, want, j);
      RemovedAre(have, want, j + 1);
      DeleteStep(store, g, have, j);
      assert have[j] in have && have[j].body in Stale(Bodies(have), want);
      DeletingBetween(Bodies(have), want, Removed(have, want, j));
      DeletingBetween(Bodies(have), want, Removed(have, want, j + 1));
      ghost var s, t := store, DeleteRule(store, g, have[j].id).0;
      OnlyRulesTransitive(s0, s, t, g);
      var a := CallDeleteRule(g, have[j].id);
      ok := !a.Failed? && !a.Conflict?;
    }

    /** The create half: whatever is wanted and was not read. */
    method CreateMissing(g: string, have: seq<StoredRule>, want: seq<NRule>) returns (ok: bool)
      requires Valid() && g in store.groups && store.groups[g].rules == have
      modifies this
      ensures Valid() && old(trace) <= trace
      ensures OnlyRulesOf(old(store), store, g) && have <= store.groups[g].rules
      ensures Passed(trace, |old(trace)|, old(store), g, want)
      ensures InFlight(old(store), store, g, want)
      ensures ok ==> Bodies(store.groups[g].rules) == CreateAll(Bodies(have), want)
      ensures old(Healthy()) ==> Healthy()
      ensures old(Healthy()) && Resolvable(old(store), want) ==> ok
      ensures Bodies(have) == SetOf(want) ==> store == old(store) && trace == old(trace)
    {
      ghost var s0 := store;
      InFlightAtFirst(s0, g, want);
      for i := 0 to |want|
        invariant Valid() && old(trace) <= trace
        invariant OnlyRulesOf(s0, store, g) && have <= store.groups[g].rules
        invariant Bodies(store.groups[g].rules) == CreateAll(Bodies(have), want[..i])
        invariant Passed(trace, |old(trace)|, s0, g, want)
        invariant InFlight(s0, store, g, want)
        invariant old(Healthy()) ==> Healthy()
        invariant Bodies(have) == SetOf(want) ==> store == s0 && trace == old(trace)
      {
        assert want[..i + 1][..i] == want[..i];
        if HasRule(have, want[i]) {
          continue;
        }
        var done := CreateOne(g, have, want, i, s0);
        if !done {
          return false;
        }
      }
      assert want[..|want|] == want;
      return true;
    }

    /** The delete half: whatever was read and is not wanted. */
    method DeleteStale(g: string, have: seq<StoredRule>, want: seq<NRule>, ghost s0: Store) returns (ok: bool)
      requires Valid() && g in s0.groups && s0.groups[g].rules == have && ValidStore(s0)
      requires OnlyRulesOf(s0, store, g) && have <= store.groups[g].rules
      requires Bodies(store.groups[g].rules) == CreateAll(Bodies(have), want)
      modifies this
      ensures Valid() && old(trace) <= trace
      ensures OnlyRulesOf(s0, store, g)
      ensures Passed(trace, |old(trace)|, s0, g, want)
      ensures InFlight(s0, store, g, want)
      ensures ok ==> Bodies(store.groups[g].rules) == Pass(Bodies(have), want)
      ensures old(Healthy()) ==> Healthy() && ok
      ensures Bodies(have) == SetOf(want) ==> store == old(store) && trace == old(trace)
    {
      StaleAtFirst(s0, store, g, have, want);
      hide ValidStore, OnlyRulesOf, InFlight, CreateAll, Removed, Pass;
      for j := 0 to |have|
        invariant Valid() && old(trace) <= trace
        invariant OnlyRulesOf(s0, store, g)
        invariant forall k :: j <= k < |have| ==> have[k] in store.groups[g].rules
        invariant Bodies(store.groups[g].rules) == CreateAll(Bodies(have), want) - Removed(have, want, j)
        invariant Passed(trace, |old(trace)|, s0, g, want)
        invariant InFlight(s0, store, g, want)
        invariant old(Healthy()) ==> Healthy()
        invariant Bodies(have) == SetOf(want) ==> store == old(store) && trace == old(trace)
      {
        RemovedAre(have, want, j);
        if have[j].body in want {
          continue;
        }
        assert Bodies(have) != SetOf(want) by {
          assert have[j] in have && have[j].body in Bodies(have) && have[j].body !in SetOf(want);
        }
        var done := DeleteOne(g, have, want, j, s0);
        if !done {
          return false;
        }
      }
      RemovedAre(have, want, |have|);
      PassIs(Bodies(have), want);
      return true;
    }

    /** Makes one group hold exactly the wanted rules: create, then delete, both
        judged against one reading (pkg/netpol/neutron.go:232, 261-280). */
    method SyncRules(g: string, want: seq<NRule>) returns (ok: bool)
      requires Valid() && g in store.groups
      modifies this
      ensures Valid() && old(trace) <= trace
      ensures OnlyRulesOf(old(store), store, g)
      ensures Passed(trace, |old(trace)|, old(store), g, want)
      ensures InFlight(old(store), store, g, want)
      ensures ok ==> Bodies(store.groups[g].rules) == Pass(Bodies(old(store).groups[g].rules), want)
      ensures old(Healthy()) ==> Healthy()
      ensures old(Healthy()) && Resolvable(old(store), want) ==> ok
      ensures Bodies(old(store).groups[g].rules) == SetOf(want) ==> store == old(store) && trace == old(trace)
    {
      InFlightAtFirst(store, g, want);
      var f := NextFault();
      if !f.NoFault? {
        return false;
      }
      var have := store.groups[g].rules;
      ghost var s0 := store;
      ok := CreateMissing(g, have, want);
      if ok {
        ok := DeleteStale(g, have, want, s0);
      }
    }
  }

  /** A state this group passes through on the way from its rules in s to the
      wanted ones. */
  ghost predicate InFlight(s: Store, t: Store, g: string, want: seq<NRule>) {
    && OnlyRulesOf(s, t, g)
    && Between(Bodies(s.groups[g].rules), want, Bodies(t.groups[g].rules))
  }

  /** And so is every state from the n-th on. */
  ghost predicate Passed(states: seq<Store>, n: nat, s: Store, g: string, want: seq<NRule>) {
    forall i :: n <= i < |states| ==> InFlight(s, states[i], g, want)
  }

  lemma InFlightAtFirst(s: Store, g: string, want: seq<NRule>)
    requires g in s.groups
    ensures InFlight(s, s, g, want)
  {
    assert s == s.(groups := s.groups[g := s.groups[g].(rules := s.groups[g].rules)], next := s.next);
  }

  /** Every address group the wanted rules name exists. */
  ghost predicate Resolvable(s: Store, want: seq<NRule>) {
    forall w :: w in want ==> w.addressGroup == "" || w.addressGroup in s.addressGroups
  }

  /** The stale rules among the first j read. */
  ghost function Removed(have: seq<StoredRule>, want: seq<NRule>, j: nat): set<NRule>
    requires j <= |have|
  {
    set r | r in have[..j] && r.body !in want :: r.body
  }

  lemma RemovedAre(have: seq<StoredRule>, want: seq<NRule>, j: nat)
    requires j <= |have|
    ensures Removed(have, want, j) <= Stale(Bodies(have), want)
    ensures j == |have| ==> Removed(have, want, j) == Stale(Bodies(have), want)
    ensures j < |have| ==>
              Removed(have, want, j + 1) ==
                Removed(have, want, j) + (if have[j].body in want then {} else {have[j].body})
  {
    if j < |have| {
      assert have[..j + 1] == have[..j] + [have[j]];
    } else {
      assert have[..j] == have;
    }
  }

  lemma PassIs(have: set<NRule>, want: seq<NRule>)
    ensures Pass(have, want) == CreateAll(have, want) - Stale(have, want)
  {
  }

  /** Where the delete half starts: nothing gone yet. */
  lemma StaleAtFirst(s: Store, t: Store, g: string, have: seq<StoredRule>, want: seq<NRule>)
    requires OnlyRulesOf(s, t, g) && s.groups[g].rules == have && have <= t.groups[g].rules && ValidStore(s)
    requires Bodies(t.groups[g].rules) == CreateAll(Bodies(have), want)
    ensures InFlight(s, t, g, want) && NoAliases(have)
    ensures forall k :: 0 <= k < |have| ==> have[k] in t.groups[g].rules
    ensures Bodies(t.groups[g].rules) == CreateAll(Bodies(have), want) - Removed(have, want, 0)
  {
    RemovedAre(have, want, 0);
    DeletingBetween(Bodies(have), want, {});
    assert forall k :: 0 <= k < |have| ==> have[k] == t.groups[g].rules[k];
  }

  lemma ClashIsAlias(rules: seq<StoredRule>, w: NRule)
    ensures HoldsAlias(rules, w) <==> Clash(Bodies(rules), w)
  {
    if HoldsAlias(rules, w) {
      var k :| 0 <= k < |rules| && Alias(rules[k].body, w);
      assert rules[k] in rules && rules[k].body in Bodies(rules);
    }
    if Clash(Bodies(rules), w) {
      var r :| r in Bodies(rules) && Alias(r, w);
      var x :| x in rules && x.body == r;
      var k :| 0 <= k < |rules| && rules[k] == x;
      assert Alias(rules[k].body, w);
    }
  }

  /** A create appends, and moves the group one step along CreateAll. */
  lemma CreateStep(s: Store, g: string, have: seq<StoredRule>, want: seq<NRule>, i: nat)
    requires ValidStore(s) && g in s.groups && i < |want| && have <= s.groups[g].rules
    requires Bodies(s.groups[g].rules) == CreateAll(Bodies(have), want[..i])
    requires want[i] !in Bodies(have)
    ensures var t := CreateRule(s, g, want[i]).0; OnlyRulesOf(s, t, g) && have <= t.groups[g].rules
    ensures !CreateRule(s, g, want[i]).1.Gone?
    ensures CreateRule(s, g, want[i]).1.Failed? ==> CreateRule(s, g, want[i]).0 == s
    ensures CreateRule(s, g, want[i]).1.Failed? ==>
              want[i].addressGroup != "" && want[i].addressGroup !in s.addressGroups
    ensures !CreateRule(s, g, want[i]).1.Failed? ==>
              Bodies(CreateRule(s, g, want[i]).0.groups[g].rules) == CreateAll(Bodies(have), want[..i + 1])
  {
    var (t, a) := CreateRule(s, g, want[i]);
    CreateAllStep(Bodies(have), want, i);
    hide CreateAll, Clash, ValidStore, Bodies, HoldsAlias;
    CreateRuleValid(s, g, want[i]);
    ClashIsAlias(s.groups[g].rules, want[i]);
    if !a.Done? {
      assert t == s;
      InFlightAtFirst(s, g, want);
    }
  }

  /** A delete by id takes out one body and leaves the later reads in place. */
  lemma DeleteStep(s: Store, g: string, have: seq<StoredRule>, j: nat)
    requires ValidStore(s) && g in s.groups && j < |have|
    requires forall k :: j <= k < |have| ==> have[k] in s.groups[g].rules
    requires NoAliases(have)
    ensures var (t, a) := DeleteRule(s, g, have[j].id);
            && a.Done? && OnlyRulesOf(s, t, g)
            && Bodies(t.groups[g].rules) == Bodies(s.groups[g].rules) - {have[j].body}
            && (forall k :: j < k < |have| ==> have[k] in t.groups[g].rules)
  {
    var rules := s.groups[g].rules;
    assert have[j] in rules;
    var k :| 0 <= k < |rules| && rules[k] == have[j];
    WithoutBodies(rules, k);
    WithoutAre(rules, have[j].id);
  }
}
