/** Sweep of pkg/netpol/neutron.go: collecting the groups of policies that are
    gone, and the peer sets nothing refers to any more. */
module Sweeping {
  import opened Wrappers
  import opened Text
  import opened NetworkPolicy
  import opened NeutronStore
  import opened NeutronClient
  import opened RuleSync

  const PolicyPrefix := "knp-policy-"
  const PeersPrefix := "knp-peers-"
  const RefPrefix := "kubezun: what NetworkPolicy "
  const RefSuffix := " allows"

  predicate HasSuffix(s: string, x: string) {
    |x| <= |s| && s[|s| - |x|..] == x
  }

  function TrimSuffix(s: string, x: string): string {
    if HasSuffix(s, x) then s[..|s| - |x|] else s
  }

  /** Which policy a group was made for, read back from its description; empty
      when it was not made by this. */
  function PolicyOf(description: string): string {
    if !HasPrefix(description, RefPrefix) || !HasSuffix(description, RefSuffix) then ""
    else TrimSuffix(description[|RefPrefix|..], RefSuffix)
  }

  /** The description of an ensured group reads back as its policy; the one a
      group is created with does not, until the next ensure corrects it. */
  lemma PolicyOfDescribing(ref: string)
    ensures PolicyOf(Describing(ref)) == ref
    ensures PolicyOf(Describing(ref) + " [" + ManagedBy + "]") == ""
  {
    var d := Describing(ref);
    assert d == RefPrefix + ref + RefSuffix;
    assert d[|RefPrefix|..] == ref + RefSuffix;
    assert (ref + RefSuffix)[|ref|..] == RefSuffix;
    assert (ref + RefSuffix)[..|ref|] == ref;
    var made := d + " [" + ManagedBy + "]";
    var tail := made[|made| - |RefSuffix|..];
    assert tail[|RefSuffix| - 1] == made[|made| - 1] == ']' && RefSuffix[|RefSuffix| - 1] == 's';
  }

  /** The part before the first slash, if there is one. */
  function NamespacePart(ref: string): Option<string> {
    if ref == "" then None
    else if ref[0] == '/' then Some("")
    else match NamespacePart(ref[1..]) case None => None case Some(ns) => Some([ref[0]] + ns)
  }

  lemma {:induction false} NamespaceOfKey(ns: string, name: string)
    requires !HasChar(ns, '/')
    ensures NamespacePart(ns + "/" + name) == Some(ns)
  {
    var ref := ns + "/" + name;
    if ns == "" {
      assert ref[0] == '/';
    } else {
      assert ref[0] == ns[0] && ns[0] != '/';
      assert ref[1..] == ns[1..] + "/" + name;
      assert forall i :: 0 <= i < |ns[1..]| ==> ns[1..][i] == ns[i + 1];
      NamespaceOfKey(ns[1..], name);
      assert ns == [ns[0]] + ns[1..];
    }
  }

  /** A group goes only if its description names a policy of a served namespace
      that is not live. */
  predicate Doomed(g: SecGroup, live: set<string>, served: set<string>) {
    && HasPrefix(g.name, PolicyPrefix)
    && PolicyOf(g.description) != ""
    && PolicyOf(g.description) !in live
    && match NamespacePart(PolicyOf(g.description)) case None => false case Some(ns) => ns in served
  }

  /** A group made for a policy of a served namespace that is not live any more,
      by its name and what is written in it. */
  ghost predicate MadeForGone(g: SecGroup, live: set<string>, served: set<string>) {
    && "knp-policy-" <= g.name
    && exists ns, name ::
         && g.description == "kubezun: what NetworkPolicy " + (ns + "/" + name) + " allows"
         && '/' !in ns && ns in served && ns + "/" + name !in live
  }

  lemma {:induction false} NamespacePartIs(ref: string)
    ensures NamespacePart(ref).None? <==> '/' !in ref
    ensures NamespacePart(ref).Some? ==>
              var ns := NamespacePart(ref).value; '/' !in ns && |ns| < |ref| && ref == ns + "/" + ref[|ns| + 1..]
  {
    if ref != "" {
      assert ref == [ref[0]] + ref[1..];
      NamespacePartIs(ref[1..]);
    }
  }

  lemma OneSlash(ns: string, name: string, ns': string, name': string)
    requires '/' !in ns && '/' !in ns' && ns + "/" + name == ns' + "/" + name'
    ensures ns == ns' && name == name'
  {
    FirstFieldUnique(ns, name, ns', name', '/');
  }

  /** A prefix and a suffix that share their space leave nothing with a slash
      between them. */
  lemma NothingShared(d: string)
    requires HasPrefix(d, RefPrefix) && HasSuffix(d, RefSuffix) && |d| < |RefPrefix| + |RefSuffix|
    ensures '/' !in PolicyOf(d)
  {
    var rest := d[|RefPrefix|..];
    forall i | 0 <= i < |rest| ensures rest[i] != '/' {
      assert rest[i] == d[|RefPrefix| + i] == RefSuffix[|RefPrefix| + i - (|d| - |RefSuffix|)];
    }
  }

  lemma TrimmedIsBetween(d: string)
    requires HasPrefix(d, RefPrefix) && HasSuffix(d, RefSuffix) && |d| >= |RefPrefix| + |RefSuffix|
    ensures d == RefPrefix + PolicyOf(d) + RefSuffix
  {
    var rest := d[|RefPrefix|..];
    assert d == RefPrefix + rest;
    assert rest[|rest| - |RefSuffix|..] == d[|d| - |RefSuffix|..] == RefSuffix;
    assert rest == rest[..|rest| - |RefSuffix|] + RefSuffix;
  }

  /** Doomed is exactly that. */
  lemma DoomedExactly(g: SecGroup, live: set<string>, served: set<string>)
    ensures Doomed(g, live, served) <==> MadeForGone(g, live, served)
  {
    var ref := PolicyOf(g.description);
    NamespacePartIs(ref);
    if Doomed(g, live, served) {
      var ns := NamespacePart(ref).value;
      assert ref == ns + "/" + ref[|ns| + 1..] && '/' in ref;
      if |g.description| < |RefPrefix| + |RefSuffix| { NothingShared(g.description); }
      TrimmedIsBetween(g.description);
      assert g.description == "kubezun: what NetworkPolicy " + (ns + "/" + ref[|ns| + 1..]) + " allows";
    }
    if MadeForGone(g, live, served) {
      var ns, name :| g.description == "kubezun: what NetworkPolicy " + (ns + "/" + name) + " allows"
                      && '/' !in ns && ns in served && ns + "/" + name !in live;
      assert g.description == Describing(ns + "/" + name);
      PolicyOfDescribing(ns + "/" + name);
      NamespaceOfKey(ns, name);
    }
  }

  /** What a sweep may have done by the time the store is t: taken away doomed
      groups no port holds, and unreferenced peer sets, and nothing else. */
  ghost predicate Swept(s: Store, t: Store, live: set<string>, served: set<string>) {
    && t == s.(groups := t.groups, addressGroups := t.addressGroups)
    && (forall g :: g in t.groups ==> g in s.groups && t.groups[g] == s.groups[g])
    && (forall g :: g in s.groups && g !in t.groups ==> Doomed(s.groups[g], live, served) && !OnPort(s, g))
    && (forall a :: a in t.addressGroups ==> a in s.addressGroups && t.addressGroups[a] == s.addressGroups[a])
    && (forall a :: a in s.addressGroups && a !in t.addressGroups ==>
          HasPrefix(s.addressGroups[a].name, PeersPrefix) && !Referenced(t, a))
  }

  lemma SweptAtFirst(s: Store, live: set<string>, served: set<string>)
    ensures Swept(s, s, live, served)
  {
    assert s == s.(groups := s.groups, addressGroups := s.addressGroups);
  }

  lemma GroupSwept(s: Store, t: Store, g: string, live: set<string>, served: set<string>)
    requires Swept(s, t, live, served) && g in s.groups && Doomed(s.groups[g], live, served)
    ensures Swept(s, DeleteGroup(t, g).0, live, served)
    ensures DeleteGroup(t, g).1.Done? ==> DeleteGroup(t, g).0.groups == t.groups - {g}
    ensures DeleteGroup(t, g).1 == if g !in t.groups then Gone else if OnPort(s, g) then Conflict else Done
    ensures DeleteGroup(t, g).0.addressGroups == t.addressGroups
  {
    hide Doomed, HasPrefix;
    var u := DeleteGroup(t, g).0;
    forall a | Referenced(u, a) ensures Referenced(t, a) {
      var h :| h in u.groups && NeutronStore.Named(u.groups[h].rules, a);
      assert h in t.groups && NeutronStore.Named(t.groups[h].rules, a);
    }
  }

  lemma PeersSwept(s: Store, t: Store, a: string, live: set<string>, served: set<string>)
    requires Swept(s, t, live, served) && (a in t.addressGroups ==> HasPrefix(t.addressGroups[a].name, PeersPrefix))
    ensures Swept(s, DeleteAddressGroup(t, a).0, live, served)
    ensures DeleteAddressGroup(t, a).0.groups == t.groups
    ensures forall b :: Referenced(DeleteAddressGroup(t, a).0, b) <==> Referenced(t, b)
  {
    hide Doomed, HasPrefix, OnPort;
  }

  method CallDelete(n: Neutron, id: string, addressGroup: bool) returns (answer: Answer)
    requires n.Valid()
    modifies n
    ensures n.Valid() && n.trace == old(n.trace) + [n.store]
    ensures var r := if addressGroup then DeleteAddressGroup(old(n.store), id) else DeleteGroup(old(n.store), id);
            && (n.store == old(n.store) || n.store == r.0)
            && (!answer.Failed? ==> (n.store, answer) == r)
            && (old(n.Healthy()) ==> n.Healthy() && (n.store, answer) == r)
  {
    var f := n.NextFault();
    DeleteGroupValid(n.store, id);
    DeleteAddressGroupValid(n.store, id);
    var r := if addressGroup then DeleteAddressGroup(n.store, id) else DeleteGroup(n.store, id);
    answer := if f.NoFault? then r.1 else Failed;
    if !f.Before? {
      n.store := r.0;
    }
    n.trace := n.trace + [n.store];
  }

  ghost predicate AllSwept(states: seq<Store>, k: nat, s: Store, live: set<string>, served: set<string>) {
    forall i :: k <= i < |states| ==> Swept(s, states[i], live, served)
  }

  /** Deletes the doomed groups; one still on a port waits for the next sweep. */
  method SweepGroups(n: Neutron, doomed: set<string>, live: set<string>, served: set<string>)
    returns (ok: bool, removed: nat)
    requires n.Valid() && forall g :: g in doomed ==> g in n.store.groups && Doomed(n.store.groups[g], live, served)
    modifies n
    ensures n.Valid() && old(n.trace) <= n.trace
    ensures Swept(old(n.store), n.store, live, served) && AllSwept(n.trace, |old(n.trace)|, old(n.store), live, served)
    ensures n.store.addressGroups == old(n.store).addressGroups
    ensures forall g :: g in old(n.store).groups && g !in doomed ==> g in n.store.groups
    ensures ok ==> forall g :: g in doomed ==> (g in n.store.groups <==> OnPort(old(n.store), g))
    ensures old(n.Healthy()) ==> n.Healthy() && ok
  {
    hide ValidStore, HasPrefix, Referenced;
    ghost var s := n.store;
    SweptAtFirst(s, live, served);
    var rest := doomed;
    removed := 0;
    while rest != {}
      invariant rest <= doomed && n.Valid() && old(n.trace) <= n.trace
      invariant Swept(s, n.store, live, served) && AllSwept(n.trace, |old(n.trace)|, s, live, served)
      invariant n.store.addressGroups == s.addressGroups
      invariant forall g :: g in s.groups && g !in doomed ==> g in n.store.groups
      invariant forall g :: g in doomed && g !in rest ==> (g in n.store.groups <==> OnPort(s, g))
      invariant forall g :: g in rest ==> g in n.store.groups
      invariant old(n.Healthy()) ==> n.Healthy()
      decreases rest
    {
      var g :| g in rest;
      rest := rest - {g};
      GroupSwept(s, n.store, g, live, served);
      hide Swept, Doomed, ValidStore;
      var answer := CallDelete(n, g, false);
      if answer.Failed? {
        return false, removed;
      }
      if answer.Done? {
        removed := removed + 1;
      }
    }
    return true, removed;
  }

  /** Deletes the unreferenced peer sets; one a rule still names is refused. */
  method SweepPeers(n: Neutron, candidates: set<string>, ghost s: Store, live: set<string>, served: set<string>)
    returns (ok: bool, removed: nat)
    requires n.Valid() && Swept(s, n.store, live, served)
    requires forall a :: a in candidates ==>
               a in n.store.addressGroups && HasPrefix(n.store.addressGroups[a].name, PeersPrefix)
    modifies n
    ensures n.Valid() && old(n.trace) <= n.trace
    ensures Swept(s, n.store, live, served) && AllSwept(n.trace, |old(n.trace)|, s, live, served)
    ensures n.store.groups == old(n.store).groups
    ensures forall a :: a in old(n.store).addressGroups && a !in candidates ==> a in n.store.addressGroups
    ensures ok ==> forall a :: a in candidates ==> (a in n.store.addressGroups <==> Referenced(n.store, a))
    ensures old(n.Healthy()) ==> n.Healthy() && ok
  {
    hide ValidStore, HasPrefix, Doomed, OnPort;
    var rest := candidates;
    removed := 0;
    while rest != {}
      invariant rest <= candidates && n.Valid() && old(n.trace) <= n.trace
      invariant Swept(s, n.store, live, served) && AllSwept(n.trace, |old(n.trace)|, s, live, served)
      invariant n.store.groups == old(n.store).groups
      invariant forall a :: a in old(n.store).addressGroups && a !in candidates ==> a in n.store.addressGroups
      invariant forall a :: a in candidates && a !in rest ==> (a in n.store.addressGroups <==> Referenced(n.store, a))
      invariant forall a :: a in rest ==>
        a in n.store.addressGroups && HasPrefix(n.store.addressGroups[a].name, PeersPrefix)
      invariant old(n.Healthy()) ==> n.Healthy()
      decreases rest
    {
      var a :| a in rest;
      rest := rest - {a};
      PeersSwept(s, n.store, a, live, served);
      hide Swept, ValidStore, Referenced;
      var answer := CallDelete(n, a, true);
      if answer.Failed? {
        return false, removed;
      }
      if answer.Done? {
        removed := removed + 1;
      }
    }
    return true, removed;
  }

  /** The peer sets the groups that are staying point at, as read. */
  function KeptReferences(s: Store, doomed: set<string>): set<string> {
    set g, r | g in s.groups && g !in doomed && HasPrefix(s.groups[g].name, PolicyPrefix)
               && r in s.groups[g].rules && r.body.addressGroup != "" :: r.body.addressGroup
  }

  /** Reads, decides, deletes: the groups doomed, then the pod sets no group that
      stays names. */
  method CollectDoomed(n: Neutron, live: set<string>, served: set<string>) returns (ok: bool, removed: nat)
    requires n.Valid()
    modifies n
    ensures n.Valid() && old(n.trace) <= n.trace
    ensures Swept(old(n.store), n.store, live, served) && AllSwept(n.trace, |old(n.trace)|, old(n.store), live, served)
    ensures ok ==> forall g :: g in old(n.store).groups ==>
              (g !in n.store.groups <==> Doomed(old(n.store).groups[g], live, served) && !OnPort(old(n.store), g))
    ensures ok ==>
              forall a ::
                a in old(n.store).addressGroups && HasPrefix(old(n.store).addressGroups[a].name, PeersPrefix) ==>
                (a in n.store.addressGroups <==> Referenced(n.store, a))
    ensures old(n.Healthy()) ==> n.Healthy() && ok
  {
    ghost var s := n.store;
    SweptAtFirst(s, live, served);
    var f := n.NextFault();
    if !f.NoFault? {
      return false, 0;
    }
    var all := n.store;
    var doomed := set g | g in all.groups && Doomed(all.groups[g], live, served);
    var referenced := KeptReferences(all, doomed);
    ok, removed := SweepGroups(n, doomed, live, served);
    if !ok {
      return;
    }
    f := n.NextFault();
    if !f.NoFault? {
      return false, removed;
    }
    var candidates := set a | a in n.store.addressGroups && HasPrefix(n.store.addressGroups[a].name, PeersPrefix)
                              && a !in referenced;
    ghost var t := n.store;
    var more;
    ok, more := SweepPeers(n, candidates, s, live, served);
    removed := removed + more;
    forall a | a in referenced ensures Referenced(n.store, a) {
      var g, r :| g in s.groups && g !in doomed && r in s.groups[g].rules && r.body.addressGroup == a;
      assert g in n.store.groups && n.store.groups[g] == s.groups[g];
      var i :| 0 <= i < |s.groups[g].rules| && s.groups[g].rules[i] == r;
      assert NeutronStore.Named(n.store.groups[g].rules, a);
    }
  }

  /** Groups that are gone were made for policies that are gone, and on no port; pod
      sets that are gone are named by no rule. */
  ghost predicate GoneRightly(s: Store, t: Store, live: set<string>, served: set<string>) {
    && (forall g :: g in s.groups && g !in t.groups ==> MadeForGone(s.groups[g], live, served) && !OnPort(s, g))
    && (forall a :: a in s.addressGroups && a !in t.addressGroups ==>
          "knp-peers-" <= s.addressGroups[a].name && !Referenced(t, a))
  }

  lemma SweptRightly(s: Store, t: Store, live: set<string>, served: set<string>)
    requires Swept(s, t, live, served)
    ensures GoneRightly(s, t, live, served)
  {
    hide Doomed, MadeForGone, OnPort, Referenced;
    forall g | g in s.groups { DoomedExactly(s.groups[g], live, served); }
  }

  /** What a finished sweep leaves. */
  ghost predicate SweptClean(s: Store, t: Store, live: set<string>, served: set<string>) {
    && (forall g :: g in s.groups ==>
          (g !in t.groups <==> MadeForGone(s.groups[g], live, served) && !OnPort(s, g)))
    && (forall a :: a in s.addressGroups && "knp-peers-" <= s.addressGroups[a].name ==>
          (a in t.addressGroups <==> Referenced(t, a)))
  }

  /** One sweep. Safety is unconditional: in every state on the way the only
      groups gone are ones no port carries, made for a policy that is gone from a
      namespace served here, and the only pod sets gone are ones no rule names.
      With no failing call every such group is gone, and the pod sets left are
      exactly the ones a surviving rule names. */
  method Sweep(n: Neutron, live: set<string>, served: set<string>) returns (ok: bool, removed: nat)
    requires n.Valid()
    modifies n
    ensures n.Valid() && old(n.trace) <= n.trace
    ensures Swept(old(n.store), n.store, live, served) && AllSwept(n.trace, |old(n.trace)|, old(n.store), live, served)
    ensures GoneRightly(old(n.store), n.store, live, served)
    ensures forall i :: |old(n.trace)| <= i < |n.trace| ==> GoneRightly(old(n.store), n.trace[i], live, served)
    ensures ok ==> SweptClean(old(n.store), n.store, live, served)
    ensures old(n.Healthy()) ==> n.Healthy() && ok
  {
    ghost var s, k := n.store, |n.trace|;
    ok, removed := CollectDoomed(n, live, served);
    hide Swept, Doomed, MadeForGone, GoneRightly, OnPort, Referenced, ValidStore;
    SweptRightly(s, n.store, live, served);
    forall i | k <= i < |n.trace| ensures GoneRightly(s, n.trace[i], live, served) {
      SweptRightly(s, n.trace[i], live, served);
    }
    forall g | g in s.groups { DoomedExactly(s.groups[g], live, served); }
  }
}
