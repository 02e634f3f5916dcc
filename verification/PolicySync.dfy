/** SyncPolicyPeers of pkg/netpol/reconciler.go: the one place that writes a
    policy's peer sets and its group, and what such a pass leaves alone. */
module PolicySync {
  import opened Wrappers
  import opened NetworkPolicy
  import opened Translate
  import opened Peers
  import opened NeutronStore
  import opened NeutronClient
  import opened AddressSync
  import opened NeutronMeaning
  import opened Sweeping

  /** Names are a prefix and a digest; the digest is taken to tell texts apart. */
  ghost predicate Injective(h: string -> string) {
    forall a, b :: h(a) == h(b) ==> a == b
  }

  function GroupName(h: string -> string, key: string): string {
    PolicyPrefix + h(key)
  }

  function SetName(h: string -> string, key: string): string {
    PeersPrefix + h(key)
  }

  lemma NamesApart(h: string -> string, a: string, b: string)
    requires Injective(h)
    ensures GroupName(h, a) == GroupName(h, b) ==> a == b
    ensures SetName(h, a) == SetName(h, b) ==> a == b
  {
    assert GroupName(h, a)[|PolicyPrefix|..] == h(a) && GroupName(h, b)[|PolicyPrefix|..] == h(b);
    assert SetName(h, a)[|PeersPrefix|..] == h(a) && SetName(h, b)[|PeersPrefix|..] == h(b);
  }

  // ----- peer sets -----

  ghost predicate SetReady(e: Env, c: Cluster, h: string -> string, s: Store, k: string, sel: PeerSelector, a: string) {
    && a in s.addressGroups
    && s.addressGroups[a].name == SetName(h, k)
    && Holding(e, c, s.addressGroups[a].addresses, sel)
  }

  ghost predicate SetsReady(e: Env, c: Cluster, h: string -> string, s: Store,
                            sets: map<string, PeerSelector>, peers: map<string, string>) {
    peers.Keys == sets.Keys && forall k :: k in sets ==> SetReady(e, c, h, s, k, sets[k], peers[k])
  }

  /** Whether an address group is either of no interest to these pod sets or
      already as they want it. */
  ghost predicate AsWanted(e: Env, c: Cluster, h: string -> string, sets: map<string, PeerSelector>, g: AddressGroup) {
    forall k :: k in sets && g.name == SetName(h, k) ==> Holding(e, c, g.addresses, sets[k])
  }

  /** What filling these pod sets may have done: added groups, and rewritten
      the ones that were not as wanted. */
  ghost predicate SetsFilled(e: Env, c: Cluster, h: string -> string, s: Store, t: Store,
                             sets: map<string, PeerSelector>) {
    && t == s.(addressGroups := t.addressGroups, next := t.next) && s.next <= t.next
    && forall a :: a in s.addressGroups ==>
         && a in t.addressGroups && t.addressGroups[a].name == s.addressGroups[a].name
         && (AsWanted(e, c, h, sets, s.addressGroups[a]) ==> t.addressGroups[a] == s.addressGroups[a])
  }

  ghost predicate StoredForms(s: Store) {
    forall a, x :: a in s.addressGroups && x in s.addressGroups[a].addresses ==> Normal(x)
  }

  lemma NothingFilled(e: Env, c: Cluster, h: string -> string, s: Store, sets: map<string, PeerSelector>)
    ensures SetsFilled(e, c, h, s, s, sets)
  {
    assert s == s.(addressGroups := s.addressGroups, next := s.next);
  }

  lemma FilledTwice(e: Env, c: Cluster, h: string -> string, s: Store, t: Store, u: Store,
                    sets: map<string, PeerSelector>)
    requires SetsFilled(e, c, h, s, t, sets) && SetsFilled(e, c, h, t, u, sets)
    ensures SetsFilled(e, c, h, s, u, sets)
  {
  }

  lemma FilledOfMore(e: Env, c: Cluster, h: string -> string, s: Store, t: Store, k: string,
                     sets: map<string, PeerSelector>)
    requires k in sets && SetsFilled(e, c, h, s, t, map[k := sets[k]])
    ensures SetsFilled(e, c, h, s, t, sets)
  {
    forall a | a in s.addressGroups && AsWanted(e, c, h, sets, s.addressGroups[a])
      ensures AsWanted(e, c, h, map[k := sets[k]], s.addressGroups[a])
    {
    }
  }

  /** Finds or makes one peer set and brings it to what its selector lists. */
  method SyncSet(n: Neutron, e: Env, c: Cluster, h: string -> string, k: string, sel: PeerSelector)
    returns (r: Option<string>)
    requires n.Valid() && StoredForms(n.store)
    modifies n
    ensures n.Valid() && StoredForms(n.store) && old(n.trace) <= n.trace
    ensures SetsFilled(e, c, h, old(n.store), n.store, map[k := sel])
    ensures r.Some? ==> SetReady(e, c, h, n.store, k, sel, r.value)
    ensures old(n.Healthy()) ==> n.Healthy() && r.Some?
  {
    ghost var s := n.store;
    r := EnsureAddressGroup(n, SetName(h, k));
    if r.None? {
      return;
    }
    ghost var t := n.store;
    var addresses := AddressesFor(e, c, sel);
    assert Holding(e, c, Forms(addresses), sel);
    var ok := SyncAddresses(n, r.value, addresses);
    FillingIs(e, c, h, s, t, n.store, k, sel, r.value, Forms(addresses));
    forall x | x in Forms(addresses) ensures Normal(x) {
      var a :| a in addresses && x == Normalize(a);
      NormalizeTwice(a);
    }
    if !ok {
      return None;
    }
  }

  lemma FillingIs(e: Env, c: Cluster, h: string -> string, s: Store, t: Store, u: Store,
                  k: string, sel: PeerSelector, a: string, want: set<string>)
    requires GroupAdded(s, t, SetName(h, k)) && Filling(t, u, a, want) && Holding(e, c, want, sel)
    requires t.addressGroups[a].name == SetName(h, k)
    ensures SetsFilled(e, c, h, s, u, map[k := sel])
  {
    if a in s.addressGroups && AsWanted(e, c, h, map[k := sel], s.addressGroups[a]) {
      assert k in map[k := sel];
      assert s.addressGroups[a].addresses == want;
    }
    assert u == s.(addressGroups := u.addressGroups, next := u.next);
  }

  ghost predicate ReadySoFar(e: Env, c: Cluster, h: string -> string, s: Store,
                             sets: map<string, PeerSelector>, peers: map<string, string>) {
    forall k :: k in peers ==> k in sets && SetReady(e, c, h, s, k, sets[k], peers[k])
  }

  lemma SetStep(e: Env, c: Cluster, h: string -> string, s: Store, t: Store, u: Store,
                sets: map<string, PeerSelector>, peers: map<string, string>, k: string)
    requires Injective(h) && k in sets
    requires SetsFilled(e, c, h, s, t, sets) && SetsFilled(e, c, h, t, u, map[k := sets[k]])
    requires ReadySoFar(e, c, h, t, sets, peers)
    ensures SetsFilled(e, c, h, s, u, sets)
    ensures ReadySoFar(e, c, h, u, sets, peers)
  {
    FilledOfMore(e, c, h, t, u, k, sets);
    FilledTwice(e, c, h, s, t, u, sets);
    forall k' | k' in peers ensures SetReady(e, c, h, u, k', sets[k'], peers[k']) {
      NamesApart(h, k, k');
      assert AsWanted(e, c, h, map[k := sets[k]], t.addressGroups[peers[k']]);
    }
  }

  /** Every peer set of one policy, in key order; the first that fails stops it. */
  method SyncSets(n: Neutron, e: Env, c: Cluster, h: string -> string, sets: map<string, PeerSelector>)
    returns (r: Option<map<string, string>>)
    requires n.Valid() && StoredForms(n.store) && Injective(h)
    modifies n
    ensures n.Valid() && StoredForms(n.store) && old(n.trace) <= n.trace
    ensures SetsFilled(e, c, h, old(n.store), n.store, sets)
    ensures r.Some? ==> SetsReady(e, c, h, n.store, sets, r.value)
    ensures old(n.Healthy()) ==> n.Healthy() && r.Some?
  {
    hide SetsFilled, SetReady, StoredForms, ValidStore;
    var keys := Listing(sets.Keys);
    var peers: map<string, string> := map[];
    ghost var s := n.store;
    NothingFilled(e, c, h, s, sets);
    for i := 0 to |keys|
      invariant n.Valid() && StoredForms(n.store) && old(n.trace) <= n.trace
      invariant SetsFilled(e, c, h, s, n.store, sets)
      invariant peers.Keys == Members(keys[..i])
      invariant ReadySoFar(e, c, h, n.store, sets, peers)
      invariant old(n.Healthy()) ==> n.Healthy()
    {
      var k := keys[i];
      assert k in Members(keys);
      assert keys[..i + 1] == keys[..i] + [k];
      ghost var t := n.store;
      var id := SyncSet(n, e, c, h, k, sets[k]);
      SetStep(e, c, h, s, t, n.store, sets, peers, k);
      if id.None? {
        return None;
      }
      peers := peers[k := id.value];
    }
    assert keys[..|keys|] == keys;
    r := Some(peers);
  }
}
