/** Work begun since the last edit: what passes running side by side, and sweeps,
    do to the pod sets they share. */
module Freshness {
  import opened Wrappers
  import opened NetworkPolicy
  import opened Translate
  import opened Peers
  import opened RuleSets
  import opened NeutronStore
  import opened AddressSync
  import opened NeutronMeaning
  import opened PolicySync
  import opened PolicyFacts
  import opened Protocol
  import opened Interleaving
  import opened InterleavingSafety

  // ----- what a pod set should hold -----

  ghost predicate PlanOf(e: Env, q: Policy, p: Plan) {
    && q.Key() == p.key && Translation(e, q).Ok? && p.ruleSet == RulesOfPolicy(Translation(e, q).value)
    && Members(p.keys) == p.ruleSet.peers.Keys
  }

  /** The plan of a policy as it is listed now. */
  ghost predicate PlanNow(e: Env, w: World, p: Plan) {
    exists q :: q in w.policies && PlanOf(e, q, p)
  }

  /** Some listed policy uses this key, and wants this of it. */
  ghost predicate Wants(e: Env, w: World, k: string, want: set<string>) {
    exists q :: q in w.policies && WantsOf(e, w, q, k, want)
  }

  ghost predicate WantsOf(e: Env, w: World, q: Policy, k: string, want: set<string>) {
    && Translation(e, q).Ok? && k in RulesOfPolicy(Translation(e, q).value).peers
    && want == WantedOf(e, w.cluster, RulesOfPolicy(Translation(e, q).value).peers[k])
  }

  lemma WantedAreListed(e: Env, c: Cluster, sel: PeerSelector)
    ensures forall x :: x in WantedOf(e, c, sel) <==> exists a :: Listed(e, c, sel, a) && x == Normalize(a)
  {
    forall x | x in WantedOf(e, c, sel) ensures exists a :: Listed(e, c, sel, a) && x == Normalize(a) {
      var pod :| pod in c.pods && PodListed(e, c, sel, pod, pod.PodIP()) && x == Normalize(pod.PodIP());
      assert Listed(e, c, sel, pod.PodIP());
    }
    forall a | Listed(e, c, sel, a) ensures Normalize(a) in WantedOf(e, c, sel) {
      var pod :| pod in c.pods && PodListed(e, c, sel, pod, a);
    }
  }

  lemma HoldingIs(e: Env, c: Cluster, addresses: set<string>, sel: PeerSelector)
    ensures Holding(e, c, addresses, sel) <==> addresses == WantedOf(e, c, sel)
  {
    WantedAreListed(e, c, sel);
    hide Listed;
    if Holding(e, c, addresses, sel) {
      forall x ensures x in addresses <==> x in WantedOf(e, c, sel) { }
    }
  }

  lemma SameListSameWanted(e: Env, c: Cluster, x: PeerSelector, y: PeerSelector)
    requires forall addr :: Listed(e, c, x, addr) <==> Listed(e, c, y, addr)
    ensures WantedOf(e, c, x) == WantedOf(e, c, y)
  {
    WantedAreListed(e, c, x);
    WantedAreListed(e, c, y);
    hide WantedOf, Listed, Normalize;
    forall z ensures z in WantedOf(e, c, x) <==> z in WantedOf(e, c, y) {
      if z in WantedOf(e, c, x) { var addr :| Listed(e, c, x, addr) && z == Normalize(addr); }
      if z in WantedOf(e, c, y) { var addr :| Listed(e, c, y, addr) && z == Normalize(addr); }
    }
  }

  /** Policies sharing a key want the same of it. */
  lemma WantsUnique(e: Env, w: World, k: string, a: set<string>, b: set<string>)
    requires Faithful(e) && WellFormed(w) && Wants(e, w, k, a) && Wants(e, w, k, b)
    ensures a == b
  {
    hide Faithful, Listed, WantedOf;
    var p :| p in w.policies && WantsOf(e, w, p, k, a);
    var q :| q in w.policies && WantsOf(e, w, q, k, b);
    PoliciesAgree(e, w.cluster, p, q);
    hide WellFormed, Translation, RulesOfPolicy;
    SameListSameWanted(e, w.cluster, RulesOfPolicy(Translation(e, p).value).peers[k],
                       RulesOfPolicy(Translation(e, q).value).peers[k]);
  }

  // ----- what is known of a pod set under way -----

  /** It goes by the key's name, while it is there. */
  ghost predicate Ours(h: string -> string, s: Store, k: string, a: string) {
    && a != "" && (a in s.addressGroups ==> s.addressGroups[a].name == SetName(h, k))
    && forall n: nat :: n >= s.next ==> a != IdOf(n)
  }

  /** And it holds what the key wants. */
  ghost predicate Filled(e: Env, h: string -> string, w: World, s: Store, k: string, a: string) {
    Ours(h, s, k, a) && (a in s.addressGroups ==> Wants(e, w, k, s.addressGroups[a].addresses))
  }

  /** Between a reading and the writes made from it, with others writing too:
      nothing wanted that was read has gone, nothing unwanted has come, and the
      missing came together or not at all, as the surplus went. */
  ghost predicate Midway(want: set<string>, read: set<string>, now: set<string>) {
    && want * read <= now <= read + want
    && (want <= now || now !! (want - read))
    && (now <= want || read - want <= now)
  }

  ghost predicate FillingAt(s: Store, a: string, want: set<string>, read: set<string>) {
    a in s.addressGroups ==> Midway(want, read, s.addressGroups[a].addresses)
  }

  /** What a write makes of a pod set that should hold want: nothing, or all that
      was missing, or nothing any more that should not be there. */
  ghost predicate Toward(want: set<string>, now: set<string>, next: set<string>) {
    || next == now
    || (want <= next && next - want == now - want)
    || (next <= want && next * want == now * want)
  }

  lemma MidwayStays(want: set<string>, read: set<string>, now: set<string>, next: set<string>)
    requires Midway(want, read, now) && Toward(want, now, next)
    ensures Midway(want, read, next)
    ensures want <= now ==> want <= next
  {
    assert now == (now * want) + (now - want) && next == (next * want) + (next - want);
    if want <= next && next - want == now - want {
    } else if next <= want && next * want == now * want {
      assert next == now * want;
    }
  }

  lemma FullStays(want: set<string>, next: set<string>)
    requires Toward(want, want, next)
    ensures next == want
  {
    assert next == (next * want) + (next - want) && want - want == {} && want * want == want;
  }

  /** What a call of fresh work may do to the pod sets. */
  ghost predicate SetsToward(e: Env, h: string -> string, w: World, s: Store, t: Store) {
    && s.next <= t.next
    && (forall a :: a in s.addressGroups && a in t.addressGroups ==>
          && t.addressGroups[a].name == s.addressGroups[a].name
          && SetToward(e, h, w, s.addressGroups[a].name, s.addressGroups[a].addresses, t.addressGroups[a].addresses))
    && (forall a :: a in t.addressGroups && a !in s.addressGroups ==> New(s, a))
    && (forall a :: a in s.addressGroups && a !in t.addressGroups ==> !Referenced(s, a))
  }

  ghost predicate SetToward(e: Env, h: string -> string, w: World, name: string, now: set<string>, next: set<string>) {
    forall k, want :: name == SetName(h, k) && Wants(e, w, k, want) ==> Toward(want, now, next)
  }

  lemma OursStays(h: string -> string, s: Store, t: Store, e: Env, w: World, k: string, a: string)
    requires SetsToward(e, h, w, s, t) && Ours(h, s, k, a)
    ensures Ours(h, t, k, a)
  {
  }

  lemma FullKept(e: Env, h: string -> string, w: World, s: Store, t: Store, k: string, a: string)
    requires SetsToward(e, h, w, s, t) && Filled(e, h, w, s, k, a)
    ensures Filled(e, h, w, t, k, a)
  {
    OursStays(h, s, t, e, w, k, a);
    if a in t.addressGroups {
      var now, next := s.addressGroups[a].addresses, t.addressGroups[a].addresses;
      assert SetToward(e, h, w, s.addressGroups[a].name, now, next);
      FullStays(now, next);
    }
  }

  lemma FillingKept(e: Env, h: string -> string, w: World, s: Store, t: Store, k: string, a: string, want: set<string>,
                    read: set<string>)
    requires SetsToward(e, h, w, s, t) && Ours(h, s, k, a) && Wants(e, w, k, want) && FillingAt(s, a, want, read)
    ensures FillingAt(t, a, want, read)
    ensures a in t.addressGroups && want <= s.addressGroups[a].addresses ==> want <= t.addressGroups[a].addresses
  {
    if a in t.addressGroups {
      var now, next := s.addressGroups[a].addresses, t.addressGroups[a].addresses;
      assert a in s.addressGroups;
      assert SetToward(e, h, w, s.addressGroups[a].name, now, next);
      MidwayStays(want, read, now, next);
    }
  }
}
