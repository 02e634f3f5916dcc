/** One pass of the policy worker over one policy, as far as the store: peer
    sets first, then the group whose rules name them. */
module PolicyPass {
  import opened Wrappers
  import opened NetworkPolicy
  import opened RuleSets
  import opened NeutronStore
  import opened NeutronClient
  import opened RuleSync
  import opened PolicySync
  import opened Preparation

  /** At most one group to a policy. Of pod sets there may be two to a name. */
  ghost predicate UniqueNames(h: string -> string, s: Store) {
    forall x :: OneNamed(s, GroupName(h, x))
  }

  lemma GroupsKeepNames(h: string -> string, s: Store, t: Store)
    requires UniqueNames(h, s) && NamesKept(s, t)
    ensures UniqueNames(h, t)
  {
    forall x ensures OneNamed(t, GroupName(h, x)) { assert OneNamed(s, GroupName(h, x)); }
  }

  lemma SetsKeepNames(h: string -> string, s: Store, t: Store)
    requires UniqueNames(h, s) && t.groups == s.groups
    ensures UniqueNames(h, t)
  {
    forall x ensures OneNamed(t, GroupName(h, x)) { assert OneNamed(s, GroupName(h, x)); }
  }

  /** A second successful pass finds the group the first one found. */
  lemma SecondPass(e: Env, c: Cluster, h: string -> string, s: Store, t: Store, cache: map<string, string>,
                   key: string, rs: RuleSet, g: string)
    requires rs.rules != [] && UniqueNames(h, t)
    requires Prepared(e, c, h, s, cache, key, rs) && Prepared(e, c, h, t, cache, key, rs)
    requires g in t.groups && t.groups[g].name == GroupName(h, key)
    ensures g == cache[key] && RulesBefore(s, g) == Bodies(s.groups[g].rules)
  {
    assert OneNamed(t, GroupName(h, key));
  }

  /** Writes the group, once every peer set is ready. */
  method WriteGroup(n: Neutron, ghost e: Env, ghost c: Cluster, h: string -> string, key: string, rs: RuleSet,
                    peers: map<string, string>, ghost cache: map<string, string>, ghost prepared: bool)
    returns (r: Option<string>)
    requires n.Valid() && UniqueNames(h, n.store) && Lawful(rs) && rs.rules != []
    requires SetsReady(e, c, h, n.store, rs.peers, peers)
    requires prepared ==> Prepared(e, c, h, n.store, cache, key, rs)
    modifies n
    ensures n.Valid() && UniqueNames(h, n.store) && old(n.trace) <= n.trace
    ensures Converging(old(n.store), n.store, GroupName(h, key), Target(rs.rules, peers))
    ensures r.Some? ==> Prepared(e, c, h, n.store, cache[key := r.value], key, rs)
    ensures r.Some? && prepared ==> r.value == cache[key] && Complete(e, c, h, n.store, cache, key, rs)
    ensures prepared ==> Prepared(e, c, h, n.store, cache, key, rs)
    ensures prepared && Complete(e, c, h, old(n.store), cache, key, rs) ==> Complete(e, c, h, n.store, cache, key, rs)
    ensures old(n.Healthy()) ==> n.Healthy() && r.Some?
  {
    hide Prepared, Complete, ValidStore, Lawful, SetsReady, UniqueNames;
    ghost var s := n.store;
    WantedAre(e, c, h, s, rs, peers);
    r := EnsureRuleSet(n, GroupName(h, key), key, rs.rules, peers);
    GroupsKeepNames(h, s, n.store);
    if prepared {
      OwnWritingKeeps(e, c, h, s, n.store, cache, key, rs, peers);
    }
    if r.Some? {
      WritingPrepares(e, c, h, s, n.store, cache, key, rs, peers, r.value);
      if prepared {
        SecondPass(e, c, h, s, n.store, cache, key, rs, r.value);
        Unchanged(cache, key, e, c, h, s, rs);
      }
    }
  }

  lemma Unchanged(cache: map<string, string>, key: string, e: Env, c: Cluster, h: string -> string, s: Store,
                  rs: RuleSet)
    requires Prepared(e, c, h, s, cache, key, rs)
    ensures cache[key := cache[key]] == cache
  {
  }

  /** What the cache is to remember for a policy, if the whole pass succeeded:
      its group's id, or nothing when it has no rules. `before` says whether a
      pass has succeeded already since the last edit; whichever address groups
      it found then, this one may find others. */
  method SyncPolicyPeers(n: Neutron, e: Env, c: Cluster, h: string -> string, key: string, rs: RuleSet,
                         ghost cache: map<string, string>, ghost before: bool)
    returns (r: Option<string>)
    requires n.Valid() && StoredForms(n.store) && UniqueNames(h, n.store) && Injective(h) && Lawful(rs)
    requires before ==> Prepared(e, c, h, n.store, cache, key, rs)
    modifies n
    ensures n.Valid() && StoredForms(n.store) && UniqueNames(h, n.store) && old(n.trace) <= n.trace
    ensures PassTouches(e, c, h, old(n.store), n.store, key, rs.peers)
    ensures r.Some? ==> Prepared(e, c, h, n.store, cache[key := r.value], key, rs)
    ensures r.Some? && before ==> r.value == cache[key] && Complete(e, c, h, n.store, cache, key, rs)
    ensures before ==> Prepared(e, c, h, n.store, cache, key, rs)
    ensures before && Complete(e, c, h, old(n.store), cache, key, rs) ==> Complete(e, c, h, n.store, cache, key, rs)
    ensures old(n.Healthy()) ==> n.Healthy() && r.Some?
  {
    ghost var s := n.store;
    var found := SyncSets(n, e, c, h, rs.peers);
    ghost var t := n.store;
    SetsKeepNames(h, s, t);
    FillingTouches(e, c, h, s, t, key, rs.peers);
    if before {
      OwnFillingKeeps(e, c, h, s, t, cache, key, rs);
    }
    if found.None? {
      return None;
    }
    if rs.rules == [] {
      return Some("");
    }
    r := WriteGroup(n, e, c, h, key, rs, found.value, cache, before);
    WritingTouches(e, c, h, s, t, n.store, key, rs.peers, Target(rs.rules, found.value));
  }
}
