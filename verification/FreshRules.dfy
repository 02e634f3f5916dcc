/** What fresh work does to the groups of policies already passed over: nothing
    that leaves them less than they were. */
module FreshRules {
  import opened Wrappers
  import opened NetworkPolicy
  import opened Translate
  import opened RuleSets
  import opened NeutronStore
  import opened NeutronClient
  import opened RulePass
  import opened NeutronMeaning
  import opened Sweeping
  import opened PolicySync
  import opened Preparation
  import opened Protocol
  import opened Interleaving
  import opened InterleavingSafety
  import opened Freshness
  import opened FreshWork

  function RulesNow(e: Env, q: Policy): RuleSet
    requires Translation(e, q).Ok?
  {
    RulesOfPolicy(Translation(e, q).value)
  }

  lemma PlanIs(e: Env, w: World, p: Plan, q: Policy)
    requires WellFormed(w) && PlanNow(e, w, p) && q in w.policies && p.key == q.Key()
    ensures Translation(e, q).Ok? && p.ruleSet == RulesNow(e, q)
  {
    var q' :| q' in w.policies && PlanOf(e, q', p);
    KeyTellsPoliciesApart(w, q, q');
  }

  // ----- meant rules that are there stand -----

  lemma MeantStands(e: Env, h: string -> string, w: World, s: Store, q: Policy, r: SGRule, b: NRule)
    requires Faithful(e) && WellFormed(w) && q in w.policies && Translation(e, q).Ok?
    requires Meant(e, h, w, s, RulesNow(e, q), r, b) && (b.addressGroup == "" || b.addressGroup in s.addressGroups)
    ensures StandsIn(e, w.cluster, h, s, RulesNow(e, q).peers, r, b)
  {
    if r.remoteCIDR == "" {
      var k, sel := r.remoteAddressGroup, RulesNow(e, q).peers[r.remoteAddressGroup];
      var now := s.addressGroups[b.addressGroup].addresses;
      assert WantsOf(e, w, q, k, WantedOf(e, w.cluster, sel));
      assert Wants(e, w, k, WantedOf(e, w.cluster, sel));
      hide Faithful, WellFormed, Wants, WantedOf, WantsOf, Holding;
      WantsUnique(e, w, k, now, WantedOf(e, w.cluster, sel));
      HoldingIs(e, w.cluster, now, sel);
    }
  }

  lemma MeantNames(e: Env, h: string -> string, w: World, s: Store, rs: RuleSet, r: SGRule, b: NRule)
    requires Lawful(rs) && r in rs.rules && Meant(e, h, w, s, rs, r, b)
    ensures NamesRemote(b) && (b.prefix == "" || b.addressGroup == "") && (b.addressGroup != "" <==> r.remoteCIDR == "")
  {
    assert HasRemote(r);
  }

  lemma WantNames(e: Env, h: string -> string, w: World, s: Store, rs: RuleSet, want: seq<NRule>)
    requires Lawful(rs) && AllMeant(e, h, w, s, rs, want)
    ensures forall b :: b in want ==> NamesRemote(b) && (b.prefix == "" || b.addressGroup == "")
  {
    hide Lawful, Meant;
    forall b | b in want ensures NamesRemote(b) && (b.prefix == "" || b.addressGroup == "") {
      assert SomeMeant(e, h, w, s, rs, b);
      var r :| r in rs.rules && Meant(e, h, w, s, rs, r, b);
      MeantNames(e, h, w, s, rs, r, b);
    }
  }

  /** A wanted rule whose address group is there. */
  lemma OneStands(e: Env, h: string -> string, w: World, s: Store, q: Policy, b: NRule)
    requires Faithful(e) && WellFormed(w) && q in w.policies && Translation(e, q).Ok?
    requires SomeMeant(e, h, w, s, RulesNow(e, q), b) && (b.addressGroup == "" || b.addressGroup in s.addressGroups)
    ensures Standing(e, w.cluster, h, s, RulesNow(e, q), b)
  {
    hide Faithful, WellFormed, Meant, StandsIn;
    var r :| r in RulesNow(e, q).rules && Meant(e, h, w, s, RulesNow(e, q), r, b);
    MeantStands(e, h, w, s, q, r, b);
  }

  /** With every address group there, the wanted rules represent all. */
  lemma AllStand(e: Env, h: string -> string, w: World, s: Store, q: Policy, want: seq<NRule>, bs: set<NRule>)
    requires Faithful(e) && WellFormed(w) && q in w.policies && Translation(e, q).Ok?
    requires AllMeant(e, h, w, s, RulesNow(e, q), want) && SetOf(want) <= bs
    requires forall b :: b in want ==> b.addressGroup == "" || b.addressGroup in s.addressGroups
    ensures forall b :: b in want ==> Standing(e, w.cluster, h, s, RulesNow(e, q), b)
    ensures AllRepresented(e, w.cluster, h, s, RulesNow(e, q), bs)
  {
    hide Faithful, WellFormed, Meant, StandsIn;
    var rs := RulesNow(e, q);
    forall b | b in want ensures Standing(e, w.cluster, h, s, rs, b) {
      OneStands(e, h, w, s, q, b);
    }
    forall r | r in rs.rules ensures Represented(e, w.cluster, h, s, rs, r, bs) {
      assert MeantBy(e, h, w, s, rs, r, want);
      var b :| b in want && Meant(e, h, w, s, rs, r, b);
      MeantStands(e, h, w, s, q, r, b);
      assert b in SetOf(want);
    }
  }

  lemma BodiesReferenced(s: Store, g: string)
    requires ValidStore(s) && g in s.groups
    ensures forall b :: b in Bodies(s.groups[g].rules) ==> b.addressGroup == "" || b.addressGroup in s.addressGroups
  {
    forall b | b in Bodies(s.groups[g].rules) ensures b.addressGroup == "" || b.addressGroup in s.addressGroups {
      var i := IndexOfBody(s.groups[g].rules, b);
    }
  }

  // ----- calls that leave the group alone -----

  lemma StandingWants(e: Env, h: string -> string, w: World, s: Store, q: Policy, b: NRule) returns (k: string)
    requires q in w.policies && Translation(e, q).Ok? && Standing(e, w.cluster, h, s, RulesNow(e, q), b)
    requires b.addressGroup in s.addressGroups && b.addressGroup != ""
    ensures s.addressGroups[b.addressGroup].name == SetName(h, k)
    ensures Wants(e, w, k, s.addressGroups[b.addressGroup].addresses)
  {
    hide Holding, WantedOf, SetName, Translation, RulesOfPolicy;
    var rs := RulesNow(e, q);
    var r :| r in rs.rules && StandsIn(e, w.cluster, h, s, rs.peers, r, b);
    k := r.remoteAddressGroup;
    var now := s.addressGroups[b.addressGroup].addresses;
    HoldingIs(e, w.cluster, now, rs.peers[k]);
    assert WantsOf(e, w, q, k, now);
  }

  /** A pod set a ready group names is left as it is. */
  lemma NamedSetStays(e: Env, h: string -> string, w: World, s: Store, t: Store, q: Policy, g: string, b: NRule)
    requires ValidStore(s) && q in w.policies && Translation(e, q).Ok?
    requires SetsToward(e, h, w, s, t) && g in s.groups && b in Bodies(s.groups[g].rules)
    requires Standing(e, w.cluster, h, s, RulesNow(e, q), b) && b.addressGroup in s.addressGroups
    ensures b.addressGroup in t.addressGroups && t.addressGroups[b.addressGroup] == s.addressGroups[b.addressGroup]
  {
    assert b.addressGroup != "";
    hide ValidStore, Bodies, Standing, SetName, Wants, Toward, NeutronStore.Named, Translation, RulesOfPolicy;
    RuleNames(s.groups[g].rules, b);
    assert Referenced(s, b.addressGroup);
    hide Referenced;
    var k := StandingWants(e, h, w, s, q, b);
    var now, next := s.addressGroups[b.addressGroup].addresses, t.addressGroups[b.addressGroup].addresses;
    assert SetToward(e, h, w, s.addressGroups[b.addressGroup].name, now, next);
    FullStays(now, next);
  }

  lemma LeftAlone(e: Env, h: string -> string, w: World, s: Store, t: Store, cache: map<string, string>,
                  cache': map<string, string>, q: Policy)
    requires Faithful(e) && WellFormed(w) && ValidStore(s) && q in w.policies && Translation(e, q).Ok?
    requires SetsToward(e, h, w, s, t) && Prepared(e, w.cluster, h, s, cache, q.Key(), RulesNow(e, q))
    requires cache[q.Key()] in s.groups ==>
               cache[q.Key()] in t.groups && t.groups[cache[q.Key()]] == s.groups[cache[q.Key()]]
    requires q.Key() in cache' && cache'[q.Key()] == cache[q.Key()]
    ensures Prepared(e, w.cluster, h, t, cache', q.Key(), RulesNow(e, q))
    ensures Complete(e, w.cluster, h, s, cache, q.Key(), RulesNow(e, q)) ==>
              Complete(e, w.cluster, h, t, cache', q.Key(), RulesNow(e, q))
  {
    var g, rs := cache[q.Key()], RulesNow(e, q);
    assert "" !in s.groups && "" !in s.addressGroups;
    hide Faithful, WellFormed, ValidStore, SetsToward, Standing, Complete;
    if g in s.groups {
      assert GroupReady(e, w.cluster, h, s, q.Key(), rs, g);
      forall b | b in Bodies(s.groups[g].rules) && b.addressGroup in s.addressGroups
        ensures b.addressGroup in t.addressGroups && t.addressGroups[b.addressGroup] == s.addressGroups[b.addressGroup]
      {
        NamedSetStays(e, h, w, s, t, q, g, b);
      }
    }
    PreparedKept(e, w.cluster, h, s, t, cache, cache', q.Key(), rs);
  }

  // ----- calls that write the group -----

  /** The same store but for the rules, and perhaps the description, of a group. */
  lemma Rewritten(e: Env, c: Cluster, h: string -> string, s: Store, t: Store, cache: map<string, string>, key: string,
                  rs: RuleSet)
    requires Prepared(e, c, h, s, cache, key, rs) && rs.rules != [] && t.addressGroups == s.addressGroups
    requires var g := cache[key]; g in t.groups && t.groups[g].name == s.groups[g].name
                                  && PolicyOf(t.groups[g].description) in {"", key}
    requires BodiesReady(e, c, h, s, rs, Bodies(t.groups[cache[key]].rules))
    requires AllRepresented(e, c, h, s, rs, Bodies(s.groups[cache[key]].rules)) ==>
               AllRepresented(e, c, h, s, rs, Bodies(t.groups[cache[key]].rules))
    ensures Prepared(e, c, h, t, cache, key, rs)
    ensures Complete(e, c, h, s, cache, key, rs) ==> Complete(e, c, h, t, cache, key, rs)
  {
    var bs := Bodies(t.groups[cache[key]].rules);
    hide BodiesReady, AllRepresented, PolicyOf;
    SameSetsAre(s, t, bs);
    BodiesKept(e, c, h, s, t, bs, rs);
  }

  lemma OneMoreBody(e: Env, c: Cluster, h: string -> string, s: Store, rs: RuleSet, bs: set<NRule>, b: NRule)
    requires BodiesReady(e, c, h, s, rs, bs) && Standing(e, c, h, s, rs, b)
    ensures BodiesReady(e, c, h, s, rs, bs + {b})
    ensures AllRepresented(e, c, h, s, rs, bs) ==> AllRepresented(e, c, h, s, rs, bs + {b})
  {
    hide Standing, StandsIn;
    forall r | Represented(e, c, h, s, rs, r, bs) ensures Represented(e, c, h, s, rs, r, bs + {b}) {
      var x :| x in bs && StandsIn(e, c, h, s, rs.peers, r, x);
      assert x in bs + {b};
    }
  }

  lemma OneBodyLess(e: Env, c: Cluster, h: string -> string, s: Store, rs: RuleSet, bs: set<NRule>, b: NRule,
                    want: set<NRule>)
    requires BodiesReady(e, c, h, s, rs, bs) && want <= bs && b !in want && AllRepresented(e, c, h, s, rs, want)
    ensures BodiesReady(e, c, h, s, rs, bs - {b}) && AllRepresented(e, c, h, s, rs, bs - {b})
  {
    hide Standing, StandsIn;
    forall r | r in rs.rules ensures Represented(e, c, h, s, rs, r, bs - {b}) {
      assert Represented(e, c, h, s, rs, r, want);
      var x :| x in want && StandsIn(e, c, h, s, rs.peers, r, x);
      assert x in bs - {b};
    }
  }

  /** From rules that all name a remote, every wanted one is there by the time
      the first is deleted. */
  lemma DeletingHolds(s: Store, g: string, have: seq<StoredRule>, want: seq<NRule>, j: nat)
    requires Deleting(s, g, have, want, j) && g in s.groups
    requires (forall b :: b in Bodies(have) ==> NamesRemote(b)) && forall b :: b in want ==> NamesRemote(b)
    ensures SetOf(want) <= Bodies(s.groups[g].rules)
  {
    DistinctBodies(have);
    CreateAllExact(Bodies(have), want);
    RemovedAre(have, want, j);
    forall b | b in want ensures b in CreateAll(Bodies(have), want) {
      if Clash(Bodies(have), b) {
        var x :| x in Bodies(have) && Alias(x, b);
        RemotesTellApart(x, b);
      }
    }
  }
}
