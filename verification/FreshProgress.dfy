/** The progress of the policies through fresh work: what a pass that ends
    establishes, and that no call, of its own worker or another, takes it back. */
module FreshProgress {
  import opened Wrappers
  import opened NetworkPolicy
  import opened Translate
  import opened NeutronStore
  import opened NeutronClient
  import opened RulePass
  import opened RuleSync
  import opened Sweeping
  import opened PolicySync
  import opened Preparation
  import opened PolicyFacts
  import opened Protocol
  import opened Interleaving
  import opened InterleavingSafety
  import opened FreshWork
  import opened FreshRules

  // ----- the policy's own calls -----

  /** The policy's group, prepared, and this task's own. */
  ghost predicate OwnWork(e: Env, h: string -> string, w: World, s: Store, cache: map<string, string>, q: Policy,
                          t: Task) {
    && q in w.policies && Translation(e, q).Ok?
    && (t.AddRule? || t.DropRule? || t.Remember?) && t.plan.key == q.Key() && t.plan.ruleSet == RulesNow(e, q)
    && RulesNow(e, q).rules != [] && AllMeant(e, h, w, s, RulesNow(e, q), t.rules)
    && Prepared(e, w.cluster, h, s, cache, q.Key(), RulesNow(e, q)) && cache[q.Key()] == t.group
  }

  /** What is kept of a prepared policy. */
  ghost predicate Keeps(e: Env, c: Cluster, h: string -> string, s: Store, s': Store, cache: map<string, string>,
                        q: Policy)
    requires Translation(e, q).Ok?
  {
    && Prepared(e, c, h, s', cache, q.Key(), RulesNow(e, q))
    && (Complete(e, c, h, s, cache, q.Key(), RulesNow(e, q)) ==> Complete(e, c, h, s', cache, q.Key(), RulesNow(e, q)))
  }

  lemma Same(e: Env, c: Cluster, h: string -> string, s: Store, cache: map<string, string>, q: Policy)
    requires Translation(e, q).Ok? && Prepared(e, c, h, s, cache, q.Key(), RulesNow(e, q))
    ensures Keeps(e, c, h, s, s, cache, q)
  {
    hide Prepared, Complete;
  }

  lemma OwnGroup(e: Env, h: string -> string, w: World, s: Store, cache: map<string, string>, q: Policy, t: Task)
    requires OwnWork(e, h, w, s, cache, q, t)
    ensures t.group in s.groups && BodiesReady(e, w.cluster, h, s, RulesNow(e, q), Bodies(s.groups[t.group].rules))
    ensures PolicyOf(s.groups[t.group].description) in {"", q.Key()}
  {
    hide BodiesReady, AllMeant;
  }

  lemma OwnAdded(e: Env, h: string -> string, w: World, s: Store, cache: map<string, string>, q: Policy, t: Task)
    requires Faithful(e) && WellFormed(w) && ValidStore(s) && OwnWork(e, h, w, s, cache, q, t) && t.AddRule?
    requires t.i < |t.rules|
    ensures Keeps(e, w.cluster, h, s, CreateRule(s, t.group, t.rules[t.i]).0, cache, q)
  {
    hide Faithful, WellFormed, Prepared, Complete, BodiesReady, AllRepresented, HoldsAlias, Standing, SomeMeant, Bodies,
         ValidStore, PolicyOf;
    var rs, b := RulesNow(e, q), t.rules[t.i];
    var (u, answer) := CreateRule(s, t.group, b);
    Same(e, w.cluster, h, s, cache, q);
    if answer.Done? {
      CreateRuleValid(s, t.group, b);
      OwnGroup(e, h, w, s, cache, q, t);
      OneStands(e, h, w, s, q, b);
      OneMoreBody(e, w.cluster, h, s, rs, Bodies(s.groups[t.group].rules), b);
      Rewritten(e, w.cluster, h, s, u, cache, q.Key(), rs);
    }
  }

  /** Every wanted rule is in the group, so its address group is there. */
  lemma WantedThere(e: Env, h: string -> string, w: World, s: Store, q: Policy, g: string, want: seq<NRule>)
    requires Faithful(e) && WellFormed(w) && ValidStore(s) && q in w.policies && Translation(e, q).Ok? && g in s.groups
    requires AllMeant(e, h, w, s, RulesNow(e, q), want) && SetOf(want) <= Bodies(s.groups[g].rules)
    ensures AllRepresented(e, w.cluster, h, s, RulesNow(e, q), SetOf(want))
  {
    hide Faithful, WellFormed, AllMeant, AllRepresented, Standing, Bodies, ValidStore;
    BodiesReferenced(s, g);
    forall b | b in want ensures b.addressGroup == "" || b.addressGroup in s.addressGroups { assert b in SetOf(want); }
    AllStand(e, h, w, s, q, want, SetOf(want));
  }

  lemma DropTakesOne(s: Store, g: string, have: seq<StoredRule>, want: seq<NRule>, j: nat)
    requires ValidStore(s) && Deleting(s, g, have, want, j) && j < |have| && g in s.groups
    ensures var u := DeleteRule(s, g, have[j].id).0;
            && g in u.groups && u.addressGroups == s.addressGroups && u.groups[g].name == s.groups[g].name
            && u.groups[g].description == s.groups[g].description
            && Bodies(u.groups[g].rules) == Bodies(s.groups[g].rules) - {have[j].body}
  {
    hide CreateAll, Removed, Without, ValidStore;
    DeleteStep(s, g, have, j);
  }

  lemma OwnDropped(e: Env, h: string -> string, w: World, s: Store, cache: map<string, string>, q: Policy, t: Task)
    requires Faithful(e) && WellFormed(w) && ValidStore(s) && OwnWork(e, h, w, s, cache, q, t)
    requires t.DropRule? && t.i < |t.have| && t.have[t.i].body !in t.rules && Deleting(s, t.group, t.have, t.rules, t.i)
    requires forall b :: b in Bodies(t.have) ==> NamesRemote(b)
    ensures Keeps(e, w.cluster, h, s, DeleteRule(s, t.group, t.have[t.i].id).0, cache, q)
  {
    hide Faithful, Prepared, Complete, BodiesReady, AllRepresented, Standing, AllMeant, ValidStore, PolicyOf, Deleting,
         DeleteRule, Lawful;
    var rs := RulesNow(e, q);
    PolicyIsLawful(e, q);
    hide WellFormed;
    WantNames(e, h, w, s, rs, t.rules);
    OwnGroup(e, h, w, s, cache, q, t);
    DeletingHolds(s, t.group, t.have, t.rules, t.i);
    WantedThere(e, h, w, s, q, t.group, t.rules);
    DropTakesOne(s, t.group, t.have, t.rules, t.i);
    OneBodyLess(e, w.cluster, h, s, rs, Bodies(s.groups[t.group].rules), t.have[t.i].body, SetOf(t.rules));
    Rewritten(e, w.cluster, h, s, DeleteRule(s, t.group, t.have[t.i].id).0, cache, q.Key(), rs);
  }

  lemma OwnCorrected(e: Env, h: string -> string, w: World, s: Store, cache: map<string, string>, q: Policy, g: string)
    requires Translation(e, q).Ok? && RulesNow(e, q).rules != []
    requires Prepared(e, w.cluster, h, s, cache, q.Key(), RulesNow(e, q)) && cache[q.Key()] == g
    ensures Keeps(e, w.cluster, h, s, Describe(s, g, Describing(q.Key())).0, cache, q)
  {
    var u := Describe(s, g, Describing(q.Key())).0;
    PolicyOfDescribing(q.Key());
    hide BodiesReady, AllRepresented, PolicyOf, Describing;
    Rewritten(e, w.cluster, h, s, u, cache, q.Key(), RulesNow(e, q));
  }

  // ----- the end of a pass -----

  lemma PassedRulesThere(e: Env, h: string -> string, w: World, s: Store, q: Policy, g: string, have: seq<StoredRule>,
                         want: seq<NRule>)
    requires WellFormed(w) && ValidStore(s) && q in w.policies && Translation(e, q).Ok? && g in s.groups
    requires AllMeant(e, h, w, s, RulesNow(e, q), want) && PassedExactly(s, g, have, want)
    ensures forall b :: b in want ==> NamesRemote(b) && (b.prefix == "" || b.addressGroup == "")
    ensures Distinct(Bodies(have))
    ensures forall b :: b in want ==> b.addressGroup == "" || b.addressGroup in s.addressGroups
  {
    hide AllMeant, ValidStore, Pass, Bodies, Lawful;
    PolicyIsLawful(e, q);
    hide WellFormed;
    WantNames(e, h, w, s, RulesNow(e, q), want);
    DistinctBodies(have);
    PassPrepares(Bodies(have), want);
    BodiesReferenced(s, g);
  }

  /** A pass that ends has prepared its policy; and completed it, if its group
      only held rules naming remotes when it was read. */
  lemma PassEnds(e: Env, h: string -> string, w: World, s: Store, cache: map<string, string>, q: Policy, g: string,
                 have: seq<StoredRule>, want: seq<NRule>)
    requires Faithful(e) && WellFormed(w) && Injective(h) && ValidStore(s) && Honest(h, s)
    requires q in w.policies && Translation(e, q).Ok? && RulesNow(e, q).rules != []
    requires g in s.groups && s.groups[g].name == GroupName(h, q.Key())
    requires AllMeant(e, h, w, s, RulesNow(e, q), want) && PassedExactly(s, g, have, want)
    ensures Prepared(e, w.cluster, h, s, cache[q.Key() := g], q.Key(), RulesNow(e, q))
    ensures (forall b :: b in Bodies(have) ==> NamesRemote(b)) ==>
              Complete(e, w.cluster, h, s, cache[q.Key() := g], q.Key(), RulesNow(e, q))
  {
    var rs := RulesNow(e, q);
    hide Faithful, WellFormed, ValidStore, AllMeant, Pass, Bodies, Distinct, BodiesReady, AllRepresented, Standing;
    PassedRulesThere(e, h, w, s, q, g, have, want);
    AllStand(e, h, w, s, q, want, SetOf(want));
    PassIsReady(e, w.cluster, h, s, rs, Bodies(have), want);
    DescribedHonestly(h, s, q.Key(), g);
    hide PolicyOf;
    assert GroupReady(e, w.cluster, h, s, q.Key(), rs, g);
  }

  lemma DescribedHonestly(h: string -> string, s: Store, key: string, g: string)
    requires Honest(h, s) && Injective(h) && g in s.groups && s.groups[g].name == GroupName(h, key)
    ensures PolicyOf(s.groups[g].description) in {"", key}
  {
    hide PolicyOf;
    PolicyNamed(h, key);
    if PolicyOf(s.groups[g].description) != "" {
      NamesApart(h, key, PolicyOf(s.groups[g].description));
    }
  }
}
