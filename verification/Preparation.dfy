/** What the policy worker leaves behind for one policy, and that nothing but an
    edit takes it away again. */
module Preparation {
  import opened Wrappers
  import opened NetworkPolicy
  import opened Translate
  import opened Peers
  import opened RuleSets
  import opened NeutronStore
  import opened NeutronClient
  import opened RulePass
  import opened RuleSync
  import opened NeutronMeaning
  import opened Sweeping
  import opened PolicySync

  /** Every rule of the set names a remote, and the pod sets are exactly the
      ones the rules name. */
  ghost predicate Lawful(rs: RuleSet) {
    && (forall r :: r in rs.rules ==> HasRemote(r) && (r.remoteCIDR == "" ==> r.remoteAddressGroup in rs.peers))
    && (forall k :: k in rs.peers ==> exists r :: r in rs.rules && r.remoteCIDR == "" && r.remoteAddressGroup == k)
  }

  /** As NeutronMeaning.Stands, and the address group goes by the set's name. */
  ghost predicate StandsIn(e: Env, c: Cluster, h: string -> string, s: Store, sets: map<string, PeerSelector>,
                           r: SGRule, b: NRule) {
    && Stands(e, c, s, sets, r, b)
    && (r.remoteCIDR == "" ==> s.addressGroups[b.addressGroup].name == SetName(h, r.remoteAddressGroup))
  }

  ghost predicate Standing(e: Env, c: Cluster, h: string -> string, s: Store, rs: RuleSet, b: NRule) {
    exists r :: r in rs.rules && StandsIn(e, c, h, s, rs.peers, r, b)
  }

  ghost predicate Represented(e: Env, c: Cluster, h: string -> string, s: Store, rs: RuleSet, r: SGRule,
                              bs: set<NRule>) {
    exists b :: b in bs && StandsIn(e, c, h, s, rs.peers, r, b)
  }

  /** No rule that is not wanted, and every wanted rule that names a pod set. */
  ghost predicate BodiesReady(e: Env, c: Cluster, h: string -> string, s: Store, rs: RuleSet, bs: set<NRule>) {
    && (forall b :: b in bs ==> Standing(e, c, h, s, rs, b))
    && forall r :: r in rs.rules && r.remoteCIDR == "" ==> Represented(e, c, h, s, rs, r, bs)
  }

  /** The policy's group, by its name and description, with its rules ready. */
  ghost predicate GroupReady(e: Env, c: Cluster, h: string -> string, s: Store, key: string, rs: RuleSet, g: string) {
    && g in s.groups
    && s.groups[g].name == GroupName(h, key)
    && PolicyOf(s.groups[g].description) in {"", key}
    && BodiesReady(e, c, h, s, rs, Bodies(s.groups[g].rules))
  }

  /** What one successful pass over a policy establishes. It does not say which
      address group serves a pod set: where a race made two, either may, and the
      next pass may take the other. */
  ghost predicate Prepared(e: Env, c: Cluster, h: string -> string, s: Store, cache: map<string, string>,
                           key: string, rs: RuleSet) {
    key in cache && if rs.rules == [] then cache[key] == "" else GroupReady(e, c, h, s, key, rs, cache[key])
  }

  ghost predicate AllRepresented(e: Env, c: Cluster, h: string -> string, s: Store, rs: RuleSet, bs: set<NRule>) {
    forall r :: r in rs.rules ==> Represented(e, c, h, s, rs, r, bs)
  }

  /** And what a second one adds: every wanted rule is there. */
  ghost predicate Complete(e: Env, c: Cluster, h: string -> string, s: Store, cache: map<string, string>, key: string,
                           rs: RuleSet) {
    rs.rules != [] ==>
      key in cache && cache[key] in s.groups && AllRepresented(e, c, h, s, rs, Bodies(s.groups[cache[key]].rules))
  }

  // ----- what wanted rules look like -----

  lemma {:induction false} AllSent(rules: seq<SGRule>, peers: map<string, string>)
    requires forall r :: r in rules ==> Sent(r, peers).Some?
    ensures WantOf(rules, peers).Some?
  {
    if rules != [] {
      assert rules[|rules| - 1] in rules;
      AllSent(rules[..|rules| - 1], peers);
    }
  }

  lemma WantedAre(e: Env, c: Cluster, h: string -> string, s: Store, rs: RuleSet, peers: map<string, string>)
    requires Lawful(rs) && ValidStore(s) && SetsReady(e, c, h, s, rs.peers, peers)
    ensures WantOf(rs.rules, peers).Some? && Resolvable(s, WantOf(rs.rules, peers).value)
    ensures forall w :: w in Target(rs.rules, peers) ==>
              NamesRemote(w) && (w.prefix == "" || w.addressGroup == "") && Standing(e, c, h, s, rs, w)
    ensures AllRepresented(e, c, h, s, rs, SetOf(Target(rs.rules, peers)))
  {
    hide ValidStore, SetsReady, SetReady, Holding, Lawful, StandsIn, WantOf, Sent;
    forall r | r in rs.rules ensures Sent(r, peers).Some? {
      SentStands(e, c, h, s, rs, peers, r);
    }
    AllSent(rs.rules, peers);
    WantOfIs(rs.rules, peers);
    var want := WantOf(rs.rules, peers).value;
    forall i | 0 <= i < |want|
      ensures NamesRemote(want[i]) && (want[i].prefix == "" || want[i].addressGroup == "")
      ensures want[i].addressGroup == "" || want[i].addressGroup in s.addressGroups
      ensures rs.rules[i] in rs.rules && StandsIn(e, c, h, s, rs.peers, rs.rules[i], want[i])
    {
      assert rs.rules[i] in rs.rules && Sent(rs.rules[i], peers) == Some(want[i]);
      SentStands(e, c, h, s, rs, peers, rs.rules[i]);
    }
    forall r | r in rs.rules ensures Represented(e, c, h, s, rs, r, SetOf(want)) {
      var i :| 0 <= i < |rs.rules| && rs.rules[i] == r;
      assert want[i] in SetOf(want) && StandsIn(e, c, h, s, rs.peers, r, want[i]);
    }
  }

  lemma SentStands(e: Env, c: Cluster, h: string -> string, s: Store, rs: RuleSet, peers: map<string, string>,
                   r: SGRule)
    requires Lawful(rs) && ValidStore(s) && SetsReady(e, c, h, s, rs.peers, peers) && r in rs.rules
    ensures Sent(r, peers).Some?
    ensures var w := Sent(r, peers).value;
            && StandsIn(e, c, h, s, rs.peers, r, w) && NamesRemote(w) && (w.prefix == "" || w.addressGroup == "")
            && (w.addressGroup == "" || w.addressGroup in s.addressGroups)
  {
    assert "" !in s.addressGroups;
    hide ValidStore, Holding;
    assert HasRemote(r);
    if r.remoteCIDR == "" {
      var k := r.remoteAddressGroup;
      assert k in rs.peers && SetReady(e, c, h, s, k, rs.peers[k], peers[k]);
    }
  }

  lemma IndexOfBody(rules: seq<StoredRule>, b: NRule) returns (i: nat)
    requires b in Bodies(rules)
    ensures i < |rules| && rules[i].body == b
  {
    var x :| x in rules && x.body == b;
    i :| 0 <= i < |rules| && rules[i] == x;
  }

  lemma DistinctBodies(rules: seq<StoredRule>)
    requires NoAliases(rules)
    ensures Distinct(Bodies(rules))
  {
    forall a, b | a in Bodies(rules) && b in Bodies(rules) && a != b ensures !Alias(a, b) {
      var i := IndexOfBody(rules, a);
      var j := IndexOfBody(rules, b);
      if i < j { assert !Alias(rules[i].body, rules[j].body); } else { assert !Alias(rules[j].body, rules[i].body); }
    }
  }

  lemma DefaultsDistinct()
    ensures Distinct(Defaults)
  {
    assert DefaultEgress("IPv4").etherType != DefaultEgress("IPv6").etherType;
  }

  /** One pass leaves only wanted rules, and loses none that names a peer set;
      from such a group the next pass leaves all of them. */
  lemma PassPrepares(have: set<NRule>, want: seq<NRule>)
    requires Distinct(have)
    requires forall w :: w in want ==> NamesRemote(w) && (w.prefix == "" || w.addressGroup == "")
    ensures Pass(have, want) <= SetOf(want)
    ensures forall w :: w in want && w.addressGroup != "" ==> w in Pass(have, want)
    ensures have <= SetOf(want) ==> Pass(have, want) == SetOf(want)
  {
    PassExact(have, want);
    forall w | w in want && w.addressGroup != "" ensures w !in Lost(have, want) {
      forall h | h in Stale(have, want) ensures !Alias(h, w) {
        AliasIs(h, w);
      }
    }
  }

  // ----- frames -----

  /** The address groups some rules name are as they were. */
  ghost predicate SameSets(s: Store, t: Store, bs: set<NRule>) {
    forall b :: b in bs && b.addressGroup in s.addressGroups ==>
      b.addressGroup in t.addressGroups && t.addressGroups[b.addressGroup] == s.addressGroups[b.addressGroup]
  }

  /** The store as far as one prepared policy can tell. */
  ghost predicate SameFor(s: Store, t: Store, g: string) {
    g in s.groups ==> g in t.groups && t.groups[g] == s.groups[g] && SameSets(s, t, Bodies(s.groups[g].rules))
  }

  lemma StandsKept(e: Env, c: Cluster, h: string -> string, s: Store, t: Store, bs: set<NRule>,
                   sets: map<string, PeerSelector>, r: SGRule, b: NRule)
    requires SameSets(s, t, bs) && b in bs && StandsIn(e, c, h, s, sets, r, b)
    ensures StandsIn(e, c, h, t, sets, r, b)
  {
  }

  lemma RepresentedKept(e: Env, c: Cluster, h: string -> string, s: Store, t: Store, bs: set<NRule>, rs: RuleSet,
                        r: SGRule)
    requires SameSets(s, t, bs) && Represented(e, c, h, s, rs, r, bs)
    ensures Represented(e, c, h, t, rs, r, bs)
  {
    var b :| b in bs && StandsIn(e, c, h, s, rs.peers, r, b);
    StandsKept(e, c, h, s, t, bs, rs.peers, r, b);
  }

  lemma StandingKept(e: Env, c: Cluster, h: string -> string, s: Store, t: Store, bs: set<NRule>, rs: RuleSet, b: NRule)
    requires SameSets(s, t, bs) && b in bs && Standing(e, c, h, s, rs, b)
    ensures Standing(e, c, h, t, rs, b)
  {
    var r :| r in rs.rules && StandsIn(e, c, h, s, rs.peers, r, b);
    StandsKept(e, c, h, s, t, bs, rs.peers, r, b);
  }

  lemma BodiesKept(e: Env, c: Cluster, h: string -> string, s: Store, t: Store, bs: set<NRule>, rs: RuleSet)
    requires SameSets(s, t, bs)
    ensures BodiesReady(e, c, h, s, rs, bs) ==> BodiesReady(e, c, h, t, rs, bs)
    ensures AllRepresented(e, c, h, s, rs, bs) ==> AllRepresented(e, c, h, t, rs, bs)
  {
    hide Standing, Represented, SameSets;
    forall b | b in bs && Standing(e, c, h, s, rs, b) ensures Standing(e, c, h, t, rs, b) {
      StandingKept(e, c, h, s, t, bs, rs, b);
    }
    forall r | r in rs.rules && Represented(e, c, h, s, rs, r, bs) ensures Represented(e, c, h, t, rs, r, bs) {
      RepresentedKept(e, c, h, s, t, bs, rs, r);
    }
  }

  lemma PreparedKept(e: Env, c: Cluster, h: string -> string, s: Store, t: Store, cache: map<string, string>,
                     cache': map<string, string>, key: string, rs: RuleSet)
    requires Prepared(e, c, h, s, cache, key, rs) && SameFor(s, t, cache[key])
    requires key in cache' && cache'[key] == cache[key]
    ensures Prepared(e, c, h, t, cache', key, rs)
    ensures Complete(e, c, h, s, cache, key, rs) ==> Complete(e, c, h, t, cache', key, rs)
  {
    hide BodiesReady, AllRepresented, SameSets;
    if rs.rules != [] {
      BodiesKept(e, c, h, s, t, Bodies(s.groups[cache[key]].rules), rs);
    }
  }

  /** What a pass over one policy may touch: its own group, and peer sets of
      its own keys that were not as wanted. */
  ghost predicate PassTouches(e: Env, c: Cluster, h: string -> string, s: Store, t: Store,
                              key: string, sets: map<string, PeerSelector>) {
    && t.ports == s.ports && Minted(s, t)
    && (forall a :: a in s.addressGroups && AsWanted(e, c, h, sets, s.addressGroups[a]) ==>
          a in t.addressGroups && t.addressGroups[a] == s.addressGroups[a])
    && (forall g :: g in s.groups ==>
          && g in t.groups && t.groups[g].name == s.groups[g].name
          && (s.groups[g].name != GroupName(h, key) ==> t.groups[g] == s.groups[g]))
    && (forall g :: g in t.groups && g !in s.groups ==> t.groups[g].name == GroupName(h, key))
  }

  lemma FillingTouches(e: Env, c: Cluster, h: string -> string, s: Store, t: Store,
                       key: string, sets: map<string, PeerSelector>)
    requires SetsFilled(e, c, h, s, t, sets)
    ensures PassTouches(e, c, h, s, t, key, sets)
  {
  }

  lemma WritingTouches(e: Env, c: Cluster, h: string -> string, s: Store, t: Store, u: Store,
                       key: string, sets: map<string, PeerSelector>, want: seq<NRule>)
    requires SetsFilled(e, c, h, s, t, sets) && Converging(t, u, GroupName(h, key), want)
    ensures PassTouches(e, c, h, s, u, key, sets)
  {
  }

  /** Pod sets of one key list the same addresses, whichever policy asks. */
  ghost predicate Agree(e: Env, c: Cluster, a: map<string, PeerSelector>, b: map<string, PeerSelector>) {
    forall k, addr :: k in a && k in b ==> (Listed(e, c, a[k], addr) <==> Listed(e, c, b[k], addr))
  }

  /** A pass over another policy leaves a prepared one as it was. */
  lemma OtherPassKeeps(e: Env, c: Cluster, h: string -> string, s: Store, t: Store, cache: map<string, string>,
                       cache': map<string, string>, other: string, sets: map<string, PeerSelector>,
                       key: string, rs: RuleSet)
    requires Injective(h) && other != key && PassTouches(e, c, h, s, t, other, sets)
    requires Agree(e, c, rs.peers, sets) && "" !in s.groups && "" !in s.addressGroups
    requires Prepared(e, c, h, s, cache, key, rs)
    requires key in cache' && cache'[key] == cache[key]
    ensures Prepared(e, c, h, t, cache', key, rs)
    ensures Complete(e, c, h, s, cache, key, rs) ==> Complete(e, c, h, t, cache', key, rs)
  {
    NamesApart(h, other, key);
    var g := cache[key];
    if g in s.groups {
      assert GroupReady(e, c, h, s, key, rs, g);
      hide Prepared, Complete, AsWanted, Standing;
      forall b | b in Bodies(s.groups[g].rules) && b.addressGroup in s.addressGroups
        ensures AsWanted(e, c, h, sets, s.addressGroups[b.addressGroup])
      {
        StandingIsWanted(e, c, h, s, rs, sets, b);
      }
    }
    PreparedKept(e, c, h, s, t, cache, cache', key, rs);
  }

  /** The address group of a rule that stands is as any pass wants it. */
  lemma StandingIsWanted(e: Env, c: Cluster, h: string -> string, s: Store, rs: RuleSet,
                         sets: map<string, PeerSelector>, b: NRule)
    requires Injective(h) && Standing(e, c, h, s, rs, b) && Agree(e, c, rs.peers, sets)
    requires b.addressGroup in s.addressGroups
    requires "" !in s.addressGroups
    ensures AsWanted(e, c, h, sets, s.addressGroups[b.addressGroup])
  {
    var r :| r in rs.rules && StandsIn(e, c, h, s, rs.peers, r, b);
    forall k | k in sets && s.addressGroups[b.addressGroup].name == SetName(h, k)
      ensures Holding(e, c, s.addressGroups[b.addressGroup].addresses, sets[k])
    {
      NamesApart(h, k, r.remoteAddressGroup);
    }
  }

  // ----- a pass over the policy itself -----

  /** Its rules keep standing while its pod sets are being filled again. */
  lemma OwnFillingKeeps(e: Env, c: Cluster, h: string -> string, s: Store, t: Store, cache: map<string, string>,
                        key: string, rs: RuleSet)
    requires Injective(h) && ValidStore(s) && Prepared(e, c, h, s, cache, key, rs)
    requires SetsFilled(e, c, h, s, t, rs.peers)
    ensures Prepared(e, c, h, t, cache, key, rs)
    ensures Complete(e, c, h, s, cache, key, rs) ==> Complete(e, c, h, t, cache, key, rs)
  {
    var g := cache[key];
    assert "" !in s.groups && "" !in s.addressGroups;
    if g in s.groups {
      assert GroupReady(e, c, h, s, key, rs, g);
      hide Prepared, Complete, AsWanted, Standing, ValidStore;
      forall b | b in Bodies(s.groups[g].rules) && b.addressGroup in s.addressGroups
        ensures AsWanted(e, c, h, rs.peers, s.addressGroups[b.addressGroup])
      {
        StandingIsWanted(e, c, h, s, rs, rs.peers, b);
      }
    }
    PreparedKept(e, c, h, s, t, cache, cache, key, rs);
  }

  lemma StandingNamesRemote(e: Env, c: Cluster, h: string -> string, s: Store, rs: RuleSet, b: NRule)
    requires Standing(e, c, h, s, rs, b)
    ensures NamesRemote(b)
  {
  }

  /** Rules on their way from ready ones to the wanted ones are ready all along,
      whichever address groups the new ones name; and where the old ones were
      complete so are they. */
  lemma ReadyBetween(e: Env, c: Cluster, h: string -> string, s: Store, rs: RuleSet, have: set<NRule>, want: seq<NRule>,
                     now: set<NRule>)
    requires BodiesReady(e, c, h, s, rs, have) && Distinct(have) && Between(have, want, now)
    requires forall w :: w in want ==> NamesRemote(w) && Standing(e, c, h, s, rs, w)
    requires AllRepresented(e, c, h, s, rs, SetOf(want))
    ensures BodiesReady(e, c, h, s, rs, now)
    ensures AllRepresented(e, c, h, s, rs, have) ==> AllRepresented(e, c, h, s, rs, now)
    ensures Pass(have, want) == SetOf(want)
  {
    forall b | b in have ensures NamesRemote(b) { StandingNamesRemote(e, c, h, s, rs, b); }
    RemotesConverge(have, want);
    hide Standing, Distinct, Pass, StandsIn;
    assert SetOf(want) <= now || have <= now;
    forall r | r in rs.rules && Represented(e, c, h, s, rs, r, have) ensures Represented(e, c, h, s, rs, r, now) {
      assert Represented(e, c, h, s, rs, r, SetOf(want));
    }
  }

  /** So its group stays ready, in whatever state the rewriting stops. */
  lemma OwnWritingKeeps(e: Env, c: Cluster, h: string -> string, s: Store, t: Store, cache: map<string, string>,
                        key: string, rs: RuleSet, peers: map<string, string>)
    requires Lawful(rs) && rs.rules != [] && ValidStore(s) && SetsReady(e, c, h, s, rs.peers, peers)
    requires Prepared(e, c, h, s, cache, key, rs)
    requires Converging(s, t, GroupName(h, key), Target(rs.rules, peers)) && Labelled(s, t, Describing(key))
    ensures Prepared(e, c, h, t, cache, key, rs)
    ensures Complete(e, c, h, s, cache, key, rs) ==> Complete(e, c, h, t, cache, key, rs)
    ensures forall b :: b in Bodies(s.groups[cache[key]].rules) ==> NamesRemote(b)
  {
    PolicyOfDescribing(key);
    var g := cache[key];
    var have, now, want := Bodies(s.groups[g].rules), Bodies(t.groups[g].rules), Target(rs.rules, peers);
    WantedAre(e, c, h, s, rs, peers);
    DistinctBodies(s.groups[g].rules);
    hide WantOf, SetsReady, Lawful, Describing, PolicyOf, ValidStore, Bodies, Standing, Distinct, AllRepresented;
    ReadyBetween(e, c, h, s, rs, have, want, now);
    forall b | b in have ensures NamesRemote(b) { StandingNamesRemote(e, c, h, s, rs, b); }
    hide BodiesReady;
    assert SameSets(s, t, now);
    BodiesKept(e, c, h, s, t, now, rs);
  }

  /** A pass that succeeds prepares its policy; one over a prepared policy
      completes it. */
  lemma WritingPrepares(e: Env, c: Cluster, h: string -> string, s: Store, t: Store, cache: map<string, string>,
                        key: string, rs: RuleSet, peers: map<string, string>, g: string)
    requires Lawful(rs) && rs.rules != [] && ValidStore(s)
    requires SetsReady(e, c, h, s, rs.peers, peers)
    requires Converging(s, t, GroupName(h, key), Target(rs.rules, peers)) && Labelled(s, t, Describing(key))
    requires g in t.groups && t.groups[g].name == GroupName(h, key)
    requires WantOf(rs.rules, peers).Some?
    requires Bodies(t.groups[g].rules) == Pass(RulesBefore(s, g), WantOf(rs.rules, peers).value)
    requires g in s.groups ==> t.groups[g].description == Describing(key)
    ensures Prepared(e, c, h, t, cache[key := g], key, rs)
    ensures (forall b :: b in RulesBefore(s, g) ==> NamesRemote(b)) ==> Complete(e, c, h, t, cache[key := g], key, rs)
  {
    hide Lawful, SetsReady, WantOf, Standing, Distinct, Pass, RulesBefore, StandsIn, BodiesReady, AllRepresented,
         Bodies, PolicyOf, Describing;
    WantedAre(e, c, h, s, rs, peers);
    PolicyOfDescribing(key);
    DistinctBefore(s, g);
    hide ValidStore;
    var have, want, now := RulesBefore(s, g), WantOf(rs.rules, peers).value, Bodies(t.groups[g].rules);
    PassIsReady(e, c, h, s, rs, have, want);
    SameSetsAre(s, t, now);
    BodiesKept(e, c, h, s, t, now, rs);
  }

  lemma SameSetsAre(s: Store, t: Store, bs: set<NRule>)
    requires t.addressGroups == s.addressGroups
    ensures SameSets(s, t, bs)
  {
  }

  lemma DistinctBefore(s: Store, g: string)
    requires ValidStore(s)
    ensures Distinct(RulesBefore(s, g))
  {
    DefaultsDistinct();
    if g in s.groups { DistinctBodies(s.groups[g].rules); }
  }

  /** One pass, from whatever rules, leaves rules that are ready; and all of them
      if the old ones each named a remote. */
  lemma PassIsReady(e: Env, c: Cluster, h: string -> string, s: Store, rs: RuleSet, have: set<NRule>, want: seq<NRule>)
    requires Distinct(have) && AllRepresented(e, c, h, s, rs, SetOf(want))
    requires forall w :: w in want ==>
               NamesRemote(w) && (w.prefix == "" || w.addressGroup == "") && Standing(e, c, h, s, rs, w)
    ensures BodiesReady(e, c, h, s, rs, Pass(have, want))
    ensures (forall b :: b in have ==> NamesRemote(b)) ==> AllRepresented(e, c, h, s, rs, Pass(have, want))
  {
    PassPrepares(have, want);
    if forall b :: b in have ==> NamesRemote(b) { RemotesConverge(have, want); }
    hide Standing, Distinct, Pass, StandsIn;
    forall r | r in rs.rules && r.remoteCIDR == "" ensures Represented(e, c, h, s, rs, r, Pass(have, want)) {
      assert Represented(e, c, h, s, rs, r, SetOf(want));
      var w :| w in SetOf(want) && StandsIn(e, c, h, s, rs.peers, r, w);
      SetRuleNamesGroup(e, c, h, s, rs.peers, r, w);
    }
  }

  lemma SetRuleNamesGroup(e: Env, c: Cluster, h: string -> string, s: Store, sets: map<string, PeerSelector>, r: SGRule,
                          w: NRule)
    requires StandsIn(e, c, h, s, sets, r, w) && r.remoteCIDR == ""
    ensures w.addressGroup != ""
  {
  }

  // ----- sweeping -----

  lemma RuleNames(rules: seq<StoredRule>, b: NRule)
    requires b in Bodies(rules)
    ensures NeutronStore.Named(rules, b.addressGroup)
  {
    var i := IndexOfBody(rules, b);
  }

  /** A sweep that knows the policy is live takes nothing of it, whatever else
      it collects: its group is not doomed, and its pod sets are named by the
      rules that stay. */
  lemma SweepKeeps(e: Env, c: Cluster, h: string -> string, s: Store, t: Store, cache: map<string, string>,
                   live: set<string>, served: set<string>, key: string, rs: RuleSet)
    requires ValidStore(s) && Swept(s, t, live, served) && key in live
    requires Prepared(e, c, h, s, cache, key, rs)
    ensures Prepared(e, c, h, t, cache, key, rs)
    ensures Complete(e, c, h, s, cache, key, rs) ==> Complete(e, c, h, t, cache, key, rs)
  {
    var g := cache[key];
    assert "" !in s.groups;
    if rs.rules != [] {
      assert !Doomed(s.groups[g], live, served);
      assert g in t.groups && t.groups[g] == s.groups[g];
      forall b | b in Bodies(s.groups[g].rules) && b.addressGroup in s.addressGroups
        ensures b.addressGroup in t.addressGroups
      {
        RuleNames(s.groups[g].rules, b);
        assert Referenced(t, b.addressGroup);
      }
    }
    PreparedKept(e, c, h, s, t, cache, cache, key, rs);
  }
}
