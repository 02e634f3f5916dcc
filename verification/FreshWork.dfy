/** What is known of each task begun since the last edit, and that every call of
    any of them leaves it so for all. */
module FreshWork {
  import opened NetworkPolicy
  import opened RuleSets
  import opened NeutronStore
  import opened AddressSync
  import opened NeutronMeaning
  import opened Protocol
  import opened Interleaving
  import opened InterleavingSafety
  import opened Freshness

  /** The pod sets found so far, filled unless a sweep took them. */
  ghost predicate PeersFull(e: Env, h: string -> string, w: World, s: Store, p: Plan, peers: map<string, string>,
                            i: nat) {
    && i <= |p.keys| && peers.Keys == Members(p.keys[..i])
    && forall k :: k in peers ==> Filled(e, h, w, s, k, peers[k])
  }

  /** As Preparation.StandsIn, unless a sweep took the address group. */
  ghost predicate Meant(e: Env, h: string -> string, w: World, s: Store, rs: RuleSet, r: SGRule, b: NRule) {
    if r.remoteCIDR != "" then b == Bare(r)
    else
      && r.remoteAddressGroup in rs.peers && b == Bare(r).(addressGroup := b.addressGroup)
      && Filled(e, h, w, s, r.remoteAddressGroup, b.addressGroup)
  }

  ghost predicate SomeMeant(e: Env, h: string -> string, w: World, s: Store, rs: RuleSet, b: NRule) {
    exists r :: r in rs.rules && Meant(e, h, w, s, rs, r, b)
  }

  ghost predicate MeantBy(e: Env, h: string -> string, w: World, s: Store, rs: RuleSet, r: SGRule, want: seq<NRule>) {
    exists b :: b in want && Meant(e, h, w, s, rs, r, b)
  }

  ghost predicate AllMeant(e: Env, h: string -> string, w: World, s: Store, rs: RuleSet, want: seq<NRule>) {
    && (forall b :: b in want ==> SomeMeant(e, h, w, s, rs, b))
    && (forall r :: r in rs.rules ==> MeantBy(e, h, w, s, rs, r, want))
  }

  ghost predicate SetUnderWay(e: Env, h: string -> string, w: World, s: Store, p: Plan, peers: map<string, string>,
                              i: nat, a: string, want: set<string>) {
    && PeersFull(e, h, w, s, p, peers, i) && i < |p.keys|
    && Ours(h, s, p.keys[i], a) && Wants(e, w, p.keys[i], want)
  }

  predicate AllLive(w: World, live: set<string>) {
    forall q :: q in w.policies ==> q.Key() in live
  }

  ghost predicate Fresh(e: Env, h: string -> string, w: World, s: Store, t: Task) {
    match t
    case FindSet(p, peers, i) => PlanNow(e, w, p) && PeersFull(e, h, w, s, p, peers, i)
    case MakeSet(p, peers, i) => PlanNow(e, w, p) && PeersFull(e, h, w, s, p, peers, i) && i < |p.keys|
    case ReadSet(p, peers, i, a, want) => PlanNow(e, w, p) && SetUnderWay(e, h, w, s, p, peers, i, a, want)
    case AddTo(p, peers, i, a, want, read) =>
      PlanNow(e, w, p) && SetUnderWay(e, h, w, s, p, peers, i, a, want) && FillingAt(s, a, want, read)
    case TakeFrom(p, peers, i, a, want, read) =>
      && PlanNow(e, w, p) && SetUnderWay(e, h, w, s, p, peers, i, a, want) && FillingAt(s, a, want, read)
      && (a in s.addressGroups ==> want <= s.addressGroups[a].addresses)
    case FindGroup(p, peers) => PlanNow(e, w, p) && PeersFull(e, h, w, s, p, peers, |p.keys|) && p.ruleSet.rules != []
    case MakeGroup(p, peers) => PlanNow(e, w, p) && PeersFull(e, h, w, s, p, peers, |p.keys|) && p.ruleSet.rules != []
    case Correct(p, peers, _) => PlanNow(e, w, p) && PeersFull(e, h, w, s, p, peers, |p.keys|) && p.ruleSet.rules != []
    case ReadRules(p, peers, _) => PlanNow(e, w, p) && PeersFull(e, h, w, s, p, peers, |p.keys|)
                                   && p.ruleSet.rules != []
    case AddRule(p, _, _, want, _) => PlanNow(e, w, p) && AllMeant(e, h, w, s, p.ruleSet, want) && p.ruleSet.rules != []
    case DropRule(p, _, _, want, _) => PlanNow(e, w, p) && AllMeant(e, h, w, s, p.ruleSet, want)
                                       && p.ruleSet.rules != []
    case Remember(p, g, _, want) =>
      PlanNow(e, w, p) && if g == "" then p.ruleSet.rules == []
      else p.ruleSet.rules != [] && AllMeant(e, h, w, s, p.ruleSet, want)
    case ListGroups(live) => AllLive(w, live)
    case DropGroups(live, _, _) => AllLive(w, live)
    case _ => true
  }

  // ----- what others do -----

  lemma PeersKept(e: Env, h: string -> string, w: World, s: Store, t: Store, p: Plan, peers: map<string, string>,
                  i: nat)
    requires SetsToward(e, h, w, s, t) && PeersFull(e, h, w, s, p, peers, i)
    ensures PeersFull(e, h, w, t, p, peers, i)
  {
    hide SetsToward, Filled;
    forall k | k in peers ensures Filled(e, h, w, t, k, peers[k]) { FullKept(e, h, w, s, t, k, peers[k]); }
  }

  lemma MeantKept(e: Env, h: string -> string, w: World, s: Store, t: Store, rs: RuleSet, r: SGRule, b: NRule)
    requires SetsToward(e, h, w, s, t) && Meant(e, h, w, s, rs, r, b)
    ensures Meant(e, h, w, t, rs, r, b)
  {
    hide SetsToward, Filled;
    if r.remoteCIDR == "" { FullKept(e, h, w, s, t, r.remoteAddressGroup, b.addressGroup); }
  }

  lemma AllMeantKept(e: Env, h: string -> string, w: World, s: Store, t: Store, rs: RuleSet, want: seq<NRule>)
    requires SetsToward(e, h, w, s, t) && AllMeant(e, h, w, s, rs, want)
    ensures AllMeant(e, h, w, t, rs, want)
  {
    hide SetsToward, Meant;
    forall b | b in want ensures SomeMeant(e, h, w, t, rs, b) {
      assert SomeMeant(e, h, w, s, rs, b);
      var r :| r in rs.rules && Meant(e, h, w, s, rs, r, b);
      MeantKept(e, h, w, s, t, rs, r, b);
    }
    forall r | r in rs.rules ensures MeantBy(e, h, w, t, rs, r, want) {
      assert MeantBy(e, h, w, s, rs, r, want);
      var b :| b in want && Meant(e, h, w, s, rs, r, b);
      MeantKept(e, h, w, s, t, rs, r, b);
    }
  }

  lemma UnderWayKept(e: Env, h: string -> string, w: World, s: Store, t: Store, p: Plan, peers: map<string, string>,
                     i: nat, a: string, want: set<string>)
    requires SetsToward(e, h, w, s, t) && SetUnderWay(e, h, w, s, p, peers, i, a, want)
    ensures SetUnderWay(e, h, w, t, p, peers, i, a, want)
  {
    hide SetsToward, PeersFull, Ours;
    PeersKept(e, h, w, s, t, p, peers, i);
    OursStays(h, s, t, e, w, p.keys[i], a);
  }

  /** Fresh work stays fresh whatever other fresh work does. */
  lemma FreshKept(e: Env, h: string -> string, w: World, s: Store, t: Store, task: Task)
    requires SetsToward(e, h, w, s, t) && Fresh(e, h, w, s, task)
    ensures Fresh(e, h, w, t, task)
  {
    hide SetsToward, PeersFull, AllMeant, SetUnderWay, FillingAt, PlanNow;
    match task
    case FindSet(p, peers, i) => PeersKept(e, h, w, s, t, p, peers, i);
    case MakeSet(p, peers, i) => PeersKept(e, h, w, s, t, p, peers, i);
    case ReadSet(p, peers, i, a, want) => UnderWayKept(e, h, w, s, t, p, peers, i, a, want);
    case AddTo(p, peers, i, a, want, read) =>
      UnderWayKept(e, h, w, s, t, p, peers, i, a, want);
      FillingStays(e, h, w, s, t, p, peers, i, a, want, read);
    case TakeFrom(p, peers, i, a, want, read) =>
      UnderWayKept(e, h, w, s, t, p, peers, i, a, want);
      FillingStays(e, h, w, s, t, p, peers, i, a, want, read);
    case FindGroup(p, peers) => PeersKept(e, h, w, s, t, p, peers, |p.keys|);
    case MakeGroup(p, peers) => PeersKept(e, h, w, s, t, p, peers, |p.keys|);
    case Correct(p, peers, _) => PeersKept(e, h, w, s, t, p, peers, |p.keys|);
    case ReadRules(p, peers, _) => PeersKept(e, h, w, s, t, p, peers, |p.keys|);
    case AddRule(p, _, _, want, _) => AllMeantKept(e, h, w, s, t, p.ruleSet, want);
    case DropRule(p, _, _, want, _) => AllMeantKept(e, h, w, s, t, p.ruleSet, want);
    case Remember(p, g, _, want) => if g != "" { AllMeantKept(e, h, w, s, t, p.ruleSet, want); }
    case _ =>
  }

  lemma FillingStays(e: Env, h: string -> string, w: World, s: Store, t: Store, p: Plan, peers: map<string, string>,
                     i: nat, a: string, want: set<string>, read: set<string>)
    requires SetsToward(e, h, w, s, t) && SetUnderWay(e, h, w, s, p, peers, i, a, want) && FillingAt(s, a, want, read)
    ensures FillingAt(t, a, want, read)
    ensures (a in s.addressGroups ==> want <= s.addressGroups[a].addresses) ==>
              (a in t.addressGroups ==> want <= t.addressGroups[a].addresses)
  {
    FillingKept(e, h, w, s, t, p.keys[i], a, want, read);
    if a in t.addressGroups { assert a in s.addressGroups by { assert !New(s, a); } }
  }
}
