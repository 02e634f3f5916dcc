/** Every call of fresh work leaves it fresh, and moves the pod sets only toward
    what their keys want. */
module FreshCalls {
  import opened Wrappers
  import opened Faults
  import opened Text
  import opened NetworkPolicy
  import opened RuleSets
  import opened NeutronStore
  import opened NeutronClient
  import opened RuleSync
  import opened Sweeping
  import Baseline
  import Ordering
  import opened AddressSync
  import opened NeutronMeaning
  import opened PolicySync
  import opened Preparation
  import opened PolicyFacts
  import opened Protocol
  import opened Interleaving
  import opened InterleavingSafety
  import opened Freshness
  import opened FreshWork

  // ----- what each write does to the pod sets -----

  lemma SetsUntouched(e: Env, h: string -> string, w: World, s: Store, t: Store)
    requires t.addressGroups == s.addressGroups && s.next <= t.next
    ensures SetsToward(e, h, w, s, t)
  {
    forall a | a in s.addressGroups
      ensures SetToward(e, h, w, s.addressGroups[a].name, s.addressGroups[a].addresses, t.addressGroups[a].addresses)
    {
    }
  }

  lemma MadeToward(e: Env, h: string -> string, w: World, s: Store, k: string)
    requires ValidStore(s)
    ensures var t := CreateAddressGroup(s, SetName(h, k)); SetsToward(e, h, w, s, t) && Ours(h, t, k, IdOf(s.next))
  {
    var t := CreateAddressGroup(s, SetName(h, k));
    CreateAddressGroupValid(s, SetName(h, k));
    hide IdOf, SetName, ValidStore;
    assert New(s, IdOf(s.next));
    forall n: nat | n >= t.next ensures IdOf(s.next) != IdOf(n) { IdsApart(s.next, n); }
    forall a | a in s.addressGroups
      ensures SetToward(e, h, w, s.addressGroups[a].name, s.addressGroups[a].addresses, t.addressGroups[a].addresses)
    {
    }
  }

  /** One pod set rewritten toward what its key wants. */
  lemma RewrittenToward(e: Env, h: string -> string, w: World, s: Store, t: Store, k: string, a: string,
                        want: set<string>)
    requires Faithful(e) && WellFormed(w) && Injective(h) && Ours(h, s, k, a) && Wants(e, w, k, want)
    requires a in s.addressGroups && a in t.addressGroups
    requires t ==
               s.(addressGroups := s.addressGroups[a := s.addressGroups[a].(addresses := t.addressGroups[a].addresses)])
    requires Toward(want, s.addressGroups[a].addresses, t.addressGroups[a].addresses)
    ensures SetsToward(e, h, w, s, t)
  {
    hide Faithful, WellFormed, Wants;
    forall b | b in s.addressGroups
      ensures SetToward(e, h, w, s.addressGroups[b].name, s.addressGroups[b].addresses, t.addressGroups[b].addresses)
    {
      if b == a {
        forall k', want' | s.addressGroups[a].name == SetName(h, k') && Wants(e, w, k', want')
          ensures Toward(want', s.addressGroups[a].addresses, t.addressGroups[a].addresses)
        {
          NamesApart(h, k, k');
          WantsUnique(e, w, k, want, want');
        }
      }
    }
  }

  lemma MidwayAdds(want: set<string>, read: set<string>, now: set<string>)
    requires Midway(want, read, now) && now * (want - read) == {}
    ensures Toward(want, now, now + (want - read)) && want <= now + (want - read)
  {
    assert (now + (want - read)) - want == now - want;
  }

  lemma MidwayRemoves(want: set<string>, read: set<string>, now: set<string>)
    requires Midway(want, read, now) && read - want <= now
    ensures Toward(want, now, now - (read - want)) && now - (read - want) <= want
  {
    assert (now - (read - want)) * want == now * want;
  }

  lemma Met(want: set<string>, read: set<string>, now: set<string>)
    requires Midway(want, read, now) && now * (want - read) != {}
    ensures want <= now
  {
  }

  /** Adding what was missing: the store goes toward, and unless the set is gone
      all that is wanted is then there - also when it is answered "already so". */
  lemma AddedToward(e: Env, h: string -> string, w: World, s: Store, k: string, a: string, want: set<string>,
                    read: set<string>)
    requires Faithful(e) && WellFormed(w) && Injective(h) && Ours(h, s, k, a) && Wants(e, w, k, want)
    requires FillingAt(s, a, want, read)
    ensures var (t, answer) := AddAddresses(s, a, want - read);
            && SetsToward(e, h, w, s, t)
            && (!answer.Failed? ==> a in t.addressGroups && want <= t.addressGroups[a].addresses)
  {
    hide Faithful, WellFormed, Wants, SetsToward, Midway, Toward;
    var (t, answer) := AddAddresses(s, a, want - read);
    SetsUntouched(e, h, w, s, s);
    if answer.Done? {
      MidwayAdds(want, read, s.addressGroups[a].addresses);
      RewrittenToward(e, h, w, s, t, k, a, want);
    } else if answer.Conflict? {
      Met(want, read, s.addressGroups[a].addresses);
    }
  }

  lemma Emptied(want: set<string>, read: set<string>, now: set<string>)
    requires Midway(want, read, now) && (read <= want || !(read - want <= now))
    ensures now <= want
  {
  }

  /** Taking out the surplus: the set then holds exactly what is wanted. */
  lemma RemovedToward(e: Env, h: string -> string, w: World, s: Store, k: string, a: string, want: set<string>,
                      read: set<string>)
    requires Faithful(e) && WellFormed(w) && Injective(h) && Ours(h, s, k, a) && Wants(e, w, k, want)
    requires FillingAt(s, a, want, read)
    requires a in s.addressGroups ==> want <= s.addressGroups[a].addresses
    ensures var (t, answer) := RemoveAddresses(s, a, read - want);
            && SetsToward(e, h, w, s, t)
            && (!answer.Failed? ==> Filled(e, h, w, t, k, a))
    ensures read <= want ==> Filled(e, h, w, s, k, a)
  {
    hide Faithful, WellFormed, Wants, SetsToward, Midway, Toward;
    var (t, answer) := RemoveAddresses(s, a, read - want);
    SetsUntouched(e, h, w, s, s);
    if a in s.addressGroups {
      var now := s.addressGroups[a].addresses;
      if answer.Done? {
        MidwayRemoves(want, read, now);
        KeepsWanted(want, read, now);
        RewrittenToward(e, h, w, s, t, k, a, want);
        assert t.addressGroups[a].addresses == want;
      }
      if read <= want || answer.Conflict? {
        Emptied(want, read, now);
        assert now == want;
      }
    }
  }

  lemma KeepsWanted(want: set<string>, read: set<string>, now: set<string>)
    requires want <= now
    ensures want <= now - (read - want)
  {
  }

  lemma DroppedToward(e: Env, h: string -> string, w: World, s: Store, a: string)
    ensures SetsToward(e, h, w, s, DeleteAddressGroup(s, a).0)
  {
    var t := DeleteAddressGroup(s, a).0;
    hide Referenced;
    forall b | b in s.addressGroups && b in t.addressGroups
      ensures SetToward(e, h, w, s.addressGroups[b].name, s.addressGroups[b].addresses, t.addressGroups[b].addresses)
    {
    }
  }

  // ----- each kind of call -----

  ghost predicate FreshStep(e: Env, h: string -> string, w: World, s: Store, s': Store, t': Task) {
    SetsToward(e, h, w, s, s') && Fresh(e, h, w, s', t')
  }

  lemma PlanKeyWants(e: Env, w: World, p: Plan, i: nat)
    requires PlanNow(e, w, p) && i < |p.keys|
    ensures Wants(e, w, p.keys[i], ListedForms(e, w.cluster, p, i)) && SetKey(p, i) == p.keys[i]
  {
    hide WantedOf;
    var q :| q in w.policies && PlanOf(e, q, p);
    assert p.keys[i] in Members(p.keys);
    assert WantsOf(e, w, q, p.keys[i], ListedForms(e, w.cluster, p, i));
  }

  lemma OneMoreFull(e: Env, h: string -> string, w: World, s: Store, p: Plan, peers: map<string, string>, i: nat,
                    a: string)
    requires PeersFull(e, h, w, s, p, peers, i) && i < |p.keys| && Filled(e, h, w, s, p.keys[i], a)
    ensures PeersFull(e, h, w, s, p, peers[SetKey(p, i) := a], i + 1)
  {
    hide Filled;
    assert p.keys[..i + 1] == p.keys[..i] + [p.keys[i]];
  }

  lemma FreshEnds(e: Env, h: string -> string, w: World, s: Store, p: Plan, peers: map<string, string>)
    requires PlanNow(e, w, p) && PeersFull(e, h, w, s, p, peers, |p.keys|)
    ensures Fresh(e, h, w, s, if p.ruleSet.rules == [] then Remember(p, "", [], []) else FindGroup(p, peers))
  {
    hide PlanNow, PeersFull;
  }

  lemma FreshGoesOn(e: Env, h: string -> string, w: World, s: Store, p: Plan, peers: map<string, string>, i: nat,
                    a: string)
    requires PlanNow(e, w, p) && PeersFull(e, h, w, s, p, peers, i) && i < |p.keys|
    ensures Fresh(e, h, w, s, MakeSet(p, peers, i))
    ensures Ours(h, s, p.keys[i], a) ==> Fresh(e, h, w, s, ReadSet(p, peers, i, a, ListedForms(e, w.cluster, p, i)))
  {
    PlanKeyWants(e, w, p, i);
    hide PlanNow, PeersFull, Ours, Wants, ListedForms;
  }

  lemma FreshFind(e: Env, h: string -> string, w: World, s: Store, t: Task, f: Fault, pick: string)
    requires ValidStore(s) && t.FindSet? && Fresh(e, h, w, s, t)
    ensures var r := SetCall(e, w.cluster, h, s, t, f, pick); FreshStep(e, h, w, s, r.0, r.1)
  {
    var FindSet(p, peers, i) := t;
    assert PlanNow(e, w, p) && PeersFull(e, h, w, s, p, peers, i) && Fresh(e, h, w, s, Idle);
    SetsUntouched(e, h, w, s, s);
    FoundPeers(e, h, w, s, p, peers, i);
    hide SetsToward, Fresh, PlanNow, PeersFull, ListedForms, SetExists, SetName, ValidStore, Ours;
    if i >= |p.keys| {
      FreshEnds(e, h, w, s, p, peers);
    } else {
      SetKeyIs(p, i);
      PickIsOurs(h, s, p.keys[i], pick);
      FreshGoesOn(e, h, w, s, p, peers, i, pick);
    }
  }

  lemma SetKeyIs(p: Plan, i: nat)
    requires i < |p.keys|
    ensures SetKey(p, i) == p.keys[i]
  {
  }

  lemma FoundPeers(e: Env, h: string -> string, w: World, s: Store, p: Plan, peers: map<string, string>, i: nat)
    requires PeersFull(e, h, w, s, p, peers, i)
    ensures i <= |p.keys| && (i >= |p.keys| ==> i == |p.keys|)
  {
  }

  lemma PickIsOurs(h: string -> string, s: Store, k: string, a: string)
    requires ValidStore(s)
    ensures a in s.addressGroups && s.addressGroups[a].name == SetName(h, k) ==> Ours(h, s, k, a)
  {
  }

  lemma FreshMake(e: Env, h: string -> string, w: World, s: Store, t: Task, f: Fault, pick: string)
    requires ValidStore(s) && t.MakeSet? && Fresh(e, h, w, s, t)
    ensures var r := SetCall(e, w.cluster, h, s, t, f, pick); FreshStep(e, h, w, s, r.0, r.1)
  {
    hide SetsToward, PlanNow, PeersFull, Wants, ListedForms, SetName, ValidStore, AllMeant, Ours, CreateAddressGroup;
    var MakeSet(p, peers, i) := t;
    SetsUntouched(e, h, w, s, s);
    PlanKeyWants(e, w, p, i);
    MadeToward(e, h, w, s, p.keys[i]);
    PeersKept(e, h, w, s, CreateAddressGroup(s, SetName(h, p.keys[i])), p, peers, i);
  }

  lemma FreshRead(e: Env, h: string -> string, w: World, s: Store, t: Task, f: Fault, pick: string)
    requires t.ReadSet? && Fresh(e, h, w, s, t)
    ensures var r := SetCall(e, w.cluster, h, s, t, f, pick); FreshStep(e, h, w, s, r.0, r.1)
  {
    SetsUntouched(e, h, w, s, s);
    hide SetsToward, PlanNow, PeersFull, Wants, AllMeant, SetUnderWay;
  }

  lemma FreshAdd(e: Env, h: string -> string, w: World, s: Store, t: Task, f: Fault, pick: string)
    requires Faithful(e) && WellFormed(w) && Injective(h) && t.AddTo? && Fresh(e, h, w, s, t)
    ensures var r := SetCall(e, w.cluster, h, s, t, f, pick); FreshStep(e, h, w, s, r.0, r.1)
  {
    hide Faithful, WellFormed, Injective, SetsToward, PlanNow, PeersFull, Wants, AllMeant, FillingAt, AddAddresses,
         Ours;
    var AddTo(p, peers, i, a, want, read) := t;
    SetsUntouched(e, h, w, s, s);
    AddedToward(e, h, w, s, p.keys[i], a, want, read);
    AllThere(s, a, want, read);
    var (u, answer) := AddAddresses(s, a, want - read);
    UnderWayKept(e, h, w, s, u, p, peers, i, a, want);
    FillingStays(e, h, w, s, u, p, peers, i, a, want, read);
  }

  lemma AllThere(s: Store, a: string, want: set<string>, read: set<string>)
    requires FillingAt(s, a, want, read)
    ensures want <= read ==> (a in s.addressGroups ==> want <= s.addressGroups[a].addresses)
  {
  }

  lemma FreshTake(e: Env, h: string -> string, w: World, s: Store, t: Task, f: Fault, pick: string)
    requires Faithful(e) && WellFormed(w) && Injective(h) && t.TakeFrom? && Fresh(e, h, w, s, t)
    ensures var r := SetCall(e, w.cluster, h, s, t, f, pick); FreshStep(e, h, w, s, r.0, r.1)
  {
    hide Faithful, WellFormed, Injective, SetsToward, PlanNow, PeersFull, Wants, AllMeant, FillingAt, RemoveAddresses,
         Ours, Filled;
    var TakeFrom(p, peers, i, a, want, read) := t;
    SetsUntouched(e, h, w, s, s);
    RemovedToward(e, h, w, s, p.keys[i], a, want, read);
    var (u, answer) := RemoveAddresses(s, a, read - want);
    PeersKept(e, h, w, s, u, p, peers, i);
    if !answer.Failed? { OneMoreFull(e, h, w, u, p, peers, i, a); }
    if read <= want { OneMoreFull(e, h, w, s, p, peers, i, a); }
  }

  lemma PeersTotal(e: Env, h: string -> string, w: World, s: Store, p: Plan, peers: map<string, string>)
    requires PlanNow(e, w, p) && PeersFull(e, h, w, s, p, peers, |p.keys|)
    ensures peers.Keys == p.ruleSet.peers.Keys && forall k :: k in peers ==> Filled(e, h, w, s, k, peers[k])
  {
    assert p.keys[..|p.keys|] == p.keys;
  }

  lemma PlanIsLawful(e: Env, w: World, p: Plan)
    requires WellFormed(w) && PlanNow(e, w, p)
    ensures Lawful(p.ruleSet)
  {
    var q :| q in w.policies && PlanOf(e, q, p);
    PolicyIsLawful(e, q);
  }

  lemma SentMeant(e: Env, h: string -> string, w: World, s: Store, rs: RuleSet, peers: map<string, string>, r: SGRule)
    requires Lawful(rs) && r in rs.rules && Sent(r, peers).Some?
    requires peers.Keys == rs.peers.Keys && forall k :: k in peers ==> Filled(e, h, w, s, k, peers[k])
    ensures Meant(e, h, w, s, rs, r, Sent(r, peers).value)
  {
    hide Filled;
    assert HasRemote(r);
  }

  /** The rules worked out from pod sets all found stand for the compiled ones. */
  lemma WantMeant(e: Env, h: string -> string, w: World, s: Store, p: Plan, peers: map<string, string>)
    requires WellFormed(w) && PlanNow(e, w, p) && PeersFull(e, h, w, s, p, peers, |p.keys|)
    requires WantOf(p.ruleSet.rules, peers).Some?
    ensures AllMeant(e, h, w, s, p.ruleSet, WantOf(p.ruleSet.rules, peers).value)
  {
    hide WellFormed, PlanNow, PeersFull, WantOf, Filled, Lawful, Meant, Sent;
    PeersTotal(e, h, w, s, p, peers);
    PlanIsLawful(e, w, p);
    var rs := p.ruleSet;
    WantOfIs(rs.rules, peers);
    var want := WantOf(rs.rules, peers).value;
    forall i | 0 <= i < |want| ensures rs.rules[i] in rs.rules && Meant(e, h, w, s, rs, rs.rules[i], want[i]) {
      assert rs.rules[i] in rs.rules && Sent(rs.rules[i], peers) == Some(want[i]);
      SentMeant(e, h, w, s, rs, peers, rs.rules[i]);
    }
    forall b | b in want ensures SomeMeant(e, h, w, s, rs, b) {
      var i :| 0 <= i < |want| && want[i] == b;
      assert Meant(e, h, w, s, rs, rs.rules[i], b);
    }
    forall r | r in rs.rules ensures MeantBy(e, h, w, s, rs, r, want) {
      var i :| 0 <= i < |rs.rules| && rs.rules[i] == r;
      assert want[i] in want && Meant(e, h, w, s, rs, r, want[i]);
    }
  }

  lemma FreshRules(e: Env, h: string -> string, w: World, s: Store, t: Task, f: Fault, pick: string)
    requires WellFormed(w) && t.ReadRules? && Fresh(e, h, w, s, t)
    ensures var r := GroupCall(h, s, t, f, pick); FreshStep(e, h, w, s, r.0, r.1)
  {
    var ReadRules(p, peers, g) := t;
    assert PlanNow(e, w, p) && PeersFull(e, h, w, s, p, peers, |p.keys|) && p.ruleSet.rules != [];
    hide WellFormed, PlanNow, PeersFull, WantOf, AllMeant, FreshStep, Fresh;
    FreshStops(e, h, w, s, s);
    var want := WantOf(p.ruleSet.rules, peers);
    if want.Some? {
      WantMeant(e, h, w, s, p, peers);
      FreshAdds(e, h, w, s, p, g, if g in s.groups then s.groups[g].rules else [], want.value);
    }
  }

  lemma FreshStops(e: Env, h: string -> string, w: World, s: Store, t: Store)
    requires t.addressGroups == s.addressGroups && s.next <= t.next
    ensures FreshStep(e, h, w, s, t, Idle)
  {
    SetsUntouched(e, h, w, s, t);
    hide SetsToward;
  }

  lemma FreshAdds(e: Env, h: string -> string, w: World, s: Store, p: Plan, g: string, have: seq<StoredRule>,
                  want: seq<NRule>)
    requires PlanNow(e, w, p) && AllMeant(e, h, w, s, p.ruleSet, want) && p.ruleSet.rules != []
    ensures FreshStep(e, h, w, s, s, AddRule(p, g, have, want, 0))
  {
    hide SetsToward, PlanNow, AllMeant, PeersFull, SetUnderWay, FillingAt, WantOf;
    SetsUntouched(e, h, w, s, s);
  }

  /** A call that leaves the pod sets alone, and goes on with what it knew. */
  lemma FreshElsewhere(e: Env, h: string -> string, w: World, s: Store, t: Task, f: Fault, pick: string)
    requires t.FindGroup? || t.MakeGroup? || t.Correct?
    requires Fresh(e, h, w, s, t)
    ensures var r := GroupCall(h, s, t, f, pick); FreshStep(e, h, w, s, r.0, r.1)
  {
    hide WantOf, GroupName, Describing, GroupExists, IdOf, DefaultRules, PlanNow, PeersFull, AllMeant, SetsToward;
    var (s', t') := GroupCall(h, s, t, f, pick);
    SetsUntouched(e, h, w, s, s');
    PeersKept(e, h, w, s, s', t.plan, t.peers, |t.plan.keys|);
  }

  lemma FreshWriting(e: Env, h: string -> string, w: World, s: Store, t: Task, f: Fault)
    requires t.AddRule? || t.DropRule?
    requires Fresh(e, h, w, s, t) && (t.group != "")
    ensures var r := RuleCall(s, t, f); FreshStep(e, h, w, s, r.0, r.1)
  {
    hide HoldsAlias, Without, HasRule, PlanNow, AllMeant, SetsToward;
    var (s', t') := RuleCall(s, t, f);
    SetsUntouched(e, h, w, s, s');
    AllMeantKept(e, h, w, s, s', t.plan.ruleSet, t.rules);
  }

  lemma FreshPort(e: Env, h: string -> string, w: World, s: Store, t: Task, f: Fault)
    requires t.ReadPort? || t.WritePort?
    ensures var r := PortCall(s, t, f); FreshStep(e, h, w, s, r.0, r.1)
  {
    hide SetsToward, Ordering.SortStrings;
    var u := UpdatePort(s, t.port, t.list).0;
    SetsUntouched(e, h, w, s, s);
    SetsUntouched(e, h, w, s, u);
    assert Fresh(e, h, w, s, WritePort(t.pod, t.port, t.list)) && Fresh(e, h, w, s, Idle) && Fresh(e, h, w, u, Idle);
    hide Fresh, UpdatePort;
  }

  lemma FreshListing(e: Env, h: string -> string, w: World, s: Store, t: Task, f: Fault, pick: string)
    requires (t.ListGroups? || t.ListSets?) && Fresh(e, h, w, s, t)
    ensures var r := SweepCall(w.cluster, s, t, f, pick); FreshStep(e, h, w, s, r.0, r.1)
  {
    hide SetsToward, Doomed, KeptReferences, PolicyOf, HasPrefix, AllLive;
    SetsUntouched(e, h, w, s, s);
  }

  lemma FreshDropsGroup(e: Env, h: string -> string, w: World, s: Store, t: Task, f: Fault, pick: string)
    requires t.DropGroups? && Fresh(e, h, w, s, t)
    ensures var r := SweepCall(w.cluster, s, t, f, pick); FreshStep(e, h, w, s, r.0, r.1)
  {
    hide SetsToward, OnPort, AllLive;
    SetsUntouched(e, h, w, s, s);
    SetsUntouched(e, h, w, s, DeleteGroup(s, pick).0);
  }

  lemma FreshDropsSet(e: Env, h: string -> string, w: World, s: Store, t: Task, f: Fault, pick: string)
    requires t.DropSets?
    ensures var r := SweepCall(w.cluster, s, t, f, pick); FreshStep(e, h, w, s, r.0, r.1)
  {
    hide SetsToward, DeleteAddressGroup;
    SetsUntouched(e, h, w, s, s);
    DroppedToward(e, h, w, s, pick);
  }

  lemma RuleTaskHasGroup(h: string -> string, s: Store, b: Baseline.BaselineIds, raced: set<string>, t: Task)
    requires (t.AddRule? || t.DropRule?) && TaskSafe(h, s, b, raced, t)
    ensures t.group != ""
  {
  }

  /** Any call of any fresh task. */
  lemma CallFresh(e: Env, h: string -> string, w: World, s: Store, b: Baseline.BaselineIds, raced: set<string>, t: Task,
                  f: Fault, pick: string)
    requires Faithful(e) && WellFormed(w) && Injective(h) && ValidStore(s) && Fresh(e, h, w, s, t)
    requires TaskSafe(h, s, b, raced, t)
    ensures var r := Call(e, w.cluster, h, s, t, f, pick); FreshStep(e, h, w, s, r.0, r.1)
  {
    hide Faithful, WellFormed, Injective, ValidStore, Fresh, TaskSafe, FreshStep, SetCall, GroupCall, RuleCall,
         PortCall, SweepCall;
    if t.FindSet? { FreshFind(e, h, w, s, t, f, pick); }
    else if t.MakeSet? { FreshMake(e, h, w, s, t, f, pick); }
    else if t.ReadSet? { FreshRead(e, h, w, s, t, f, pick); }
    else if t.AddTo? { FreshAdd(e, h, w, s, t, f, pick); }
    else if t.TakeFrom? { FreshTake(e, h, w, s, t, f, pick); }
    else if t.FindGroup? || t.MakeGroup? || t.Correct? { FreshElsewhere(e, h, w, s, t, f, pick); }
    else if t.ReadRules? { FreshRules(e, h, w, s, t, f, pick); }
    else if t.AddRule? || t.DropRule? {
      RuleTaskHasGroup(h, s, b, raced, t);
      FreshWriting(e, h, w, s, t, f);
    }
    else if t.ReadPort? || t.WritePort? { FreshPort(e, h, w, s, t, f); }
    else if t.ListGroups? || t.ListSets? { FreshListing(e, h, w, s, t, f, pick); }
    else if t.DropGroups? { FreshDropsGroup(e, h, w, s, t, f, pick); }
    else if t.DropSets? { FreshDropsSet(e, h, w, s, t, f, pick); }
    else { FreshIdle(e, h, w, s, f, pick); }
  }

  lemma FreshIdle(e: Env, h: string -> string, w: World, s: Store, f: Fault, pick: string)
    ensures FreshStep(e, h, w, s, s, Idle) && GroupCall(h, s, Idle, f, pick) == (s, Idle)
  {
    SetsUntouched(e, h, w, s, s);
    hide SetsToward;
  }
}
