/** That a worker gets there: left to itself, with its calls going through, a pass
    ends and is remembered, and a sweep ends with everything swept. */
module PassAlone {
  import opened Wrappers
  import opened Faults
  import opened Text
  import opened NetworkPolicy
  import opened Translate
  import opened RuleSets
  import opened NeutronStore
  import opened NeutronClient
  import opened RuleSync
  import opened AddressSync
  import opened Sweeping
  import opened PolicySync
  import opened Preparation
  import opened Protocol
  import opened Interleaving
  import opened InterleavingSafety
  import opened InterleavingRuns
  import opened FreshRules
  import PolicyFacts
  import Controllers
  import Ordering

  // ----- a worker's calls, one after another -----

  /** What a task and the store come to, each call going through; picks is what
      the listings show first. */
  ghost function Goes(e: Env, c: Cluster, h: string -> string, s: Store, t: Task, picks: seq<string>): (Store, Task) {
    if picks == [] then (s, t)
    else
      var (u, v) := Goes(e, c, h, s, t, picks[..|picks| - 1]);
      Call(e, c, h, u, v, NoFault, picks[|picks| - 1])
  }

  lemma GoesOne(e: Env, c: Cluster, h: string -> string, s: Store, t: Task, picks: seq<string>, pick: string)
    ensures var (u, v) := Goes(e, c, h, s, t, picks);
            Goes(e, c, h, s, t, picks + [pick]) == Call(e, c, h, u, v, NoFault, pick)
  {
    hide Call;
    assert (picks + [pick])[..|picks|] == picks;
  }

  lemma {:induction false} GoesOn(e: Env, c: Cluster, h: string -> string, s: Store, t: Task, a: seq<string>,
                                  b: seq<string>)
    ensures var (u, v) := Goes(e, c, h, s, t, a); Goes(e, c, h, s, t, a + b) == Goes(e, c, h, u, v, b)
  {
    hide Call;
    if b == [] {
      assert a + b == a;
    } else {
      var init, last := b[..|b| - 1], b[|b| - 1];
      assert a + b == (a + init) + [last] && b == init + [last];
      GoesOn(e, c, h, s, t, a, init);
    }
  }

  lemma GoesNowhere(e: Env, c: Cluster, h: string -> string, s: Store, t: Task)
    ensures Goes(e, c, h, s, t, []) == (s, t)
  {
  }

  lemma OneCall(e: Env, c: Cluster, h: string -> string, s: Store, t: Task, pick: string)
    ensures Goes(e, c, h, s, t, [pick]) == Call(e, c, h, s, t, NoFault, pick)
  {
    hide Call;
    GoesNowhere(e, c, h, s, t);
    GoesOne(e, c, h, s, t, [], pick);
    assert [] + [pick] == [pick];
  }

  lemma CallThen(e: Env, c: Cluster, h: string -> string, s: Store, t: Task, pick: string, more: seq<string>)
    ensures var (u, v) := Call(e, c, h, s, t, NoFault, pick);
            Goes(e, c, h, s, t, [pick] + more) == Goes(e, c, h, u, v, more)
  {
    hide Call, Goes;
    OneCall(e, c, h, s, t, pick);
    GoesOn(e, c, h, s, t, [pick], more);
  }

  // ----- one pod set -----

  /** Every address group there stays, and nothing else is touched. */
  ghost predicate SetsGrow(s: Store, t: Store) {
    s.addressGroups.Keys <= t.addressGroups.Keys && t.groups == s.groups && t.ports == s.ports && "" !in t.addressGroups
  }

  lemma Found(e: Env, c: Cluster, h: string -> string, s: Store, p: Plan, peers: map<string, string>, k: nat)
    returns (picks: seq<string>, t: Store, a: string)
    requires k < |p.keys| && "" !in s.addressGroups
    ensures Goes(e, c, h, s, FindSet(p, peers, k), picks) == (t, ReadSet(p, peers, k, a, ListedForms(e, c, p, k)))
    ensures SetsGrow(s, t) && a in t.addressGroups && t.addressGroups[a].name == SetName(h, SetKey(p, k))
  {
    hide ListedForms, SetName;
    GoesNowhere(e, c, h, s, FindSet(p, peers, k));
    if SetExists(s, SetName(h, SetKey(p, k))) {
      a :| a in s.addressGroups && s.addressGroups[a].name == SetName(h, SetKey(p, k));
      picks, t := [a], s;
      GoesOne(e, c, h, s, FindSet(p, peers, k), [], a);
      assert [] + [a] == picks;
    } else {
      picks, t, a := ["", ""], CreateAddressGroup(s, SetName(h, SetKey(p, k))), IdOf(s.next);
      GoesOne(e, c, h, s, FindSet(p, peers, k), [], "");
      GoesOne(e, c, h, s, FindSet(p, peers, k), [""], "");
      assert [] + [""] == [""] && [""] + [""] == picks;
    }
  }

  /** Read, added to, taken from: then the set holds what is wanted. */
  lemma FillCalls(e: Env, c: Cluster, h: string -> string, s: Store, p: Plan, peers: map<string, string>, k: nat,
                  a: string, want: set<string>) returns (t: Store)
    requires a in s.addressGroups && "" !in s.addressGroups
    ensures var read := s.addressGroups[a].addresses;
            var add := Call(e, c, h, s, AddTo(p, peers, k, a, want, read), NoFault, "");
            && Call(e, c, h, s, ReadSet(p, peers, k, a, want), NoFault, "") == (s, AddTo(p, peers, k, a, want, read))
            && add.1 == TakeFrom(p, peers, k, a, want, read)
            && Call(e, c, h, add.0, add.1, NoFault, "") == (t, FindSet(p, peers[SetKey(p, k) := a], k + 1))
    ensures SetsGrow(s, t) && a in t.addressGroups && t.addressGroups[a].name == s.addressGroups[a].name
    ensures t.addressGroups[a].addresses == want
  {
    var read := s.addressGroups[a].addresses;
    var u := Call(e, c, h, s, AddTo(p, peers, k, a, want, read), NoFault, "").0;
    assert u.addressGroups[a].addresses == read + (want - read);
    assert read + (want - read) - (read - want) == want;
    t := Call(e, c, h, u, TakeFrom(p, peers, k, a, want, read), NoFault, "").0;
  }

  lemma Filled(e: Env, c: Cluster, h: string -> string, s: Store, p: Plan, peers: map<string, string>, k: nat,
               a: string, want: set<string>)
    returns (t: Store)
    requires a in s.addressGroups && "" !in s.addressGroups
    ensures Goes(e, c, h, s, ReadSet(p, peers, k, a, want), ["", "", ""]) ==
              (t, FindSet(p, peers[SetKey(p, k) := a], k + 1))
    ensures SetsGrow(s, t) && a in t.addressGroups && t.addressGroups[a].name == s.addressGroups[a].name
    ensures t.addressGroups[a].addresses == want
  {
    hide Call, Goes;
    var first, second := ReadSet(p, peers, k, a, want), AddTo(p, peers, k, a, want, s.addressGroups[a].addresses);
    t := FillCalls(e, c, h, s, p, peers, k, a, want);
    var add := Call(e, c, h, s, second, NoFault, "");
    OneCall(e, c, h, add.0, add.1, "");
    CallThen(e, c, h, s, second, "", [""]);
    CallThen(e, c, h, s, first, "", ["", ""]);
    assert [""] + [""] == ["", ""] && [""] + ["", ""] == ["", "", ""];
  }

  /** One pod set after another, to the last. */
  lemma {:induction false} AllFound(e: Env, c: Cluster, h: string -> string, s: Store, p: Plan,
                                    peers: map<string, string>, k: nat)
    returns (picks: seq<string>, t: Store, all: map<string, string>)
    requires k <= |p.keys| && "" !in s.addressGroups && forall x :: x in peers ==> peers[x] in s.addressGroups
    ensures Goes(e, c, h, s, FindSet(p, peers, k), picks) == (t, FindSet(p, all, |p.keys|))
    ensures SetsGrow(s, t) && all.Keys == peers.Keys + Members(p.keys[k..])
    ensures forall x :: x in all ==> all[x] in t.addressGroups
    decreases |p.keys| - k
  {
    hide Goes, ListedForms;
    if k == |p.keys| {
      GoesNowhere(e, c, h, s, FindSet(p, peers, k));
      picks, t, all := [], s, peers;
      assert p.keys[k..] == [];
    } else {
      var here, u, a := Found(e, c, h, s, p, peers, k);
      var v := Filled(e, c, h, u, p, peers, k, a, ListedForms(e, c, p, k));
      GoesOn(e, c, h, s, FindSet(p, peers, k), here, ["", "", ""]);
      var more, w, rest := AllFound(e, c, h, v, p, peers[p.keys[k] := a], k + 1);
      GoesOn(e, c, h, s, FindSet(p, peers, k), here + ["", "", ""], more);
      picks, t, all := here + ["", "", ""] + more, w, rest;
      assert p.keys[k..] == [p.keys[k]] + p.keys[k + 1..];
    }
  }

  // ----- the group and its rules -----

  /** Every pod set the rules name has been found. */
  predicate Supplied(s: Store, rules: seq<SGRule>, peers: map<string, string>) {
    && (forall r :: r in rules ==> r.remoteCIDR == "" && r.remoteAddressGroup != "" ==> r.remoteAddressGroup in peers)
    && (forall x :: x in peers ==> peers[x] in s.addressGroups) && "" !in s.addressGroups
  }

  predicate Nameable(s: Store, want: seq<NRule>) {
    forall w :: w in want && w.addressGroup != "" ==> w.addressGroup in s.addressGroups
  }

  lemma {:induction false} AllSent(s: Store, rules: seq<SGRule>, peers: map<string, string>)
    requires Supplied(s, rules, peers)
    ensures WantOf(rules, peers).Some? && Nameable(s, WantOf(rules, peers).value)
  {
    if rules != [] {
      var n := |rules| - 1;
      assert rules[n] in rules && forall r :: r in rules[..n] ==> r in rules;
      AllSent(s, rules[..n], peers);
    }
  }

  /** The group found, or made, and described as the policy's. */
  lemma GroupRead(e: Env, c: Cluster, h: string -> string, s: Store, p: Plan, peers: map<string, string>)
    returns (picks: seq<string>, t: Store, g: string)
    requires "" !in s.groups
    ensures g in t.groups && g != "" && t.groups[g].name == GroupName(h, p.key)
    ensures Goes(e, c, h, s, FindGroup(p, peers), picks) == (t, ReadRules(p, peers, g))
    ensures t.addressGroups == s.addressGroups && t.ports == s.ports
  {
    hide GroupName, Describing, DefaultRules, Goes;
    var first := FindGroup(p, peers);
    if GroupExists(s, GroupName(h, p.key)) {
      g :| g in s.groups && s.groups[g].name == GroupName(h, p.key);
      if s.groups[g].description == Describing(p.key) {
        OneCall(e, c, h, s, first, g);
        picks, t := [g], s;
      } else {
        OneCall(e, c, h, s, Correct(p, peers, g), "");
        CallThen(e, c, h, s, first, g, [""]);
        picks, t := [g] + [""], Describe(s, g, Describing(p.key)).0;
      }
    } else {
      g := IdOf(s.next);
      OneCall(e, c, h, s, MakeGroup(p, peers), "");
      CallThen(e, c, h, s, first, "", [""]);
      picks, t := [""] + [""], CreateGroup(s, GroupName(h, p.key), Describing(p.key) + " [" + ManagedBy + "]");
    }
  }

  /** And its rules read. */
  lemma GroupFound(e: Env, c: Cluster, h: string -> string, s: Store, p: Plan, peers: map<string, string>)
    returns (picks: seq<string>, t: Store, g: string, want: seq<NRule>)
    requires Supplied(s, p.ruleSet.rules, peers) && "" !in s.groups
    ensures g in t.groups && g != "" && t.groups[g].name == GroupName(h, p.key)
    ensures Goes(e, c, h, s, FindGroup(p, peers), picks) == (t, AddRule(p, g, t.groups[g].rules, want, 0))
    ensures t.addressGroups == s.addressGroups && t.ports == s.ports && Nameable(t, want)
    ensures WantOf(p.ruleSet.rules, peers) == Some(want)
  {
    AllSent(s, p.ruleSet.rules, peers);
    hide WantOf, GroupName, Describing, Supplied, Goes;
    want := WantOf(p.ruleSet.rules, peers).value;
    var found;
    found, t, g := GroupRead(e, c, h, s, p, peers);
    OneCall(e, c, h, t, ReadRules(p, peers, g), "");
    GoesOn(e, c, h, s, FindGroup(p, peers), found, [""]);
    picks := found + [""];
  }

  /** Only the rules of one group have changed. */
  ghost predicate RulesOnly(s: Store, t: Store, g: string) {
    t.addressGroups == s.addressGroups && t.ports == s.ports && g in t.groups
    && (g in s.groups ==> t.groups[g].name == s.groups[g].name)
  }

  lemma AddCall(e: Env, c: Cluster, h: string -> string, s: Store, p: Plan, g: string, have: seq<StoredRule>,
                want: seq<NRule>, k: nat)
    requires k <= |want| && g in s.groups && Nameable(s, want)
    ensures var (u, v) := Call(e, c, h, s, AddRule(p, g, have, want, k), NoFault, "");
            && v == (if k == |want| then DropRule(p, g, have, want, 0) else AddRule(p, g, have, want, k + 1))
            && RulesOnly(s, u, g)
  {
    hide HasRule, HoldsAlias;
    if k < |want| { assert want[k] in want; }
  }

  lemma {:induction false} RulesAdded(e: Env, c: Cluster, h: string -> string, s: Store, p: Plan, g: string,
                                      have: seq<StoredRule>, want: seq<NRule>, k: nat)
    returns (picks: seq<string>, t: Store)
    requires k <= |want| && g in s.groups && Nameable(s, want)
    ensures Goes(e, c, h, s, AddRule(p, g, have, want, k), picks) == (t, DropRule(p, g, have, want, 0))
    ensures RulesOnly(s, t, g)
    decreases |want| - k
  {
    hide Call, Goes;
    AddCall(e, c, h, s, p, g, have, want, k);
    var u := Call(e, c, h, s, AddRule(p, g, have, want, k), NoFault, "").0;
    if k == |want| {
      OneCall(e, c, h, s, AddRule(p, g, have, want, k), "");
      picks, t := [""], u;
    } else {
      var more;
      more, t := RulesAdded(e, c, h, u, p, g, have, want, k + 1);
      CallThen(e, c, h, s, AddRule(p, g, have, want, k), "", more);
      picks := [""] + more;
    }
  }

  lemma DropCall(e: Env, c: Cluster, h: string -> string, s: Store, p: Plan, g: string, have: seq<StoredRule>,
                 want: seq<NRule>, k: nat)
    requires k <= |have| && g in s.groups
    ensures var (u, v) := Call(e, c, h, s, DropRule(p, g, have, want, k), NoFault, "");
            && v == (if k == |have| then Remember(p, g, have, want) else DropRule(p, g, have, want, k + 1))
            && RulesOnly(s, u, g)
  {
    hide Without;
  }

  lemma {:induction false} RulesDropped(e: Env, c: Cluster, h: string -> string, s: Store, p: Plan, g: string,
                                        have: seq<StoredRule>, want: seq<NRule>, k: nat)
    returns (picks: seq<string>, t: Store)
    requires k <= |have| && g in s.groups
    ensures Goes(e, c, h, s, DropRule(p, g, have, want, k), picks) == (t, Remember(p, g, have, want))
    ensures RulesOnly(s, t, g)
    decreases |have| - k
  {
    hide Call, Goes;
    DropCall(e, c, h, s, p, g, have, want, k);
    var u := Call(e, c, h, s, DropRule(p, g, have, want, k), NoFault, "").0;
    if k == |have| {
      OneCall(e, c, h, s, DropRule(p, g, have, want, k), "");
      picks, t := [""], u;
    } else {
      var more;
      more, t := RulesDropped(e, c, h, u, p, g, have, want, k + 1);
      CallThen(e, c, h, s, DropRule(p, g, have, want, k), "", more);
      picks := [""] + more;
    }
  }

  // ----- a whole pass -----

  /** From taking a policy up to remembering it. */
  lemma PassEndsAlone(e: Env, c: Cluster, h: string -> string, s: Store, p: Plan)
    returns (picks: seq<string>, t: Store, g: string, have: seq<StoredRule>, want: seq<NRule>)
    requires "" !in s.addressGroups && "" !in s.groups && Members(p.keys) == p.ruleSet.peers.Keys && Lawful(p.ruleSet)
    ensures Goes(e, c, h, s, FindSet(p, map[], 0), picks) == (t, Remember(p, g, have, want))
    ensures g == "" <==> p.ruleSet.rules == []
    ensures g != "" ==> g in t.groups && t.groups[g].name == GroupName(h, p.key)
    ensures t.ports == s.ports
  {
    hide Call, Goes, GroupName, WantOf;
    var sets, u, peers := AllFound(e, c, h, s, p, map[], 0);
    assert p.keys[0..] == p.keys;
    OneCall(e, c, h, u, FindSet(p, peers, |p.keys|), "");
    SetsDone(e, c, h, u, p, peers);
    GoesOn(e, c, h, s, FindSet(p, map[], 0), sets, [""]);
    if p.ruleSet.rules == [] {
      picks, t, g, have, want := sets + [""], u, "", [], [];
    } else {
      assert Supplied(u, p.ruleSet.rules, peers);
      var found, v, group, rules := GroupFound(e, c, h, u, p, peers);
      g, have, want := group, v.groups[group].rules, rules;
      var adds, w := RulesAdded(e, c, h, v, p, g, have, want, 0);
      var drops;
      drops, t := RulesDropped(e, c, h, w, p, g, have, want, 0);
      GoesOn(e, c, h, s, FindSet(p, map[], 0), sets + [""], found);
      GoesOn(e, c, h, s, FindSet(p, map[], 0), sets + [""] + found, adds);
      GoesOn(e, c, h, s, FindSet(p, map[], 0), sets + [""] + found + adds, drops);
      picks := sets + [""] + found + adds + drops;
    }
  }

  lemma SetsDone(e: Env, c: Cluster, h: string -> string, s: Store, p: Plan, peers: map<string, string>)
    ensures Call(e, c, h, s, FindSet(p, peers, |p.keys|), NoFault, "") ==
              (s, if p.ruleSet.rules == [] then Remember(p, "", [], []) else FindGroup(p, peers))
  {
  }

  // ----- a whole sweep -----

  lemma DropGroupsCall(e: Env, c: Cluster, h: string -> string, s: Store, live: set<string>,
                       doomed: map<string, string>, kept: set<string>, g: string)
    requires g in doomed || doomed == map[]
    ensures Call(e, c, h, s, DropGroups(live, doomed, kept), NoFault, g) ==
              if doomed == map[] then (s, ListSets(kept))
              else (DeleteGroup(s, g).0, DropGroups(live, doomed - {g}, kept))
  {
    hide OnPort;
  }

  lemma {:induction false} GroupsDropped(e: Env, c: Cluster, h: string -> string, s: Store, live: set<string>,
                                         doomed: map<string, string>, kept: set<string>)
    returns (picks: seq<string>, t: Store)
    ensures Goes(e, c, h, s, DropGroups(live, doomed, kept), picks) == (t, ListSets(kept))
    ensures t.addressGroups == s.addressGroups && t.ports == s.ports
    ensures forall g :: g in t.groups <==> g in s.groups && (g !in doomed || OnPort(s, g))
    ensures forall g :: g in t.groups ==> t.groups[g] == s.groups[g]
    decreases |doomed|
  {
    hide Goes, Call;
    if doomed == map[] {
      DropGroupsCall(e, c, h, s, live, doomed, kept, "");
      OneCall(e, c, h, s, DropGroups(live, doomed, kept), "");
      picks, t := [""], s;
    } else {
      var g :| g in doomed;
      var u := DeleteGroup(s, g).0;
      DropGroupsCall(e, c, h, s, live, doomed, kept, g);
      assert (doomed - {g}).Keys == doomed.Keys - {g};
      assert |doomed - {g}| == |(doomed - {g}).Keys| && |doomed| == |doomed.Keys|;
      var more;
      more, t := GroupsDropped(e, c, h, u, live, doomed - {g}, kept);
      CallThen(e, c, h, s, DropGroups(live, doomed, kept), g, more);
      picks := [g] + more;
    }
  }

  lemma {:induction false} SetsDropped(e: Env, c: Cluster, h: string -> string, s: Store, sets: set<string>)
    returns (picks: seq<string>, t: Store)
    ensures Goes(e, c, h, s, DropSets(sets), picks) == (t, Idle)
    ensures t.groups == s.groups && t.ports == s.ports
    ensures forall a :: a in t.addressGroups <==> a in s.addressGroups && (a !in sets || Referenced(s, a))
    decreases |sets|
  {
    hide Goes, NeutronStore.Named;
    if sets == {} {
      OneCall(e, c, h, s, DropSets(sets), "");
      picks, t := [""], s;
    } else {
      var a :| a in sets;
      var u := DeleteAddressGroup(s, a).0;
      forall b ensures Referenced(u, b) <==> Referenced(s, b) { assert u.groups == s.groups; }
      var more;
      more, t := SetsDropped(e, c, h, u, sets - {a});
      CallThen(e, c, h, s, DropSets(sets), a, more);
      picks := [a] + more;
    }
  }

  lemma KeptReferenced(s: Store, t: Store, doomed: set<string>, a: string)
    requires a in KeptReferences(s, doomed)
    requires forall g :: g in s.groups && g !in doomed ==> g in t.groups && t.groups[g] == s.groups[g]
    ensures Referenced(t, a)
  {
    var g, r :| g in s.groups && g !in doomed && r in s.groups[g].rules && r.body.addressGroup == a;
    var i :| 0 <= i < |s.groups[g].rules| && s.groups[g].rules[i] == r;
    assert NeutronStore.Named(t.groups[g].rules, a);
  }

  lemma LeavesClean(s: Store, u: Store, t: Store, live: set<string>, served: set<string>, doomed: set<string>,
                    kept: set<string>, sets: set<string>)
    requires doomed == set g | g in s.groups && Doomed(s.groups[g], live, served)
    requires kept == KeptReferences(s, doomed) && u.addressGroups == s.addressGroups
    requires forall g :: g in u.groups <==> g in s.groups && (g !in doomed || OnPort(s, g))
    requires forall g :: g in u.groups ==> u.groups[g] == s.groups[g]
    requires sets == set a | a in u.addressGroups && HasPrefix(u.addressGroups[a].name, PeersPrefix) && a !in kept
    requires t.groups == u.groups
    requires forall a :: a in t.addressGroups <==> a in u.addressGroups && (a !in sets || Referenced(u, a))
    ensures SweptClean(s, t, live, served)
  {
    hide Doomed, MadeForGone, KeptReferences, OnPort, NeutronStore.Named;
    forall g | g in s.groups { DoomedExactly(s.groups[g], live, served); }
    forall a | a in kept ensures Referenced(t, a) { KeptReferenced(s, t, doomed, a); }
    forall a ensures Referenced(t, a) <==> Referenced(u, a) { }
    hide Referenced;
  }

  function DoomedNow(s: Store, live: set<string>, served: set<string>): map<string, string> {
    map g | g in s.groups && Doomed(s.groups[g], live, served) :: PolicyOf(s.groups[g].description)
  }

  lemma SweepEndsAlone(e: Env, c: Cluster, h: string -> string, s: Store, live: set<string>)
    returns (picks: seq<string>, t: Store)
    ensures Goes(e, c, h, s, ListGroups(live), picks) == (t, Idle)
    ensures SweptClean(s, t, live, c.served)
  {
    hide Goes, Doomed, PolicyOf, MadeForGone, KeptReferences, OnPort, SweptClean, Referenced;
    var doomed := DoomedNow(s, live, c.served);
    var kept := KeptReferences(s, doomed.Keys);
    OneCall(e, c, h, s, ListGroups(live), "");
    var drops, u := GroupsDropped(e, c, h, s, live, doomed, kept);
    var sets := set a | a in u.addressGroups && HasPrefix(u.addressGroups[a].name, PeersPrefix) && a !in kept;
    OneCall(e, c, h, u, ListSets(kept), "");
    hide Call;
    GoesOn(e, c, h, s, ListGroups(live), [""], drops);
    GoesOn(e, c, h, s, ListGroups(live), [""] + drops, [""]);
    var more;
    more, t := SetsDropped(e, c, h, u, sets);
    GoesOn(e, c, h, s, ListGroups(live), [""] + drops + [""], more);
    picks := [""] + drops + [""] + more;
    LeavesClean(s, u, t, live, c.served, doomed.Keys, kept, sets);
  }

  // ----- in the system -----

  function ActsOf(i: nat, picks: seq<string>): seq<Move> {
    seq(|picks|, k requires 0 <= k < |picks| => Act(i, NoFault, picks[k]))
  }

  lemma {:induction false} GoesActs(e: Env, h: string -> string, x: System, i: nat, picks: seq<string>)
    requires i < |x.tasks|
    ensures var y := Reached(e, h, x, ActsOf(i, picks));
            && |y.tasks| == |x.tasks| && y.world == x.world && y.baseline == x.baseline
            && (y.store, y.tasks[i]) == Goes(e, x.world.cluster, h, x.store, x.tasks[i], picks)
            && forall j :: 0 <= j < |x.tasks| && j != i ==> y.tasks[j] == x.tasks[j]
  {
    hide Call, Racing;
    if picks != [] {
      var init := picks[..|picks| - 1];
      GoesActs(e, h, x, i, init);
      assert ActsOf(i, picks)[..|picks| - 1] == ActsOf(i, init);
    }
  }

  /** Moves of one worker, its calls going through. */
  predicate Undisturbed(i: nat, moves: seq<Move>) {
    forall m :: m in moves ==>
      match m
      case TakePolicy(j, _, _) => j == i
      case TakeSweep(j) => j == i
      case Act(j, f, _) => j == i && f.NoFault?
      case _ => false
  }

  lemma {:induction false} ReachedMore(e: Env, h: string -> string, x: System, a: seq<Move>, b: seq<Move>)
    ensures Reached(e, h, x, a + b) == Reached(e, h, Reached(e, h, x, a), b)
  {
    hide Next;
    if b == [] {
      assert a + b == a;
    } else {
      var init, last := b[..|b| - 1], b[|b| - 1];
      assert (a + b)[..|a + b| - 1] == a + init;
      ReachedMore(e, h, x, a, init);
    }
  }

  lemma ReachedOne(e: Env, h: string -> string, x: System, m: Move)
    ensures Reached(e, h, x, [m]) == Next(e, h, x, m)
  {
    hide Next;
    assert [m][..0] == [];
  }

  lemma {:induction false} ListedOut(s: set<string>) returns (keys: seq<string>)
    ensures Members(keys) == s && Ordering.NoRepeats(keys)
    decreases s
  {
    keys := [];
    if s != {} {
      var k :| k in s;
      var rest := ListedOut(s - {k});
      keys := [k] + rest;
      assert forall x :: x in Members(rest) <==> x in s - {k};
    }
  }

  lemma SortedOut(s: set<string>) returns (keys: seq<string>)
    ensures Members(keys) == s && Ordering.NoRepeats(keys) && Ordering.SortedBy(keys, Ordering.StrLe)
  {
    var listed := ListedOut(s);
    keys := Ordering.SortStrings(listed);
    Ordering.SortIdempotent(listed);
    Ordering.SortMembers(listed, Ordering.StrLe);
    Ordering.PermutationNoRepeats(listed, keys);
  }

  lemma SafeStart(h: string -> string, x: System, key: string, p: Policy)
    requires Safe(h, x) && FindPolicy(x.world.policies, key) == Some(p)
    ensures "" !in x.store.groups && "" !in x.store.addressGroups && ValidPolicy(p)
  {
    hide CacheSafe, TaskSafe, KeysApart;
    GoodIs(h, x.store, x.baseline, x.raced);
  }

  /** What a pass leaves: the cache has the policy's group, which holds what one
      pass of its rules makes of it; or notes that it needs none. */
  ghost predicate PassedOver(h: string -> string, y: System, key: string, rs: RuleSet) {
    && key in y.cache && (y.cache[key] == "" <==> rs.rules == [])
    && (y.cache[key] != "" ==>
          && y.cache[key] in y.store.groups && y.store.groups[y.cache[key]].name == GroupName(h, key)
          && exists have, want :: PassedExactly(y.store, y.cache[key], have, want))
  }

  /** One worker has come round, and only it has moved. */
  predicate OnlyWorked(x: System, y: System, i: nat) {
    && y.world == x.world && Free(y, i) && |y.tasks| == |x.tasks|
    && forall j :: 0 <= j < |x.tasks| && j != i ==> y.tasks[j] == x.tasks[j]
  }

  lemma TakenUp(e: Env, h: string -> string, x: System, i: nat, key: string, p: Policy, keys: seq<string>)
    requires Free(x, i) && forall j :: 0 <= j < |x.tasks| ==> PassKey(x.tasks[j]) != Some(key)
    requires FindPolicy(x.world.policies, key) == Some(p) && Controllers.NamespaceIn(key) in x.world.cluster.served
    requires Translation(e, p).Ok? && Members(keys) == RulesNow(e, p).peers.Keys
    requires Ordering.NoRepeats(keys) && Ordering.SortedBy(keys, Ordering.StrLe)
    ensures Next(e, h, x, TakePolicy(i, key, keys)) ==
              x.(tasks := x.tasks[i := FindSet(Plan(key, RulesNow(e, p), keys), map[], 0)])
  {
    hide Translation, RulesOfPolicy, FindPolicy, Controllers.NamespaceIn, PassKey, Members;
  }

  lemma SafeStore(h: string -> string, x: System)
    requires Safe(h, x)
    ensures "" !in x.store.groups && "" !in x.store.addressGroups
  {
    hide WellFormed, CacheSafe, TaskSafe, KeysApart;
    GoodIs(h, x.store, x.baseline, x.raced);
  }

  /** The calls of a pass just taken up, to the last but one. */
  lemma PassMoves(e: Env, h: string -> string, x: System, i: nat, plan: Plan) returns (moves: seq<Move>)
    requires Safe(h, x) && i < |x.tasks| && x.tasks[i] == FindSet(plan, map[], 0)
    requires Members(plan.keys) == plan.ruleSet.peers.Keys && Lawful(plan.ruleSet)
    ensures Undisturbed(i, moves)
    ensures var y := Reached(e, h, x, moves);
            && |y.tasks| == |x.tasks| && y.world == x.world
            && (forall j :: 0 <= j < |x.tasks| && j != i ==> y.tasks[j] == x.tasks[j])
            && y.tasks[i].Remember? && y.tasks[i].plan == plan && (y.tasks[i].group == "" <==> plan.ruleSet.rules == [])
            && (y.tasks[i].group != "" ==>
                  y.tasks[i].group in y.store.groups && y.store.groups[y.tasks[i].group].name == GroupName(h, plan.key))
  {
    hide Safe, Call, Goes, Lawful, GroupName, Members;
    SafeStore(h, x);
    var picks, t, g, have, want := PassEndsAlone(e, x.world.cluster, h, x.store, plan);
    GoesActs(e, h, x, i, picks);
    moves := ActsOf(i, picks);
    hide Reached;
  }

  /** From any safe state: a free worker that takes a listed policy nobody else is
      at, and is left to itself with its calls going through, comes to the end of
      its pass. */
  lemma PassGoesThrough(e: Env, h: string -> string, x: System, i: nat, key: string, p: Policy)
    returns (moves: seq<Move>)
    requires Injective(h) && Safe(h, x) && Free(x, i)
    requires forall j :: 0 <= j < |x.tasks| ==> PassKey(x.tasks[j]) != Some(key)
    requires FindPolicy(x.world.policies, key) == Some(p) && Controllers.NamespaceIn(key) in x.world.cluster.served
    requires Translation(e, p).Ok?
    ensures Undisturbed(i, moves)
    ensures OnlyWorked(x, Reached(e, h, x, moves), i) && Safe(h, Reached(e, h, x, moves))
    ensures PassedOver(h, Reached(e, h, x, moves), key, RulesNow(e, p))
  {
    hide Safe, Injective, Lawful, Translation, RulesOfPolicy, RulesNow, Next, Reached, PassedOver, OnlyWorked,
         Undisturbed, GroupName, PassKey, FindPolicy, Controllers.NamespaceIn;
    SafeStart(h, x, key, p);
    PolicyFacts.PolicyIsLawful(e, p);
    RulesNowAre(e, p);
    var keys := SortedOut(RulesNow(e, p).peers.Keys);
    var plan := Plan(key, RulesNow(e, p), keys);
    TakenUp(e, h, x, i, key, p, keys);
    var take := [TakePolicy(i, key, keys)];
    ReachedOne(e, h, x, take[0]);
    RunSafe(e, h, x, take);
    var begun := Reached(e, h, x, take);
    var calls := PassMoves(e, h, begun, i, plan);
    RunSafe(e, h, begun, calls);
    var ended := Reached(e, h, begun, calls);
    var last := [Act(i, NoFault, "")];
    ReachedOne(e, h, ended, last[0]);
    RunSafe(e, h, ended, last);
    Remembered(e, h, ended, i);
    ReachedMore(e, h, x, take, calls);
    ReachedMore(e, h, x, take + calls, last);
    moves := take + calls + last;
    AllUndisturbed(i, take, calls, last);
    EndsWell(h, x, begun, ended, Reached(e, h, x, moves), i, plan);
  }

  lemma RulesNowAre(e: Env, p: Policy)
    requires Translation(e, p).Ok?
    ensures RulesNow(e, p) == RulesOfPolicy(Translation(e, p).value)
  {
    hide Translation, RulesOfPolicy;
  }

  lemma AllUndisturbed(i: nat, take: seq<Move>, calls: seq<Move>, last: seq<Move>)
    requires |take| == 1 == |last| && take[0].TakePolicy? && take[0].worker == i && last[0] == Act(i, NoFault, "")
    requires Undisturbed(i, calls)
    ensures Undisturbed(i, take + calls + last)
  {
  }

  lemma EndsWell(h: string -> string, x: System, begun: System, ended: System, y: System, i: nat, plan: Plan)
    requires Free(x, i) && begun == x.(tasks := x.tasks[i := FindSet(plan, map[], 0)])
    requires |ended.tasks| == |x.tasks| && ended.world == x.world
    requires forall j :: 0 <= j < |x.tasks| && j != i ==> ended.tasks[j] == begun.tasks[j]
    requires ended.tasks[i].Remember? && ended.tasks[i].plan == plan
    requires ended.tasks[i].group == "" <==> plan.ruleSet.rules == []
    requires ended.tasks[i].group != "" ==>
               && ended.tasks[i].group in ended.store.groups
               && ended.store.groups[ended.tasks[i].group].name == GroupName(h, plan.key)
               && PassedExactly(ended.store, ended.tasks[i].group, ended.tasks[i].have, ended.tasks[i].rules)
    requires y.store == ended.store && y.world == ended.world && y.tasks == ended.tasks[i := Idle]
    requires y.cache == ended.cache[plan.key := ended.tasks[i].group]
    ensures OnlyWorked(x, y, i) && PassedOver(h, y, plan.key, plan.ruleSet)
  {
    hide PassedExactly, GroupName;
  }

  /** The last step of a pass. */
  lemma Remembered(e: Env, h: string -> string, x: System, i: nat)
    requires i < |x.tasks| && x.tasks[i].Remember? && Safe(h, x)
    ensures var t, y := x.tasks[i], Next(e, h, x, Act(i, NoFault, ""));
            && y.store == x.store && y.world == x.world && y.tasks == x.tasks[i := Idle]
            && y.cache == x.cache[t.plan.key := t.group]
    ensures x.tasks[i].group != "" ==> PassedExactly(x.store, x.tasks[i].group, x.tasks[i].have, x.tasks[i].rules)
  {
    hide StoreGood, CacheSafe, KeysApart, WellFormed, PassedExactly, Racing, Own;
    assert TaskSafe(h, x.store, x.baseline, x.raced, x.tasks[i]);
  }

  /** And so does a sweep, with everything swept. */
  lemma SweepGoesThrough(e: Env, h: string -> string, x: System, i: nat) returns (moves: seq<Move>)
    requires Free(x, i)
    ensures Undisturbed(i, moves)
    ensures OnlyWorked(x, Reached(e, h, x, moves), i)
    ensures SweptClean(x.store, Reached(e, h, x, moves).store, set p | p in x.world.policies :: p.Key(),
                       x.world.cluster.served)
  {
    hide Call, Goes, SweptClean, Racing;
    var live := set p | p in x.world.policies :: p.Key();
    assert live == Controllers.KeysOfPolicies(x.world.policies);
    ReachedOne(e, h, x, TakeSweep(i));
    var begun := x.(tasks := x.tasks[i := ListGroups(live)]);
    var picks, t := SweepEndsAlone(e, x.world.cluster, h, x.store, live);
    GoesActs(e, h, begun, i, picks);
    ReachedMore(e, h, x, [TakeSweep(i)], ActsOf(i, picks));
    moves := [TakeSweep(i)] + ActsOf(i, picks);
    hide Reached;
  }

  /** A worker that takes the key of a policy that is gone forgets it. */
  lemma GoneForgotten(e: Env, h: string -> string, x: System, i: nat, key: string, keys: seq<string>)
    requires Free(x, i) && forall j :: 0 <= j < |x.tasks| ==> PassKey(x.tasks[j]) != Some(key)
    requires FindPolicy(x.world.policies, key).None? && Controllers.NamespaceIn(key) in x.world.cluster.served
    ensures Next(e, h, x, TakePolicy(i, key, keys)) == x.(cache := x.cache - {key})
  {
    hide FindPolicy, Controllers.NamespaceIn, PassKey;
  }

  lemma PodTakenUp(e: Env, h: string -> string, x: System, i: nat, key: string, pod: Pod, list: seq<string>)
    requires Free(x, i) && forall j :: 0 <= j < |x.tasks| ==> PodOf(x.tasks[j]) != Some(key)
    requires FindPod(x.world.cluster.pods, key) == Some(pod) && Controllers.NamespaceIn(key) in x.world.cluster.served
    requires key in x.world.placed && ListOf(e, x.baseline, x.cache, x.world, pod) == Ok(list)
    ensures Next(e, h, x, TakePod(i, key)) == x.(tasks := x.tasks[i := ReadPort(key, x.world.placed[key], list)])
  {
    hide ListOf, FindPod, Controllers.NamespaceIn, PodOf;
  }

  /** And one that takes a placed pod, whose list the cache allows and Neutron
      would accept, brings its port to that list in two calls at most. */
  lemma PodGoesThrough(e: Env, h: string -> string, x: System, i: nat, key: string, pod: Pod, list: seq<string>)
    requires Free(x, i) && forall j :: 0 <= j < |x.tasks| ==> PodOf(x.tasks[j]) != Some(key)
    requires FindPod(x.world.cluster.pods, key) == Some(pod) && Controllers.NamespaceIn(key) in x.world.cluster.served
    requires key in x.world.placed && ListOf(e, x.baseline, x.cache, x.world, pod) == Ok(list)
    requires x.world.placed[key] in x.store.ports && forall g :: g in list ==> g in x.store.groups
    ensures var moves := [TakePod(i, key), Act(i, NoFault, ""), Act(i, NoFault, "")];
            var y, port := Reached(e, h, x, moves), x.world.placed[key];
            && OnlyWorked(x, y, i) && port in y.store.ports && SameGroups(y.store.ports[port], list)
            && y.store == x.store.(ports := x.store.ports[port := y.store.ports[port]])
  {
    var port, act := x.world.placed[key], Act(i, NoFault, "");
    PodTakenUp(e, h, x, i, key, pod, list);
    ReachedOne(e, h, x, TakePod(i, key));
    var taken := Reached(e, h, x, [TakePod(i, key)]);
    PortCalls(e, h, taken, i, key, port, list);
    ReachedMore(e, h, x, [TakePod(i, key)], [act, act]);
    ReachedOne(e, h, taken, act);
    ReachedMore(e, h, taken, [act], [act]);
    ReachedOne(e, h, Next(e, h, taken, act), act);
    assert [act] + [act] == [act, act] && [TakePod(i, key)] + [act, act] == [TakePod(i, key), act, act];
    hide Reached, Next, ListOf;
  }

  lemma PortCalls(e: Env, h: string -> string, x: System, i: nat, key: string, port: string, list: seq<string>)
    requires i < |x.tasks| && x.tasks[i] == ReadPort(key, port, list)
    requires port in x.store.ports && forall g :: g in list ==> g in x.store.groups
    ensures var y := Next(e, h, Next(e, h, x, Act(i, NoFault, "")), Act(i, NoFault, ""));
            && y.tasks == x.tasks[i := Idle] && y.world == x.world
            && port in y.store.ports && SameGroups(y.store.ports[port], list)
            && y.store == x.store.(ports := x.store.ports[port := y.store.ports[port]])
  {
    hide Racing, Ordering.SortStrings;
    Controllers.SameAsItself(list);
    if Ordering.SortStrings(x.store.ports[port]) == list {
      Controllers.SortedSameGroups(x.store.ports[port], list);
      assert x.store.ports == x.store.ports[port := x.store.ports[port]];
    }
    hide SameGroups;
  }
}
