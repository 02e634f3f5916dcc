/** What holds after any run of interleaved calls, and what two workers can do to
    each other. */
module InterleavingRuns {
  import opened Wrappers
  import opened Faults
  import opened Text
  import opened NetworkPolicy
  import opened Translate
  import opened RuleSets
  import opened NeutronStore
  import opened NeutronClient
  import opened RulePass
  import opened RuleSync
  import opened Baseline
  import opened AddressSync
  import opened Sweeping
  import opened PolicySync
  import opened PolicyPass
  import opened Protocol
  import opened Interleaving
  import opened InterleavingSafety
  import Controllers
  import Ordering

  // ----- one call -----

  /** Only a port write writes a port. */
  lemma CallPorts(e: Env, c: Cluster, h: string -> string, s: Store, t: Task, f: Fault, pick: string)
    ensures var s' := Call(e, c, h, s, t, f, pick).0;
            if t.WritePort? then s' == s || s' == s.(ports := s.ports[t.port := t.list]) else s'.ports == s.ports
  {
    hide ListedForms, WantOf, OnPort, Referenced, HoldsAlias, Without, Describing, GroupName, SetName, SetExists,
         GroupExists, HasRule, HasPrefix, DefaultRules, IdOf, Doomed, KeptReferences, PolicyOf, Ordering.SortStrings;
  }

  lemma TaskIsSafe(h: string -> string, x: System, i: nat)
    requires Safe(h, x) && i < |x.tasks|
    ensures TaskSafe(h, x.store, x.baseline, x.raced, x.tasks[i])
  {
    hide TaskSafe, StoreGood, WellFormed, CacheSafe, KeysApart;
  }

  lemma Remembered(h: string -> string, s: Store, b: BaselineIds, raced: set<string>, t: Task,
                   cache: map<string, string>, returned: set<(string, string)>)
    requires CacheSafe(h, s, cache, returned)
    requires t.Remember? && TaskSafe(h, s, b, raced, t)
    ensures CacheSafe(h, s, cache[t.plan.key := t.group],
                      if t.group == "" then returned else returned + {(t.plan.key, t.group)})
  {
  }

  lemma CacheAfter(e: Env, h: string -> string, x: System, i: nat, f: Fault, pick: string)
    requires Safe(h, x) && i < |x.tasks|
    requires Stepped(h, x.store, x.baseline, x.raced, x.tasks[i], Acted(e, h, x, i, f, pick).store,
                     Acted(e, h, x, i, f, pick).tasks[i])
    ensures CacheSafe(h, Acted(e, h, x, i, f, pick).store, Acted(e, h, x, i, f, pick).cache,
                      Acted(e, h, x, i, f, pick).returned)
  {
    hide TaskSafe, StoreGood, WellFormed, KeysApart, Call, CacheSafe, Racing;
    var t, y := x.tasks[i], Acted(e, h, x, i, f, pick);
    InterleavingSafety.CacheKept(h, x.store, y.store, PassKey(t), Making(h, t), x.cache, x.returned);
    if t.Remember? {
      TaskIsSafe(h, x, i);
      RememberChangesNothing(e, x.world.cluster, h, x.store, t, f, pick);
      Remembered(h, y.store, x.baseline, x.raced, t, x.cache, x.returned);
    }
  }

  lemma RememberChangesNothing(e: Env, c: Cluster, h: string -> string, s: Store, t: Task, f: Fault, pick: string)
    requires t.Remember?
    ensures Call(e, c, h, s, t, f, pick) == (s, Idle)
  {
  }

  lemma WrittenAfter(e: Env, h: string -> string, x: System, i: nat, f: Fault, pick: string)
    requires Safe(h, x) && i < |x.tasks|
    ensures var y := Acted(e, h, x, i, f, pick);
            forall p :: p in y.written && p in y.store.ports ==> x.baseline.denyAll in y.store.ports[p]
  {
    hide StoreGood, WellFormed, KeysApart, Call, CacheSafe, Racing, Own, Creating, Deleting, PassedExactly, SetOurs;
    TaskIsSafe(h, x, i);
    CallPorts(e, x.world.cluster, h, x.store, x.tasks[i], f, pick);
  }

  lemma ActSafe(e: Env, h: string -> string, x: System, i: nat, f: Fault, pick: string)
    requires Injective(h) && Safe(h, x) && i < |x.tasks|
    ensures Safe(h, Acted(e, h, x, i, f, pick))
  {
    hide TaskSafe, StoreGood, WellFormed, KeysApart, Call, CacheSafe, Racing, Nudged, Injective;
    var t, y := x.tasks[i], Acted(e, h, x, i, f, pick);
    TaskIsSafe(h, x, i);
    CallSafe(e, x.world.cluster, h, x.store, x.baseline, x.raced, t, f, pick);
    CacheAfter(e, h, x, i, f, pick);
    WrittenAfter(e, h, x, i, f, pick);
    MoreRaced(h, y.store, x.baseline, x.raced, y.raced);
    KeysStayApart(x.tasks, i, y.tasks[i]);
    forall j | 0 <= j < |y.tasks| ensures TaskSafe(h, y.store, y.baseline, y.raced, y.tasks[j]) {
      if j == i {
        TaskMoreRaced(h, y.store, x.baseline, x.raced, y.raced, y.tasks[i]);
      } else {
        OthersSafe(h, x, y.store, y.raced, i, y.tasks[i], j);
      }
    }
  }

  // ----- the other moves -----

  /** An idle worker takes up work that is safe to start. */
  lemma TakenSafe(h: string -> string, x: System, i: nat, t: Task)
    requires Safe(h, x) && Free(x, i) && TaskSafe(h, x.store, x.baseline, x.raced, t)
    requires PassKey(t).Some? ==> forall j :: 0 <= j < |x.tasks| ==> PassKey(x.tasks[j]) != PassKey(t)
    ensures Safe(h, x.(tasks := x.tasks[i := t]))
  {
    hide TaskSafe, StoreGood, WellFormed, CacheSafe;
  }

  lemma PolicyTakenSafe(e: Env, h: string -> string, x: System, i: nat, key: string, keys: seq<string>)
    requires Safe(h, x) && Free(x, i)
    ensures Safe(h, PolicyTaken(e, x, i, key, keys))
  {
    hide StoreGood, WellFormed;
    var y := PolicyTaken(e, x, i, key, keys);
    if y.tasks != x.tasks {
      TakenSafe(h, x, i, y.tasks[i]);
    }
  }

  lemma PodTakenSafe(e: Env, h: string -> string, x: System, i: nat, key: string)
    requires Safe(h, x) && Free(x, i)
    ensures Safe(h, PodTaken(e, x, i, key))
  {
    hide StoreGood, WellFormed, ListOf;
    var y := PodTaken(e, x, i, key);
    if y.tasks != x.tasks {
      var pod := FindPod(x.world.cluster.pods, key).value;
      ListCarriesAnchor(e, x.baseline, x.cache, x.world, pod, y.tasks[i].list);
      TakenSafe(h, x, i, y.tasks[i]);
    }
  }

  lemma EditSafe(e: Env, h: string -> string, x: System, w: World, ports: map<string, seq<string>>)
    requires Injective(h) && Safe(h, x) && WellFormed(w)
    ensures Safe(h, Next(e, h, x, Edit(w, ports)))
  {
    hide TaskSafe, StoreGood, WellFormed, KeysApart, CacheSafe, Nudged, Injective;
    var y := Next(e, h, x, Edit(w, ports));
    PortsRewritten(h, x.store, ports, x.baseline, x.raced);
    InterleavingSafety.CacheKept(h, x.store, y.store, None, {}, x.cache, x.returned);
    forall j | 0 <= j < |y.tasks| ensures TaskSafe(h, y.store, y.baseline, y.raced, y.tasks[j]) {
      TaskKept(h, x.store, y.store, x.baseline, x.raced, x.raced, None, {}, x.tasks[j]);
    }
  }

  lemma NextSafe(e: Env, h: string -> string, x: System, m: Move)
    requires Injective(h) && Safe(h, x)
    ensures Safe(h, Next(e, h, x, m))
  {
    hide Safe, WellFormed, Acted, PolicyTaken, PodTaken, Injective;
    match m
    case Edit(w, ports) => if WellFormed(w) { EditSafe(e, h, x, w, ports); }
    case TakePolicy(i, key, keys) => if Free(x, i) { PolicyTakenSafe(e, h, x, i, key, keys); }
    case TakePod(i, key) => if Free(x, i) { PodTakenSafe(e, h, x, i, key); }
    case TakeSweep(i) =>
      if Free(x, i) { TakenSafe(h, x, i, ListGroups(Controllers.KeysOfPolicies(x.world.policies))); }
    case Act(i, f, pick) => if i < |x.tasks| { ActSafe(e, h, x, i, f, pick); }
  }

  // ----- any run -----

  lemma {:induction false} RunSafe(e: Env, h: string -> string, x: System, moves: seq<Move>)
    requires Injective(h) && Safe(h, x)
    ensures Safe(h, Reached(e, h, x, moves))
  {
    if moves != [] {
      RunSafe(e, h, x, moves[..|moves| - 1]);
      NextSafe(e, h, Reached(e, h, x, moves[..|moves| - 1]), moves[|moves| - 1]);
    }
  }

  /** Nothing is under way. */
  predicate Quiet(x: System) {
    forall i :: 0 <= i < |x.tasks| ==> x.tasks[i].Idle?
  }

  /** Where Run starts: the baseline resolved, every worker idle. */
  lemma StartSafe(h: string -> string, x: System)
    requires WellFormed(x.world) && StoreGood(h, x.store, x.baseline, x.raced)
    requires x.cache == map[] && x.returned == {} && x.written == {} && Quiet(x)
    ensures Safe(h, x)
  {
    hide StoreGood, WellFormed;
  }

  /** A pass under way: the rules of its group are between the ones it read and
      the ones it wants; a pass at its end has done exactly what one pass alone
      would have. Either way unless a sweep took the group. */
  ghost predicate RulesInOrder(s: Store, t: Task) {
    && ((t.AddRule? || t.DropRule? || (t.Remember? && t.group != "")) && t.group in s.groups ==>
          Between(Bodies(t.have), t.rules, Bodies(s.groups[t.group].rules)))
    && (t.Remember? && t.group in s.groups && t.group != "" ==>
          Bodies(s.groups[t.group].rules) == Pass(Bodies(t.have), t.rules))
  }

  lemma RulesAreInOrder(h: string -> string, s: Store, b: BaselineIds, raced: set<string>, t: Task)
    requires TaskSafe(h, s, b, raced, t)
    ensures RulesInOrder(s, t)
  {
    hide Own, CreateAll, Stale, Removed, NoAliases, Bodies, AllNormal;
    if t.AddRule? {
      CreatingBetween(Bodies(t.have), t.rules, t.i);
    } else if t.DropRule? {
      RemovedAre(t.have, t.rules, t.i);
      DeletingBetween(Bodies(t.have), t.rules, Removed(t.have, t.rules, t.i));
    } else if t.Remember? {
      DeletingBetween(Bodies(t.have), t.rules, Stale(Bodies(t.have), t.rules));
      PassIs(Bodies(t.have), t.rules);
    }
  }

  /** Every cached id was returned for that policy and names no other's group; no
      policy has two groups; no rule names a pod set that is gone; the baseline
      stands and every port written holds the anchor; and every group under
      change is between its old rules and its new. */
  ghost predicate Orderly(h: string -> string, y: System) {
    && (forall k :: k in y.cache && y.cache[k] != "" ==>
          (k, y.cache[k]) in y.returned && GroupOf(h, y.store, k, y.cache[k]))
    && OneGroupEach(h, y.store) && OneSetEach(h, y.store, y.raced) && References(y.store)
    && BaselineHolds(y.store, y.baseline)
    && (forall p :: p in y.written && p in y.store.ports ==> y.baseline.denyAll in y.store.ports[p])
    && (forall i :: 0 <= i < |y.tasks| ==> RulesInOrder(y.store, y.tasks[i]))
  }

  lemma SafeIsOrderly(h: string -> string, y: System)
    requires Safe(h, y)
    ensures Orderly(h, y)
  {
    hide RulesInOrder, TaskSafe, WellFormed, KeysApart, OneGroupEach, OneSetEach, BaselineHolds, References, GroupOf,
         Honest;
    forall i | 0 <= i < |y.tasks| ensures RulesInOrder(y.store, y.tasks[i]) {
      RulesAreInOrder(h, y.store, y.baseline, y.raced, y.tasks[i]);
    }
    GoodIsWhole(h, y.store, y.baseline, y.raced);
  }

  lemma GoodIsWhole(h: string -> string, s: Store, b: BaselineIds, raced: set<string>)
    requires StoreGood(h, s, b, raced)
    ensures References(s) && BaselineHolds(s, b) && OneGroupEach(h, s) && OneSetEach(h, s, raced)
  {
  }

  /** However the calls of the workers are interleaved, and whichever fail. */
  lemma AnyInterleaving(e: Env, h: string -> string, x: System, moves: seq<Move>)
    requires Injective(h) && Safe(h, x)
    ensures Orderly(h, Reached(e, h, x, moves))
  {
    hide Safe, Orderly, Reached;
    RunSafe(e, h, x, moves);
    SafeIsOrderly(h, Reached(e, h, x, moves));
  }

  lemma SafeIsSound(e: Env, h: string -> string, y: System)
    requires Safe(h, y)
    ensures Sound(e, h, y.store,
                  Control(y.world, y.baseline, y.cache, map[], y.returned, y.written, NoProgress, {}, {}))
  {
    hide ValidStore, WellFormed, KeysApart, TaskSafe, BaselineHolds, StoredForms, Honest, OneNamed, OneSet, CacheSafe;
    assert UniqueNames(h, y.store);
  }

  /** And when the dust settles, whatever pod sets a race made twice, what is
      left is a state the settle theorem starts from. */
  lemma QuietIsSound(e: Env, h: string -> string, x: System, moves: seq<Move>)
    requires Injective(h) && Safe(h, x)
    requires var y := Reached(e, h, x, moves); Quiet(y)
    ensures var y := Reached(e, h, x, moves);
            Sound(e, h, y.store,
                  Control(y.world, y.baseline, y.cache, map[], y.returned, y.written, NoProgress, {}, {}))
  {
    hide Safe, Reached, Sound;
    RunSafe(e, h, x, moves);
    SafeIsSound(e, h, Reached(e, h, x, moves));
  }

  // ----- a policy that stays keeps its group -----

  /** Nothing under way will leave the policy's cached id without its group. */
  ghost predicate TaskBacks(s: Store, t: Task, key: string) {
    && (PassKey(t) == Some(key) && (t.Correct? || t.ReadRules? || t.AddRule? || t.DropRule? || t.Remember?) ==>
          t.group == "" || t.group in s.groups)
    && (t.ListGroups? || t.DropGroups? ==> key in t.live)
  }

  ghost predicate Backed(x: System, key: string) {
    && (key in x.cache && x.cache[key] != "" ==> x.cache[key] in x.store.groups)
    && forall i :: 0 <= i < |x.tasks| ==> TaskBacks(x.store, x.tasks[i], key)
  }

  /** The groups of the policy survive this step. */
  ghost predicate GroupsStay(h: string -> string, s: Store, s': Store, key: string) {
    forall g :: g in s.groups && s.groups[g].name == GroupName(h, key) ==> g in s'.groups
  }

  lemma OnlySweepsDelete(e: Env, c: Cluster, h: string -> string, s: Store, t: Task, f: Fault, pick: string)
    requires !t.DropGroups?
    ensures s.groups.Keys <= Call(e, c, h, s, t, f, pick).0.groups.Keys
  {
    hide ListedForms, WantOf, OnPort, Referenced, HoldsAlias, Without, Describing, GroupName, SetName, Doomed,
         KeptReferences, SetExists, GroupExists, HasRule, HasPrefix;
  }

  lemma CallKeepsGroups(e: Env, c: Cluster, h: string -> string, s: Store, b: BaselineIds, raced: set<string>,
                        t: Task, f: Fault, pick: string, key: string)
    requires Injective(h) && TaskSafe(h, s, b, raced, t) && TaskBacks(s, t, key)
    ensures GroupsStay(h, s, Call(e, c, h, s, t, f, pick).0, key)
  {
    if t.DropGroups? {
      if pick in t.doomed { NamesApart(h, t.doomed[pick], key); }
    } else {
      hide Call, TaskSafe, GroupName, Injective;
      OnlySweepsDelete(e, c, h, s, t, f, pick);
    }
  }

  lemma PassKeepsBacking(e: Env, c: Cluster, h: string -> string, s: Store, t: Task, f: Fault, pick: string,
                         key: string)
    requires PassKey(t).Some? && TaskBacks(s, t, key)
    ensures var r := Call(e, c, h, s, t, f, pick); TaskBacks(r.0, r.1, key)
  {
    hide ListedForms, WantOf, OnPort, Referenced, HoldsAlias, Without, Describing, GroupName, SetName,
         SetExists, GroupExists, HasRule, HasPrefix, PortCall, SweepCall, DefaultRules, IdOf;
    if t.FindSet? || t.MakeSet? || t.ReadSet? || t.AddTo? || t.TakeFrom? {
      hide GroupCall, RuleCall, CreateAddressGroup, AddAddresses, RemoveAddresses;
      assert !SetCall(e, c, h, s, t, f, pick).1.ReadRules?;
    } else if t.AddRule? || t.DropRule? {
      hide SetCall, GroupCall;
    } else {
      hide SetCall, RuleCall;
    }
  }

  lemma OthersBack(e: Env, c: Cluster, h: string -> string, s: Store, t: Task, f: Fault, pick: string, key: string)
    requires PassKey(t) == None && TaskBacks(s, t, key)
    ensures var r := Call(e, c, h, s, t, f, pick); TaskBacks(r.0, r.1, key)
  {
    hide SetCall, RuleCall, DeleteGroup, DeleteAddressGroup, UpdatePort, Doomed, KeptReferences, HasPrefix, PolicyOf,
         Ordering.SortStrings;
  }

  lemma ActBacked(e: Env, h: string -> string, x: System, i: nat, f: Fault, pick: string, key: string)
    requires Injective(h) && Safe(h, x) && Backed(x, key) && i < |x.tasks|
    ensures Backed(Acted(e, h, x, i, f, pick), key)
  {
    var t, y := x.tasks[i], Acted(e, h, x, i, f, pick);
    hide Call, StoreGood, WellFormed, GroupName, Racing, TaskSafe, KeysApart, Injective;
    TaskIsSafe(h, x, i);
    CallKeepsGroups(e, x.world.cluster, h, x.store, x.baseline, x.raced, t, f, pick, key);
    if PassKey(t).Some? {
      PassKeepsBacking(e, x.world.cluster, h, x.store, t, f, pick, key);
    } else {
      OthersBack(e, x.world.cluster, h, x.store, t, f, pick, key);
    }
    if t.Remember? { RememberChangesNothing(e, x.world.cluster, h, x.store, t, f, pick); }
    forall j | 0 <= j < |y.tasks| ensures TaskBacks(y.store, y.tasks[j], key) {
      if j != i {
        TaskIsSafe(h, x, j);
        StillBacks(h, x.store, y.store, x.baseline, x.raced, x.tasks[j], key);
      }
    }
  }

  lemma StillBacks(h: string -> string, s: Store, s': Store, b: BaselineIds, raced: set<string>, t: Task, key: string)
    requires TaskSafe(h, s, b, raced, t) && TaskBacks(s, t, key) && GroupsStay(h, s, s', key)
    ensures TaskBacks(s', t, key)
  {
  }

  lemma NextBacked(e: Env, h: string -> string, x: System, m: Move, key: string)
    requires Injective(h) && Safe(h, x) && Backed(x, key) && FindPolicy(x.world.policies, key).Some?
    ensures Backed(Next(e, h, x, m), key)
  {
    hide Safe, WellFormed, Acted, Injective, PolicyTaken, PodTaken, TaskBacks;
    match m
    case Edit(_, _) => EditBacked(e, h, x, m, key);
    case TakePolicy(i, k, keys) => if Free(x, i) { PolicyTakenBacked(e, x, i, k, keys, key); }
    case TakePod(i, k) => if Free(x, i) { PodTakenBacked(e, x, i, k, key); }
    case TakeSweep(i) =>
      if Free(x, i) { TakenBacked(x, i, ListGroups(Controllers.KeysOfPolicies(x.world.policies)), key); }
    case Act(i, f, pick) => if i < |x.tasks| { ActBacked(e, h, x, i, f, pick, key); }
  }

  lemma EditBacked(e: Env, h: string -> string, x: System, m: Move, key: string)
    requires m.Edit? && Backed(x, key)
    ensures Backed(Next(e, h, x, m), key)
  {
    hide WellFormed;
  }

  /** Work just taken up holds no group yet, and a sweep starts from the policies
      that are there. */
  lemma TakenBacked(x: System, i: nat, t: Task, key: string)
    requires Backed(x, key) && Free(x, i)
    requires t.FindSet? || t.ReadPort? || (t.ListGroups? && key in t.live)
    ensures Backed(x.(tasks := x.tasks[i := t]), key)
  {
  }

  lemma PodTakenBacked(e: Env, x: System, i: nat, pod: string, key: string)
    requires Backed(x, key) && Free(x, i)
    ensures Backed(PodTaken(e, x, i, pod), key)
  {
    hide Backed, ListOf;
    var y := PodTaken(e, x, i, pod);
    if y != x { TakenBacked(x, i, y.tasks[i], key); }
  }

  lemma PolicyTakenBacked(e: Env, x: System, i: nat, policy: string, keys: seq<string>, key: string)
    requires Backed(x, key) && Free(x, i)
    ensures Backed(PolicyTaken(e, x, i, policy, keys), key)
  {
    hide Translation, RulesOfPolicy, Ordering.SortedBy, Ordering.NoRepeats, TaskBacks;
    var y := PolicyTaken(e, x, i, policy, keys);
    if y.tasks != x.tasks { TakenBacked(x, i, y.tasks[i], key); }
  }

  ghost predicate LiveThroughout(e: Env, h: string -> string, x: System, moves: seq<Move>, key: string) {
    forall n :: 0 <= n <= |moves| ==> FindPolicy(Reached(e, h, x, moves[..n]).world.policies, key).Some?
  }

  /** As long as a policy stays listed, the id the pod worker is given for it is
      that of a group that exists, whatever sweeps and passes are going on: no
      port write fails for want of it. */
  lemma {:induction false} LivePolicyKeepsGroup(e: Env, h: string -> string, x: System, moves: seq<Move>, key: string)
    requires Injective(h) && Safe(h, x) && Backed(x, key) && LiveThroughout(e, h, x, moves, key)
    ensures Backed(Reached(e, h, x, moves), key)
  {
    hide Safe, Backed, Injective, Next;
    if moves != [] {
      var init := moves[..|moves| - 1];
      assert forall n :: 0 <= n <= |init| ==> init[..n] == moves[..n];
      LivePolicyKeepsGroup(e, h, x, init, key);
      RunSafe(e, h, x, init);
      NextBacked(e, h, Reached(e, h, x, init), moves[|moves| - 1], key);
    }
  }

  /** It is so from the start for a policy not seen before any sweep under way. */
  lemma NewIsBacked(x: System, key: string)
    requires key !in x.cache
    requires forall i :: 0 <= i < |x.tasks| ==>
               PassKey(x.tasks[i]) != Some(key) && !x.tasks[i].ListGroups? && !x.tasks[i].DropGroups?
    ensures Backed(x, key)
  {
  }

  /** A sweep that read the policies before this one was there again takes its
      group from under the cache, when no port carries it yet. */
  lemma LateSweepTakesGroup(e: Env, h: string -> string, x: System, i: nat, key: string)
    requires i < |x.tasks| && x.tasks[i].DropGroups? && key in x.cache && x.cache[key] in x.store.groups
    requires x.cache[key] in x.tasks[i].doomed
    ensures var y := Acted(e, h, x, i, NoFault, x.cache[key]);
            y.cache == x.cache && (y.cache[key] !in y.store.groups <==> !OnPort(x.store, x.cache[key]))
  {
    assert x.tasks[i].doomed != map[];
  }

  // ----- what two passes can do to each other -----

  /** Two passes that have both looked for a pod set and not found it make it
      twice - exactly when neither call fails before it takes effect. */
  lemma RaceMakesTwo(e: Env, h: string -> string, x: System, i: nat, j: nat, f: Fault, g: Fault, pick: string)
    requires ValidStore(x.store) && i < |x.tasks| && j < |x.tasks| && i != j
    requires x.tasks[i].MakeSet? && x.tasks[j].MakeSet?
    requires SetKey(x.tasks[i].plan, x.tasks[i].i) == SetKey(x.tasks[j].plan, x.tasks[j].i)
    requires !SetExists(x.store, SetName(h, SetKey(x.tasks[i].plan, x.tasks[i].i)))
    ensures var name := SetName(h, SetKey(x.tasks[i].plan, x.tasks[i].i));
            var y := Acted(e, h, Acted(e, h, x, i, f, pick), j, g, pick);
            (!OneSet(y.store, name) <==> f != Before && g != Before) && name in y.raced
  {
    var t, u := x.tasks[i], x.tasks[j];
    var name := SetName(h, SetKey(t.plan, t.i));
    hide ListedForms, SetName, IdOf;
    CreateAddressGroupValid(x.store, name);
    IdsApart(x.store.next, x.store.next + 1);
    var y := Acted(e, h, x, i, f, pick);
    assert y.tasks[j] == u;
    assert name in Making(h, t) && name in Making(h, u);
    assert name in Racing(h, x, i);
    assert y.store == if f.Before? then x.store else CreateAddressGroup(x.store, name);
    var z := Acted(e, h, y, j, g, pick);
    assert z.store == if g.Before? then y.store else CreateAddressGroup(y.store, name);
    assert z.store.addressGroups.Keys <= x.store.addressGroups.Keys + {IdOf(x.store.next), IdOf(x.store.next + 1)};
    if f != Before && g != Before {
      assert IdOf(x.store.next) in z.store.addressGroups && IdOf(x.store.next + 1) in z.store.addressGroups;
    }
  }

  /** And two filling one pod set: an add answered "already so" is taken for
      done, and then every address it was to add is there exactly when none of
      them, or all of them, had come meanwhile. */
  lemma AgreedAdd(e: Env, c: Cluster, h: string -> string, s: Store, t: Task, pick: string)
    requires t.AddTo? && t.target in s.addressGroups && !(t.want <= t.read)
    ensures var (s', t') := Call(e, c, h, s, t, NoFault, pick);
            var missing, now := t.want - t.read, s.addressGroups[t.target].addresses;
            t'.TakeFrom? && t.target in s'.addressGroups
            && (missing <= s'.addressGroups[t.target].addresses <==> missing !! now || missing <= now)
  {
    var missing, now := t.want - t.read, s.addressGroups[t.target].addresses;
    assert forall a :: a in missing && a in now ==> a in now * missing;
    var (u, answer) := AddAddresses(s, t.target, missing);
    assert Call(e, c, h, s, t, NoFault, pick) == (u, TakeFrom(t.plan, t.peers, t.i, t.target, t.want, t.read));
  }
}
