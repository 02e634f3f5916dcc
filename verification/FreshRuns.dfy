/** Any interleaving of fresh work, call by call: the policies passed over stay
    prepared and complete. */
module FreshRuns {
  import opened Wrappers
  import opened Faults
  import opened NetworkPolicy
  import opened Translate
  import opened NeutronStore
  import opened NeutronClient
  import opened RulePass
  import opened RuleSync
  import opened Baseline
  import opened PolicySync
  import opened Preparation
  import opened Protocol
  import opened Interleaving
  import opened InterleavingSafety
  import opened InterleavingRuns
  import opened Freshness
  import opened FreshWork
  import opened FreshCalls
  import opened FreshRules
  import opened FreshProgress
  import opened Aging

  /** The rules a further pass over a prepared policy read all name a remote. */
  ghost predicate Ahead(g: Progress, t: Task) {
    (t.AddRule? || t.DropRule? || t.Remember?) && t.plan.key in g.passes ==>
      forall b :: b in Bodies(t.have) ==> NamesRemote(b)
  }

  ghost predicate TaskFresh(e: Env, h: string -> string, w: World, s: Store, g: Progress, t: Task) {
    Fresh(e, h, w, s, t) && Ahead(g, t)
  }

  /** No group of a listed policy is lost to a task or doomed by a sweep. */
  ghost predicate BacksAll(w: World, s: Store, t: Task) {
    forall q :: q in w.policies ==> TaskBacks(s, t, q.Key())
  }

  /** Work of the generation before: halfway, and over no policy counted since. */
  ghost predicate TaskPast(e: Env, h: string -> string, w: World, s: Store, g: Progress, t: Task) {
    Half(e, h, w, s, t) && (PassKey(t).Some? ==> PassKey(t).value !in g.passes)
  }

  ghost predicate TaskSteady(e: Env, h: string -> string, w: World, s: Store, g: Progress, t: Task, past: bool) {
    if past then TaskPast(e, h, w, s, g, t) else TaskFresh(e, h, w, s, g, t) && BacksAll(w, s, t)
  }

  /** past are the workers still at work begun before. */
  ghost predicate TasksSteady(e: Env, h: string -> string, x: System, g: Progress, past: set<nat>) {
    forall i :: 0 <= i < |x.tasks| ==> TaskSteady(e, h, x.world, x.store, g, x.tasks[i], i in past)
  }

  ghost predicate Steady(e: Env, h: string -> string, x: System, g: Progress, past: set<nat>) {
    Safe(h, x) && Holds(e, h, x.world, x.store, x.cache, g) && TasksSteady(e, h, x, g, past)
  }

  /** A pass that ends counts when it was begun since. */
  function Counted(g: Progress, past: set<nat>, i: nat, t: Task): Progress {
    if i in past then g else Advanced(g, t)
  }

  /** One more finished pass. */
  function Advanced(g: Progress, t: Task): Progress {
    if t.Remember? then
      Progress(g.passes[t.plan.key := if t.plan.key in g.passes then g.passes[t.plan.key] + 1 else 1])
    else g
  }

  // ----- one call, seen by one prepared policy -----

  /** Everything known before the call. */
  ghost predicate Known(e: Env, h: string -> string, x: System, g: Progress, past: set<nat>, i: nat) {
    Faithful(e) && Injective(h) && Steady(e, h, x, g, past) && i < |x.tasks|
  }

  lemma SteadyIs(e: Env, h: string -> string, x: System, g: Progress, past: set<nat>, i: nat)
    requires Known(e, h, x, g, past, i)
    ensures WellFormed(x.world) && ValidStore(x.store) && Honest(h, x.store) && OneGroupEach(h, x.store)
    ensures StoreGood(h, x.store, x.baseline, x.raced)
    ensures TaskSafe(h, x.store, x.baseline, x.raced, x.tasks[i])
    ensures i !in past ==> TaskFresh(e, h, x.world, x.store, g, x.tasks[i]) && BacksAll(x.world, x.store, x.tasks[i])
    ensures i in past ==> TaskPast(e, h, x.world, x.store, g, x.tasks[i])
    ensures KeysApart(x.tasks) && Safe(h, x)
  {
    assert TaskSteady(e, h, x.world, x.store, g, x.tasks[i], i in past);
    hide WellFormed, CacheSafe, KeysApart, TaskSafe, TaskFresh, BacksAll, TaskPast, Holds, Faithful, Injective,
         ValidStore;
    GoodIs(h, x.store, x.baseline, x.raced);
    GoodIsWhole(h, x.store, x.baseline, x.raced);
  }

  /** No task endangers the group of a policy it is not passing over. */
  lemma BacksOthers(e: Env, h: string -> string, x: System, g: Progress, past: set<nat>, i: nat, q: Policy)
    requires Known(e, h, x, g, past, i) && q in x.world.policies && PassKey(x.tasks[i]) != Some(q.Key())
    ensures TaskBacks(x.store, x.tasks[i], q.Key())
  {
    hide Safe, Holds, Faithful, WellFormed, StoreGood, TaskSafe, ValidStore, Honest, OneGroupEach, KeysApart, Injective,
         Fresh, PlanNow;
    SteadyIs(e, h, x, g, past, i);
  }

  /** Work over a policy counted since was begun since. */
  lemma OwnIsFresh(e: Env, h: string -> string, x: System, g: Progress, past: set<nat>, i: nat, q: Policy)
    requires Known(e, h, x, g, past, i) && q.Key() in g.passes && PassKey(x.tasks[i]) == Some(q.Key())
    ensures i !in past && TaskFresh(e, h, x.world, x.store, g, x.tasks[i]) && BacksAll(x.world, x.store, x.tasks[i])
  {
    hide Safe, Holds, Faithful, WellFormed, StoreGood, TaskSafe, ValidStore, Honest, OneGroupEach, KeysApart, Injective,
         TaskFresh, BacksAll, Half;
    SteadyIs(e, h, x, g, past, i);
  }

  /** What a call does not touch of a policy's group. */
  ghost predicate EntryStays(s: Store, t: Store, id: string) {
    id in s.groups ==> id in t.groups && t.groups[id] == s.groups[id]
  }

  /** A call of another policy's worker, of a pod's, or of a sweep. */
  lemma OtherEntryStays(e: Env, h: string -> string, x: System, g: Progress, past: set<nat>, i: nat, f: Fault,
                        pick: string, q: Policy, id: string)
    requires Known(e, h, x, g, past, i) && q in x.world.policies && PassKey(x.tasks[i]) != Some(q.Key())
    requires id in x.store.groups && x.store.groups[id].name == GroupName(h, q.Key())
    ensures EntryStays(x.store, Acted(e, h, x, i, f, pick).store, id)
  {
    hide Safe, Holds, Call, Faithful, WellFormed, Racing, StoreGood, TaskFresh, TaskSafe, TaskBacks, ValidStore, Honest,
         OneGroupEach, GroupName, KeysApart, Injective;
    SteadyIs(e, h, x, g, past, i);
    var t := x.tasks[i];
    CallSafe(e, x.world.cluster, h, x.store, x.baseline, x.raced, t, f, pick);
    BacksOthers(e, h, x, g, past, i, q);
    CallKeepsGroups(e, x.world.cluster, h, x.store, x.baseline, x.raced, t, f, pick, q.Key());
    if PassKey(t).Some? { NamesApart(h, PassKey(t).value, q.Key()); }
  }

  /** A call of its own worker that writes neither description nor rules. */
  lemma OwnEntryStays(e: Env, c: Cluster, h: string -> string, s: Store, t: Task, f: Fault, pick: string, id: string)
    requires ValidStore(s) && PassKey(t).Some? && !t.Correct? && !t.AddRule? && !t.DropRule?
    ensures EntryStays(s, Call(e, c, h, s, t, f, pick).0, id)
  {
    assert IdOf(s.next) !in s.groups;
    hide ValidStore, ListedForms, WantOf, Describing, GroupName, SetName, SetExists, GroupExists, IdOf, DefaultRules;
  }

  lemma PassesDone(e: Env, h: string -> string, x: System, g: Progress, q: Policy)
    requires Holds(e, h, x.world, x.store, x.cache, g) && q in x.world.policies && q.Key() in g.passes
    ensures g.passes[q.Key()] >= 1 && Translation(e, q).Ok?
    ensures Prepared(e, x.world.cluster, h, x.store, x.cache, q.Key(), RulesNow(e, q))
    ensures g.passes[q.Key()] >= 2 ==> Complete(e, x.world.cluster, h, x.store, x.cache, q.Key(), RulesNow(e, q))
  {
    hide Prepared, Complete;
  }

  lemma DoneIs(e: Env, h: string -> string, w: World, s: Store, s': Store, cache: map<string, string>, q: Policy,
               n: nat)
    requires Translation(e, q).Ok? && Keeps(e, w.cluster, h, s, s', cache, q)
    requires n >= 2 ==> Complete(e, w.cluster, h, s, cache, q.Key(), RulesNow(e, q))
    ensures PolicyDone(e, h, w, s', cache, q, n)
  {
    hide Prepared, Complete;
  }

  lemma PreparedName(e: Env, c: Cluster, h: string -> string, s: Store, cache: map<string, string>, q: Policy)
    requires ValidStore(s) && Translation(e, q).Ok? && Prepared(e, c, h, s, cache, q.Key(), RulesNow(e, q))
    ensures q.Key() in cache
    ensures cache[q.Key()] in s.groups ==> s.groups[cache[q.Key()]].name == GroupName(h, q.Key())
    ensures RulesNow(e, q).rules != [] ==> cache[q.Key()] in s.groups
  {
    assert "" !in s.groups;
    hide BodiesReady, ValidStore;
  }

  lemma KeptAlone(e: Env, h: string -> string, w: World, s: Store, t: Store, cache: map<string, string>, q: Policy)
    requires Faithful(e) && WellFormed(w) && ValidStore(s) && q in w.policies && Translation(e, q).Ok?
    requires SetsToward(e, h, w, s, t) && Prepared(e, w.cluster, h, s, cache, q.Key(), RulesNow(e, q))
    requires EntryStays(s, t, cache[q.Key()])
    ensures Keeps(e, w.cluster, h, s, t, cache, q)
  {
    hide Faithful, WellFormed, ValidStore, SetsToward, Prepared, Complete;
    PreparedName(e, w.cluster, h, s, cache, q);
    LeftAlone(e, h, w, s, t, cache, cache, q);
  }

  lemma CallGoesToward(e: Env, h: string -> string, x: System, g: Progress, past: set<nat>, i: nat, f: Fault,
                       pick: string)
    requires Known(e, h, x, g, past, i)
    ensures var r := Call(e, x.world.cluster, h, x.store, x.tasks[i], f, pick);
            && SetsToward(e, h, x.world, x.store, r.0)
            && (i !in past ==> Fresh(e, h, x.world, r.0, r.1)) && (i in past ==> Half(e, h, x.world, r.0, r.1))
  {
    hide Safe, Holds, Call, Faithful, WellFormed, Injective, StoreGood, TaskSafe, ValidStore, Honest, OneGroupEach,
         KeysApart, Fresh, SetsToward, Half, BacksAll, Ahead;
    SteadyIs(e, h, x, g, past, i);
    if i in past {
      HalfIsLoose(e, h, x.world, x.store, x.tasks[i]);
      CallLoose(e, h, x.world, x.store, x.tasks[i], f, pick);
    } else {
      CallFresh(e, h, x.world, x.store, x.baseline, x.raced, x.tasks[i], f, pick);
    }
  }

  lemma HalfIsLoose(e: Env, h: string -> string, w: World, s: Store, t: Task)
    requires Half(e, h, w, s, t)
    ensures Loose(e, h, w, s, t)
  {
    hide Loose;
  }

  /** The call of another worker leaves a policy's progress as it was. */
  lemma OtherCallKeeps(e: Env, h: string -> string, x: System, g: Progress, past: set<nat>, i: nat, f: Fault,
                       pick: string, q: Policy)
    requires Known(e, h, x, g, past, i) && q in x.world.policies && q.Key() in g.passes
    requires PassKey(x.tasks[i]) != Some(q.Key())
    ensures Translation(e, q).Ok? && Keeps(e, x.world.cluster, h, x.store, Acted(e, h, x, i, f, pick).store, x.cache, q)
  {
    hide Safe, Call, Faithful, WellFormed, Injective, StoreGood, TaskSafe, ValidStore, Honest, OneGroupEach, KeysApart,
         TaskFresh, SetsToward, Prepared, Complete, Holds, PolicyDone, BacksAll, Racing, TasksSteady, EntryStays,
         GroupName, Keeps, RulesNow;
    SteadyIs(e, h, x, g, past, i);
    PassesDone(e, h, x, g, q);
    PreparedName(e, x.world.cluster, h, x.store, x.cache, q);
    CallGoesToward(e, h, x, g, past, i, f, pick);
    var s' := Acted(e, h, x, i, f, pick).store;
    var id := x.cache[q.Key()];
    if id in x.store.groups {
      OtherEntryStays(e, h, x, g, past, i, f, pick, q, id);
    } else {
      NoEntry(x.store, s', id);
    }
    KeptAlone(e, h, x.world, x.store, s', x.cache, q);
  }

  lemma NoEntry(s: Store, t: Store, id: string)
    requires id !in s.groups
    ensures EntryStays(s, t, id)
  {
  }

  // ----- and by its own worker -----

  /** The task's group is the one the cache has. */
  lemma OwnIsCached(e: Env, h: string -> string, x: System, g: Progress, past: set<nat>, i: nat, q: Policy)
    requires Known(e, h, x, g, past, i) && q in x.world.policies && q.Key() in g.passes
    requires var t := x.tasks[i];
             PassKey(t) == Some(q.Key())
             && (t.Correct? || t.ReadRules? || t.AddRule? || t.DropRule? || (t.Remember? && t.group != ""))
    ensures Translation(e, q).Ok? && q.Key() in x.cache && x.cache[q.Key()] == x.tasks[i].group
    ensures x.tasks[i].group in x.store.groups
    ensures RulesNow(e, q).rules != []
    ensures BodiesReady(e, x.world.cluster, h, x.store, RulesNow(e, q), Bodies(x.store.groups[x.tasks[i].group].rules))
  {
    SteadyIs(e, h, x, g, past, i);
    var t := x.tasks[i];
    OwnNamed(h, x.store, x.baseline, x.raced, t);
    assert TaskBacks(x.store, t, q.Key());
    assert Fresh(e, h, x.world, x.store, t);
    FreshPlan(e, h, x.world, x.store, t, q);
    hide Safe, Faithful, WellFormed, Injective, StoreGood, TaskSafe, ValidStore, Honest, KeysApart, TaskFresh, Fresh,
         Complete, Holds, PolicyDone, TasksSteady, GroupName, BodiesReady, RulesNow, Own;
    PassesDone(e, h, x, g, q);
    PreparedName(e, x.world.cluster, h, x.store, x.cache, q);
    assert OneNamed(x.store, GroupName(h, q.Key()));
  }

  lemma OwnNamed(h: string -> string, s: Store, b: BaselineIds, raced: set<string>, t: Task)
    requires TaskSafe(h, s, b, raced, t)
    requires t.Correct? || t.ReadRules? || t.AddRule? || t.DropRule? || (t.Remember? && t.group != "")
    ensures t.group != "" && (t.group in s.groups ==> s.groups[t.group].name == GroupName(h, t.plan.key))
  {
    hide Creating, Deleting, PassedExactly;
  }

  lemma FreshHasPlan(e: Env, h: string -> string, w: World, s: Store, t: Task)
    requires PassKey(t).Some? && Fresh(e, h, w, s, t)
    ensures PlanNow(e, w, t.plan)
  {
    hide PeersFull, AllMeant, SetUnderWay, FillingAt, PlanNow, AllLive;
  }

  lemma FreshRulesAre(e: Env, h: string -> string, w: World, s: Store, t: Task)
    requires Fresh(e, h, w, s, t)
    ensures t.Correct? || t.ReadRules? || t.AddRule? || t.DropRule? || (t.Remember? && t.group != "") ==>
              t.plan.ruleSet.rules != []
    ensures t.AddRule? || t.DropRule? || (t.Remember? && t.group != "") ==>
              AllMeant(e, h, w, s, t.plan.ruleSet, t.rules)
    ensures t.Remember? && t.group == "" ==> t.plan.ruleSet.rules == []
  {
    hide PeersFull, AllMeant, SetUnderWay, FillingAt, PlanNow, AllLive;
  }

  lemma FreshPlan(e: Env, h: string -> string, w: World, s: Store, t: Task, q: Policy)
    requires WellFormed(w) && q in w.policies && Fresh(e, h, w, s, t)
    requires PassKey(t) == Some(q.Key())
    ensures Translation(e, q).Ok? && t.plan.ruleSet == RulesNow(e, q)
    ensures t.Correct? || t.ReadRules? || t.AddRule? || t.DropRule? || (t.Remember? && t.group != "") ==>
              RulesNow(e, q).rules != []
    ensures t.AddRule? || t.DropRule? || (t.Remember? && t.group != "") ==>
              AllMeant(e, h, w, s, RulesNow(e, q), t.rules)
    ensures t.Remember? && t.group == "" ==> RulesNow(e, q).rules == []
  {
    hide Fresh, AllMeant, RulesNow, WellFormed, PlanNow;
    FreshHasPlan(e, h, w, s, t);
    FreshRulesAre(e, h, w, s, t);
    PlanIs(e, w, t.plan, q);
  }

  lemma IsOwnWork(e: Env, h: string -> string, x: System, g: Progress, past: set<nat>, i: nat, q: Policy)
    requires Known(e, h, x, g, past, i) && q in x.world.policies && q.Key() in g.passes
    requires PassKey(x.tasks[i]) == Some(q.Key())
    requires x.tasks[i].AddRule? || x.tasks[i].DropRule?
    ensures OwnWork(e, h, x.world, x.store, x.cache, q, x.tasks[i])
    ensures forall b :: b in Bodies(x.tasks[i].have) ==> NamesRemote(b)
  {
    var t := x.tasks[i];
    hide Safe, Faithful, WellFormed, Injective, StoreGood, TaskSafe, ValidStore, Honest, KeysApart, Fresh, BacksAll,
         Complete, Prepared, Holds, PolicyDone, TasksSteady, GroupName, BodiesReady, RulesNow, AllMeant, Steady,
         OneGroupEach;
    SteadyIs(e, h, x, g, past, i);
    FreshPlan(e, h, x.world, x.store, t, q);
    OwnIsCached(e, h, x, g, past, i, q);
    KnownHolds(e, h, x, g, past, i);
    PassesDone(e, h, x, g, q);
  }

  lemma RuleBounds(h: string -> string, x: System, i: nat)
    requires i < |x.tasks| && TaskSafe(h, x.store, x.baseline, x.raced, x.tasks[i])
    ensures x.tasks[i].DropRule? ==>
              Deleting(x.store, x.tasks[i].group, x.tasks[i].have, x.tasks[i].rules, x.tasks[i].i)
  {
    hide Own, Creating, Deleting;
  }

  lemma RuleCallStores(s: Store, t: Task, f: Fault)
    requires t.AddRule? || t.DropRule?
    ensures var u := RuleCall(s, t, f).0;
            || u == s
            || (t.AddRule? && t.i < |t.rules| && u == CreateRule(s, t.group, t.rules[t.i]).0)
            || (t.DropRule? && t.i < |t.have| && t.have[t.i].body !in t.rules
                && u == DeleteRule(s, t.group, t.have[t.i].id).0)
  {
    hide CreateRule, DeleteRule, HasRule;
  }

  lemma OwnRuleCall(e: Env, h: string -> string, x: System, g: Progress, past: set<nat>, i: nat, f: Fault, q: Policy)
    requires Known(e, h, x, g, past, i) && q in x.world.policies && q.Key() in g.passes
    requires PassKey(x.tasks[i]) == Some(q.Key())
    requires x.tasks[i].AddRule? || x.tasks[i].DropRule?
    ensures Translation(e, q).Ok?
    ensures Keeps(e, x.world.cluster, h, x.store, RuleCall(x.store, x.tasks[i], f).0, x.cache, q)
  {
    hide Safe, Faithful, WellFormed, Injective, StoreGood, TaskSafe, ValidStore, Honest, KeysApart, TaskFresh, BacksAll,
         Complete, Prepared, Holds, PolicyDone, Steady, RulesNow, OwnWork, Keeps, Deleting, RuleCall, PassKey,
         OneGroupEach;
    var t := x.tasks[i];
    SteadyIs(e, h, x, g, past, i);
    RuleBounds(h, x, i);
    KnownHolds(e, h, x, g, past, i);
    PassesDone(e, h, x, g, q);
    IsOwnWork(e, h, x, g, past, i, q);
    RuleCallStores(x.store, t, f);
    hide CreateRule, DeleteRule, Known;
    Same(e, x.world.cluster, h, x.store, x.cache, q);
    if t.AddRule? && t.i < |t.rules| { OwnAdded(e, h, x.world, x.store, x.cache, q, t); }
    if t.DropRule? && t.i < |t.have| && t.have[t.i].body !in t.rules {
      OwnDropped(e, h, x.world, x.store, x.cache, q, t);
    }
  }

  lemma OwnCorrectCall(e: Env, h: string -> string, x: System, g: Progress, past: set<nat>, i: nat, f: Fault,
                       pick: string, q: Policy)
    requires Known(e, h, x, g, past, i) && q in x.world.policies && q.Key() in g.passes && i < |x.tasks|
    requires x.tasks[i].Correct? && PassKey(x.tasks[i]) == Some(q.Key())
    ensures Translation(e, q).Ok?
    ensures Keeps(e, x.world.cluster, h, x.store, GroupCall(h, x.store, x.tasks[i], f, pick).0, x.cache, q)
  {
    hide Safe, Faithful, WellFormed, Injective, Complete, Prepared, PolicyDone, TasksSteady, GroupName, BodiesReady,
         RulesNow, Keeps, Describe, Describing, Known, Steady, Holds;
    OwnIsCached(e, h, x, g, past, i, q);
    KnownHolds(e, h, x, g, past, i);
    PassesDone(e, h, x, g, q);
    Same(e, x.world.cluster, h, x.store, x.cache, q);
    OwnCorrected(e, h, x.world, x.store, x.cache, q, x.tasks[i].group);
  }

  lemma KnownHolds(e: Env, h: string -> string, x: System, g: Progress, past: set<nat>, i: nat)
    requires Known(e, h, x, g, past, i)
    ensures Holds(e, h, x.world, x.store, x.cache, g)
  {
    hide Holds, Safe, TasksSteady;
  }

  /** Its own worker's calls keep what a policy has, too. */
  lemma OwnCallKeeps(e: Env, h: string -> string, x: System, g: Progress, past: set<nat>, i: nat, f: Fault,
                     pick: string, q: Policy)
    requires Known(e, h, x, g, past, i) && q in x.world.policies && q.Key() in g.passes
    requires PassKey(x.tasks[i]) == Some(q.Key())
    ensures Translation(e, q).Ok? && Keeps(e, x.world.cluster, h, x.store, Acted(e, h, x, i, f, pick).store, x.cache, q)
  {
    hide Safe, Faithful, WellFormed, Injective, StoreGood, TaskSafe, ValidStore, Honest, OneGroupEach, KeysApart,
         TaskFresh, SetsToward, Prepared, Complete, Holds, PolicyDone, BacksAll, Racing, TasksSteady, EntryStays,
         GroupName, Keeps, RulesNow, GroupCall, RuleCall, SetCall, Steady;
    SteadyIs(e, h, x, g, past, i);
    KnownHolds(e, h, x, g, past, i);
    PassesDone(e, h, x, g, q);
    PreparedName(e, x.world.cluster, h, x.store, x.cache, q);
    var t := x.tasks[i];
    if t.AddRule? || t.DropRule? {
      OwnRuleCall(e, h, x, g, past, i, f, q);
    } else if t.Correct? {
      OwnCorrectCall(e, h, x, g, past, i, f, pick, q);
    } else {
      CallGoesToward(e, h, x, g, past, i, f, pick);
      OwnEntryStays(e, x.world.cluster, h, x.store, t, f, pick, x.cache[q.Key()]);
      hide Call;
      KeptAlone(e, h, x.world, x.store, Acted(e, h, x, i, f, pick).store, x.cache, q);
    }
  }
}
