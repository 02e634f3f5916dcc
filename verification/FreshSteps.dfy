/** Every move but an edit keeps fresh work steady, and a pass that ends counts. */
module FreshSteps {
  import opened Wrappers
  import opened Faults
  import opened Text
  import opened NetworkPolicy
  import opened Translate
  import opened RuleSets
  import opened NeutronStore
  import opened NeutronClient
  import opened RulePass
  import opened RuleSync
  import opened Baseline
  import opened AddressSync
  import opened Sweeping
  import opened PolicySync
  import opened Preparation
  import opened Protocol
  import opened Interleaving
  import opened InterleavingSafety
  import opened InterleavingRuns
  import opened Freshness
  import opened FreshWork
  import opened FreshRules
  import opened FreshProgress
  import opened FreshRuns
  import opened Aging
  import Controllers
  import Ordering

  // ----- a pass that ends -----

  lemma EndedIs(e: Env, h: string -> string, x: System, g: Progress, past: set<nat>, i: nat, q: Policy)
    requires Known(e, h, x, g, past, i) && q in x.world.policies && x.tasks[i].Remember?
    requires x.tasks[i].plan.key == q.Key()
    requires i !in past
    ensures Translation(e, q).Ok?
    ensures x.tasks[i].group == "" ==> RulesNow(e, q).rules == []
    ensures x.tasks[i].group != "" ==>
              && RulesNow(e, q).rules != [] && AllMeant(e, h, x.world, x.store, RulesNow(e, q), x.tasks[i].rules)
              && x.tasks[i].group in x.store.groups && x.store.groups[x.tasks[i].group].name == GroupName(h, q.Key())
              && PassedExactly(x.store, x.tasks[i].group, x.tasks[i].have, x.tasks[i].rules)
    ensures q.Key() in g.passes ==> forall b :: b in Bodies(x.tasks[i].have) ==> NamesRemote(b)
  {
    SteadyIs(e, h, x, g, past, i);
    var t := x.tasks[i];
    EndedSafe(h, x.store, x.baseline, x.raced, t);
    assert TaskBacks(x.store, t, q.Key());
    hide Safe, Faithful, WellFormed, Injective, StoreGood, TaskSafe, ValidStore, Honest, KeysApart, Fresh,
         Holds, TasksSteady, GroupName, RulesNow, AllMeant, Steady, OneGroupEach, PassedExactly, Bodies;
    FreshPlan(e, h, x.world, x.store, t, q);
  }

  lemma EndedSafe(h: string -> string, s: Store, b: BaselineIds, raced: set<string>, t: Task)
    requires t.Remember? && TaskSafe(h, s, b, raced, t)
    ensures t.group != "" ==>
              && PassedExactly(s, t.group, t.have, t.rules)
              && (t.group in s.groups ==> s.groups[t.group].name == GroupName(h, t.plan.key))
  {
    hide PassedExactly;
  }

  /** What the policy then has. */
  lemma EndCounts(e: Env, h: string -> string, x: System, g: Progress, past: set<nat>, i: nat, q: Policy)
    requires Known(e, h, x, g, past, i) && q in x.world.policies && x.tasks[i].Remember?
    requires x.tasks[i].plan.key == q.Key()
    requires i !in past
    ensures var g' := Advanced(g, x.tasks[i]);
            PolicyDone(e, h, x.world, x.store, x.cache[q.Key() := x.tasks[i].group], q, g'.passes[q.Key()])
  {
    var t := x.tasks[i];
    hide Safe, StoreGood, TaskSafe, KeysApart, TaskFresh, BacksAll, Holds, TasksSteady, GroupName, RulesNow, AllMeant,
         OneGroupEach, PassedExactly, Bodies, Prepared, Complete, Faithful, WellFormed, Injective, ValidStore, Honest,
         Steady;
    SteadyIs(e, h, x, g, past, i);
    EndedIs(e, h, x, g, past, i, q);
    if t.group == "" {
      NothingToPrepare(e, h, x.world, x.store, x.cache, q);
    } else {
      PassEnds(e, h, x.world, x.store, x.cache, q, t.group, t.have, t.rules);
    }
  }

  lemma NothingToPrepare(e: Env, h: string -> string, w: World, s: Store, cache: map<string, string>, q: Policy)
    requires Translation(e, q).Ok? && RulesNow(e, q).rules == []
    ensures Prepared(e, w.cluster, h, s, cache[q.Key() := ""], q.Key(), RulesNow(e, q))
    ensures Complete(e, w.cluster, h, s, cache[q.Key() := ""], q.Key(), RulesNow(e, q))
  {
  }

  lemma CacheElsewhere(e: Env, h: string -> string, w: World, s: Store, cache: map<string, string>,
                       cache': map<string, string>, q: Policy, n: nat)
    requires PolicyDone(e, h, w, s, cache, q, n) && n >= 1
    requires q.Key() in cache ==> q.Key() in cache' && cache'[q.Key()] == cache[q.Key()]
    ensures PolicyDone(e, h, w, s, cache', q, n) && q.Key() in cache
  {
    PreparedKept(e, w.cluster, h, s, s, cache, cache', q.Key(), RulesNow(e, q));
  }

  // ----- one call -----

  lemma PolicyAfterCall(e: Env, h: string -> string, x: System, g: Progress, past: set<nat>, i: nat, f: Fault,
                        pick: string, q: Policy)
    requires Known(e, h, x, g, past, i) && q in x.world.policies && q.Key() in Counted(g, past, i, x.tasks[i]).passes
    ensures var y, g' := Acted(e, h, x, i, f, pick), Counted(g, past, i, x.tasks[i]);
            g'.passes[q.Key()] >= 1 && PolicyDone(e, h, y.world, y.store, y.cache, q, g'.passes[q.Key()])
  {
    var t, y, g' := x.tasks[i], Acted(e, h, x, i, f, pick), Counted(g, past, i, x.tasks[i]);
    hide Safe, Call, Faithful, WellFormed, Injective, Racing, Steady, PolicyDone, Holds, TasksSteady, Keeps, RulesNow,
         Prepared, Complete;
    KnownHolds(e, h, x, g, past, i);
    if t.Remember? {
      RememberChangesNothing(e, x.world.cluster, h, x.store, t, f, pick);
      if t.plan.key == q.Key() {
        if q.Key() in g.passes { OwnIsFresh(e, h, x, g, past, i, q); }
        CountsOne(e, h, x, g, q);
        EndCounts(e, h, x, g, past, i, q);
      } else {
        CountsOne(e, h, x, g, q);
        CacheElsewhere(e, h, x.world, x.store, x.cache, y.cache, q, g.passes[q.Key()]);
      }
    } else {
      PassesDone(e, h, x, g, q);
      if PassKey(t) == Some(q.Key()) {
        OwnCallKeeps(e, h, x, g, past, i, f, pick, q);
      } else {
        OtherCallKeeps(e, h, x, g, past, i, f, pick, q);
      }
      DoneIs(e, h, x.world, x.store, y.store, x.cache, q, g.passes[q.Key()]);
    }
  }

  lemma CountsOne(e: Env, h: string -> string, x: System, g: Progress, q: Policy)
    requires Holds(e, h, x.world, x.store, x.cache, g) && q in x.world.policies
    ensures q.Key() in g.passes ==>
              g.passes[q.Key()] >= 1 && PolicyDone(e, h, x.world, x.store, x.cache, q, g.passes[q.Key()])
  {
    hide PolicyDone;
  }

  lemma AheadGoesOn(e: Env, h: string -> string, x: System, g: Progress, past: set<nat>, i: nat, f: Fault, pick: string)
    requires Known(e, h, x, g, past, i) && i !in past
    ensures Ahead(Advanced(g, x.tasks[i]), Call(e, x.world.cluster, h, x.store, x.tasks[i], f, pick).1)
  {
    var t := x.tasks[i];
    var t' := Call(e, x.world.cluster, h, x.store, t, f, pick).1;
    SteadyIs(e, h, x, g, past, i);
    assert Ahead(g, t);
    hide Safe, Faithful, WellFormed, Injective, StoreGood, TaskSafe, ValidStore, Honest, KeysApart, TaskFresh, BacksAll,
         Holds, TasksSteady, GroupName, RulesNow, Steady, OneGroupEach, BodiesReady, Bodies, Known;
    if t.ReadRules? && t'.AddRule? && t.plan.key in g.passes {
      ReadIsAhead(e, h, x, g, past, i);
      ReadGives(e, x.world.cluster, h, x.store, t, f, pick);
    } else {
      TaskGoesOn(e, x.world.cluster, h, x.store, t, f, pick);
    }
  }

  lemma ReadGives(e: Env, c: Cluster, h: string -> string, s: Store, t: Task, f: Fault, pick: string)
    requires t.ReadRules? && t.group in s.groups && Call(e, c, h, s, t, f, pick).1.AddRule?
    ensures Call(e, c, h, s, t, f, pick).1.have == s.groups[t.group].rules
  {
    hide WantOf;
  }

  lemma TaskGoesOn(e: Env, c: Cluster, h: string -> string, s: Store, t: Task, f: Fault, pick: string)
    ensures var t' := Call(e, c, h, s, t, f, pick).1;
            && (t'.AddRule? ==> t.ReadRules? || (t.AddRule? && t'.have == t.have && t'.plan == t.plan))
            && (t'.DropRule? ==> (t.AddRule? || t.DropRule?) && t'.have == t.have && t'.plan == t.plan)
            && (t'.Remember? ==>
                  (t.FindSet? && t'.have == []) || (t.DropRule? && t'.have == t.have && t'.plan == t.plan))
            && (t.ReadRules? && t'.AddRule? ==> t'.plan == t.plan)
  {
    hide ListedForms, WantOf, OnPort, Referenced, HoldsAlias, Without, Describing, GroupName, SetName, SetExists,
         GroupExists, HasRule, HasPrefix, DefaultRules, IdOf, Doomed, KeptReferences, PolicyOf, Ordering.SortStrings;
  }

  /** What a further pass over a prepared policy reads. */
  lemma ReadIsAhead(e: Env, h: string -> string, x: System, g: Progress, past: set<nat>, i: nat)
    requires Known(e, h, x, g, past, i) && x.tasks[i].ReadRules? && x.tasks[i].plan.key in g.passes
    ensures x.tasks[i].group in x.store.groups
    ensures forall b :: b in Bodies(x.store.groups[x.tasks[i].group].rules) ==> NamesRemote(b)
  {
    var t := x.tasks[i];
    hide Safe, Faithful, Injective, StoreGood, TaskSafe, ValidStore, Honest, KeysApart, BacksAll,
         Holds, TasksSteady, GroupName, RulesNow, Steady, OneGroupEach, Bodies, WellFormed, Fresh, Standing;
    SteadyIs(e, h, x, g, past, i);
    FreshHasPlan(e, h, x.world, x.store, t);
    var q :| q in x.world.policies && PlanOf(e, q, t.plan);
    OwnIsCached(e, h, x, g, past, i, q);
    forall b | b in Bodies(x.store.groups[t.group].rules) ensures NamesRemote(b) {
      StandingNamesRemote(e, x.world.cluster, h, x.store, RulesNow(e, q), b);
    }
  }

  lemma FreshTaskAfter(e: Env, h: string -> string, x: System, g: Progress, past: set<nat>, i: nat, f: Fault,
                       pick: string)
    requires Known(e, h, x, g, past, i) && i !in past
    ensures var y := Acted(e, h, x, i, f, pick);
            TaskFresh(e, h, y.world, y.store, Advanced(g, x.tasks[i]), y.tasks[i])
            && BacksAll(y.world, y.store, y.tasks[i])
  {
    var t, y := x.tasks[i], Acted(e, h, x, i, f, pick);
    hide Safe, Call, Faithful, WellFormed, Injective, StoreGood, TaskSafe, ValidStore, Honest, KeysApart, Fresh, Racing,
         Holds, TasksSteady, Steady, OneGroupEach, SetsToward, Ahead, TaskBacks;
    SteadyIs(e, h, x, g, past, i);
    CallGoesToward(e, h, x, g, past, i, f, pick);
    AheadGoesOn(e, h, x, g, past, i, f, pick);
    forall q | q in x.world.policies ensures TaskBacks(y.store, y.tasks[i], q.Key()) {
      assert TaskBacks(x.store, t, q.Key());
      if PassKey(t).Some? {
        PassKeepsBacking(e, x.world.cluster, h, x.store, t, f, pick, q.Key());
      } else {
        OthersBack(e, x.world.cluster, h, x.store, t, f, pick, q.Key());
      }
    }
  }

  lemma PastTaskAfter(e: Env, h: string -> string, x: System, g: Progress, past: set<nat>, i: nat, f: Fault,
                      pick: string)
    requires Known(e, h, x, g, past, i) && i in past
    ensures var y := Acted(e, h, x, i, f, pick); TaskPast(e, h, y.world, y.store, g, y.tasks[i])
  {
    hide Safe, Call, Faithful, WellFormed, Injective, StoreGood, TaskSafe, ValidStore, Honest, KeysApart, Racing,
         Holds, TasksSteady, Steady, OneGroupEach, SetsToward, Half;
    SteadyIs(e, h, x, g, past, i);
    CallGoesToward(e, h, x, g, past, i, f, pick);
    CallKeepsKey(e, h, x, i, f, pick);
  }

  lemma CallKeepsKey(e: Env, h: string -> string, x: System, i: nat, f: Fault, pick: string)
    requires Safe(h, x) && i < |x.tasks|
    ensures var t' := Call(e, x.world.cluster, h, x.store, x.tasks[i], f, pick).1;
            PassKey(t') == PassKey(x.tasks[i]) || PassKey(t') == None
  {
    hide Call, StoreGood, TaskSafe, WellFormed, Nudged;
    TaskIsSafe(h, x, i);
    CallSafe(e, x.world.cluster, h, x.store, x.baseline, x.raced, x.tasks[i], f, pick);
  }

  lemma OwnTaskAfter(e: Env, h: string -> string, x: System, g: Progress, past: set<nat>, i: nat, f: Fault,
                     pick: string)
    requires Known(e, h, x, g, past, i)
    ensures var y := Acted(e, h, x, i, f, pick);
            TaskSteady(e, h, y.world, y.store, Counted(g, past, i, x.tasks[i]), y.tasks[i], i in past)
  {
    hide Known, Acted, TaskFresh, TaskPast, BacksAll;
    if i in past {
      PastTaskAfter(e, h, x, g, past, i, f, pick);
    } else {
      FreshTaskAfter(e, h, x, g, past, i, f, pick);
    }
  }

  lemma AheadStill(g: Progress, t: Task, u: Task)
    requires Ahead(g, u) && (t.Remember? ==> PassKey(u) != Some(t.plan.key))
    ensures Ahead(Advanced(g, t), u)
  {
  }

  lemma KeysDiffer(tasks: seq<Task>, i: nat, j: nat)
    requires KeysApart(tasks) && i < |tasks| && j < |tasks| && i != j && tasks[i].Remember?
    ensures PassKey(tasks[j]) != Some(tasks[i].plan.key)
  {
  }

  lemma OtherFreshAfter(e: Env, h: string -> string, x: System, g: Progress, past: set<nat>, i: nat, f: Fault,
                        pick: string, j: nat)
    requires Known(e, h, x, g, past, i) && j < |x.tasks| && j != i && j !in past
    ensures var y := Acted(e, h, x, i, f, pick);
            TaskFresh(e, h, y.world, y.store, Advanced(g, x.tasks[i]), x.tasks[j])
            && TaskFresh(e, h, y.world, y.store, g, x.tasks[j])
            && BacksAll(y.world, y.store, x.tasks[j])
  {
    var t, u, y := x.tasks[i], x.tasks[j], Acted(e, h, x, i, f, pick);
    hide Safe, Call, Faithful, WellFormed, Injective, StoreGood, TaskSafe, ValidStore, Honest, KeysApart, Fresh, Racing,
         Half, Holds, TasksSteady, Steady, OneGroupEach, SetsToward, Ahead, TaskBacks, GroupsStay, TaskPast;
    SteadyIs(e, h, x, g, past, i);
    KnownAt(e, h, x, g, past, i, j);
    CallGoesToward(e, h, x, g, past, i, f, pick);
    FreshKept(e, h, x.world, x.store, y.store, u);
    if t.Remember? { KeysDiffer(x.tasks, i, j); }
    AheadStill(g, t, u);
    forall q | q in x.world.policies ensures TaskBacks(y.store, u, q.Key()) {
      assert TaskBacks(x.store, u, q.Key());
      OthersStay(e, h, x, g, past, i, f, pick, j, q);
    }
  }

  /** A group another task counts on survives the call. */
  lemma OthersStay(e: Env, h: string -> string, x: System, g: Progress, past: set<nat>, i: nat, f: Fault, pick: string,
                   j: nat, q: Policy)
    requires Known(e, h, x, g, past, i) && j < |x.tasks| && j != i && q in x.world.policies
    requires TaskBacks(x.store, x.tasks[j], q.Key())
    ensures TaskBacks(Acted(e, h, x, i, f, pick).store, x.tasks[j], q.Key())
  {
    var t, u, y := x.tasks[i], x.tasks[j], Acted(e, h, x, i, f, pick);
    hide Safe, Call, Faithful, WellFormed, Injective, StoreGood, TaskSafe, ValidStore, Honest, Fresh, Racing, Half,
         Holds, TasksSteady, Steady, OneGroupEach, TaskBacks, GroupsStay, TaskPast, TaskFresh;
    SteadyIs(e, h, x, g, past, i);
    KnownAt(e, h, x, g, past, i, j);
    if PassKey(t) != Some(q.Key()) {
      BacksOthers(e, h, x, g, past, i, q);
      CallKeepsGroups(e, x.world.cluster, h, x.store, x.baseline, x.raced, t, f, pick, q.Key());
      StillBacks(h, x.store, y.store, x.baseline, x.raced, u, q.Key());
    } else {
      KeysDifferAnyway(x.tasks, i, j);
      OtherKeyBacks(x.store, y.store, u, q.Key());
    }
  }

  lemma KeysDifferAnyway(tasks: seq<Task>, i: nat, j: nat)
    requires KeysApart(tasks) && i < |tasks| && j < |tasks| && i != j && PassKey(tasks[i]).Some?
    ensures PassKey(tasks[j]) != PassKey(tasks[i])
  {
    hide PassKey;
  }

  lemma OtherKeyBacks(s: Store, t: Store, u: Task, key: string)
    requires TaskBacks(s, u, key) && PassKey(u) != Some(key)
    ensures TaskBacks(t, u, key)
  {
  }

  lemma OtherPastAfter(e: Env, h: string -> string, x: System, g: Progress, past: set<nat>, i: nat, f: Fault,
                       pick: string, j: nat)
    requires Known(e, h, x, g, past, i) && j < |x.tasks| && j != i && j in past
    ensures var y := Acted(e, h, x, i, f, pick);
            TaskPast(e, h, y.world, y.store, Counted(g, past, i, x.tasks[i]), x.tasks[j])
  {
    var t, u, y := x.tasks[i], x.tasks[j], Acted(e, h, x, i, f, pick);
    hide Safe, Call, Faithful, WellFormed, Injective, StoreGood, TaskSafe, ValidStore, Honest, KeysApart, Fresh, Racing,
         Half, Holds, TasksSteady, Steady, OneGroupEach, SetsToward, SetsInward, TaskFresh, BacksAll;
    SteadyIs(e, h, x, g, past, i);
    KnownAt(e, h, x, g, past, i, j);
    CallGoesToward(e, h, x, g, past, i, f, pick);
    SetsTowardInward(e, h, x.world, x.store, y.store);
    HalfKept(e, h, x.world, x.store, y.store, u);
    if t.Remember? { KeysDiffer(x.tasks, i, j); }
  }

  lemma OtherTaskAfter(e: Env, h: string -> string, x: System, g: Progress, past: set<nat>, i: nat, f: Fault,
                       pick: string, j: nat)
    requires Known(e, h, x, g, past, i) && j < |x.tasks| && j != i
    ensures var y := Acted(e, h, x, i, f, pick);
            TaskSteady(e, h, y.world, y.store, Counted(g, past, i, x.tasks[i]), x.tasks[j], j in past)
  {
    hide Known, Acted, TaskFresh, TaskPast, BacksAll, Advanced;
    if j in past {
      OtherPastAfter(e, h, x, g, past, i, f, pick, j);
    } else {
      OtherFreshAfter(e, h, x, g, past, i, f, pick, j);
    }
  }

  lemma KnownAt(e: Env, h: string -> string, x: System, g: Progress, past: set<nat>, i: nat, j: nat)
    requires Known(e, h, x, g, past, i) && j < |x.tasks|
    ensures TaskSafe(h, x.store, x.baseline, x.raced, x.tasks[j])
    ensures j !in past ==> TaskFresh(e, h, x.world, x.store, g, x.tasks[j]) && BacksAll(x.world, x.store, x.tasks[j])
    ensures j in past ==> TaskPast(e, h, x.world, x.store, g, x.tasks[j])
  {
    hide Steady, Faithful, Injective;
    SteadyIs(e, h, x, g, past, j);
  }

  /** Any call of any worker, succeeding or failing either way. */
  lemma ActSteady(e: Env, h: string -> string, x: System, g: Progress, past: set<nat>, i: nat, f: Fault, pick: string)
    requires Known(e, h, x, g, past, i)
    ensures Steady(e, h, Acted(e, h, x, i, f, pick), Counted(g, past, i, x.tasks[i]), past)
  {
    var y, g' := Acted(e, h, x, i, f, pick), Counted(g, past, i, x.tasks[i]);
    hide Safe, Call, Faithful, Injective, TaskSteady, PolicyDone, Counted, Racing, Steady, WellFormed;
    KnownIs(e, h, x, g, past, i);
    ActSafe(e, h, x, i, f, pick);
    forall q | q in y.world.policies && q.Key() in g'.passes
      ensures g'.passes[q.Key()] >= 1 && PolicyDone(e, h, y.world, y.store, y.cache, q, g'.passes[q.Key()])
    {
      PolicyAfterCall(e, h, x, g, past, i, f, pick, q);
    }
    forall j | 0 <= j < |y.tasks|
      ensures TaskSteady(e, h, y.world, y.store, g', y.tasks[j], j in past)
    {
      if j == i {
        OwnTaskAfter(e, h, x, g, past, i, f, pick);
      } else {
        OtherTaskAfter(e, h, x, g, past, i, f, pick, j);
      }
    }
    hide Known, Acted;
    IsSteady(e, h, y, g', past);
  }

  lemma KnownIs(e: Env, h: string -> string, x: System, g: Progress, past: set<nat>, i: nat)
    requires Known(e, h, x, g, past, i)
    ensures Injective(h) && Safe(h, x) && i < |x.tasks|
  {
    hide Safe, Faithful, Injective, Holds, TasksSteady;
  }

  lemma IsSteady(e: Env, h: string -> string, y: System, g: Progress, past: set<nat>)
    requires Safe(h, y)
    requires forall q :: q in y.world.policies && q.Key() in g.passes ==>
               g.passes[q.Key()] >= 1 && PolicyDone(e, h, y.world, y.store, y.cache, q, g.passes[q.Key()])
    requires forall j :: 0 <= j < |y.tasks| ==> TaskSteady(e, h, y.world, y.store, g, y.tasks[j], j in past)
    ensures Steady(e, h, y, g, past)
  {
    hide Safe, PolicyDone, TaskSteady;
  }

  /** A worker that is done with older work is done with it for good. */
  lemma FewerPast(e: Env, h: string -> string, y: System, g: Progress, past: set<nat>, left: set<nat>)
    requires Steady(e, h, y, g, past) && left <= past
    requires forall i :: 0 <= i < |y.tasks| && i in past && i !in left ==> y.tasks[i].Idle?
    ensures Steady(e, h, y, g, left)
  {
    hide Safe, Holds, TaskSteady;
    forall i | 0 <= i < |y.tasks| ensures TaskSteady(e, h, y.world, y.store, g, y.tasks[i], i in left) {
      assert TaskSteady(e, h, y.world, y.store, g, y.tasks[i], i in past);
      if i in past && i !in left { IdleIsSteady(e, h, y.world, y.store, g); }
    }
  }

  lemma IdleIsSteady(e: Env, h: string -> string, w: World, s: Store, g: Progress)
    ensures TaskSteady(e, h, w, s, g, Idle, false) && TaskSteady(e, h, w, s, g, Idle, true)
  {
  }

  // ----- work taken up -----

  lemma TakenSteady(e: Env, h: string -> string, x: System, g: Progress, past: set<nat>, i: nat, t: Task)
    requires Steady(e, h, x, g, past) && Free(x, i) && i !in past && Safe(h, x.(tasks := x.tasks[i := t]))
    requires TaskFresh(e, h, x.world, x.store, g, t) && BacksAll(x.world, x.store, t) && i !in past
    ensures Steady(e, h, x.(tasks := x.tasks[i := t]), g, past)
  {
    hide Safe, Holds, TaskFresh, BacksAll, TaskPast;
  }

  /** A key taken up is a fresh pass, or a policy forgotten, or nothing. */
  lemma PolicyTakenIs(e: Env, x: System, i: nat, key: string, keys: seq<string>)
    requires Free(x, i)
    ensures var y, q := PolicyTaken(e, x, i, key, keys), FindPolicy(x.world.policies, key);
            || y == x
            || (q.None? && y == x.(cache := x.cache - {key}))
            || (q.Some? && Translation(e, q.value).Ok? && Members(keys) == RulesNow(e, q.value).peers.Keys
                && y == x.(tasks := x.tasks[i := FindSet(Plan(key, RulesNow(e, q.value), keys), map[], 0)]))
  {
    hide Ordering.SortedBy, Ordering.NoRepeats, Controllers.NamespaceIn, PassKey, Members, RulesOfPolicy, Translation;
  }

  lemma PolicyTakenSteady(e: Env, h: string -> string, x: System, g: Progress, past: set<nat>, i: nat, key: string,
                          keys: seq<string>)
    requires Steady(e, h, x, g, past) && Free(x, i) && i !in past
    ensures Steady(e, h, PolicyTaken(e, x, i, key, keys), g, past)
  {
    hide Steady, Safe, WellFormed, Holds, TasksSteady, TaskFresh, BacksAll, PolicyTaken, Members, RulesNow;
    PolicyTakenIs(e, x, i, key, keys);
    var y, q := PolicyTaken(e, x, i, key, keys), FindPolicy(x.world.policies, key);
    SteadySafe(e, h, x, g, past);
    PolicyTakenSafe(e, h, x, i, key, keys);
    if y != x {
      if q.None? {
        ForgottenSteady(e, h, x, g, past, key);
      } else {
        StartsFresh(e, h, x.world, x.store, g, q.value, y.tasks[i], keys);
        TakenSteady(e, h, x, g, past, i, y.tasks[i]);
      }
    }
  }

  lemma SteadySafe(e: Env, h: string -> string, x: System, g: Progress, past: set<nat>)
    requires Steady(e, h, x, g, past)
    ensures Safe(h, x) && WellFormed(x.world) && Holds(e, h, x.world, x.store, x.cache, g)
    ensures TasksSteady(e, h, x, g, past)
  {
    hide WellFormed, StoreGood, CacheSafe, TaskSafe, KeysApart, Holds, TasksSteady;
  }

  lemma StartsFresh(e: Env, h: string -> string, w: World, s: Store, g: Progress, q: Policy, t: Task, keys: seq<string>)
    requires q in w.policies && Translation(e, q).Ok?
    requires Members(keys) == RulesNow(e, q).peers.Keys && t == FindSet(Plan(q.Key(), RulesNow(e, q), keys), map[], 0)
    ensures TaskFresh(e, h, w, s, g, t) && BacksAll(w, s, t)
  {
    assert keys[..0] == [];
    assert PlanOf(e, q, t.plan);
  }

  /** Forgetting a policy that is not listed. */
  lemma ForgottenSteady(e: Env, h: string -> string, x: System, g: Progress, past: set<nat>, key: string)
    requires Steady(e, h, x, g, past) && Safe(h, x.(cache := x.cache - {key}))
    requires FindPolicy(x.world.policies, key).None?
    ensures Steady(e, h, x.(cache := x.cache - {key}), g, past)
  {
    hide Safe, TaskSteady, PolicyDone, Steady;
    SteadySafe(e, h, x, g, past);
    forall q | q in x.world.policies && q.Key() in g.passes
      ensures g.passes[q.Key()] >= 1 && PolicyDone(e, h, x.world, x.store, x.cache - {key}, q, g.passes[q.Key()])
    {
      CacheElsewhere(e, h, x.world, x.store, x.cache, x.cache - {key}, q, g.passes[q.Key()]);
    }
    IsSteady(e, h, x.(cache := x.cache - {key}), g, past);
  }

  lemma OthersSteady(e: Env, h: string -> string, x: System, g: Progress, past: set<nat>, i: nat, t: Task)
    requires Steady(e, h, x, g, past) && Free(x, i) && i !in past && Safe(h, x.(tasks := x.tasks[i := t]))
    requires t.ReadPort? || (t.ListGroups? && AllLive(x.world, t.live))
    ensures Steady(e, h, x.(tasks := x.tasks[i := t]), g, past)
  {
    hide Safe, Steady;
    assert TaskFresh(e, h, x.world, x.store, g, t) && BacksAll(x.world, x.store, t);
    hide TaskFresh, BacksAll;
    TakenSteady(e, h, x, g, past, i, t);
  }

  lemma PodTakenSteady(e: Env, h: string -> string, x: System, g: Progress, past: set<nat>, i: nat, key: string)
    requires Steady(e, h, x, g, past) && Free(x, i) && i !in past
    ensures Steady(e, h, PodTaken(e, x, i, key), g, past)
  {
    hide Steady, Safe, ListOf, WellFormed, TasksSteady, Holds;
    SteadySafe(e, h, x, g, past);
    PodTakenSafe(e, h, x, i, key);
    var y := PodTaken(e, x, i, key);
    if y.tasks != x.tasks { OthersSteady(e, h, x, g, past, i, y.tasks[i]); }
  }

  lemma SweepTakenSteady(e: Env, h: string -> string, x: System, g: Progress, past: set<nat>, i: nat)
    requires Injective(h) && Steady(e, h, x, g, past) && Free(x, i) && i !in past
    ensures Steady(e, h, Next(e, h, x, TakeSweep(i)), g, past)
  {
    hide Steady, Safe, WellFormed, TasksSteady, Holds, Injective;
    SteadySafe(e, h, x, g, past);
    NextSafe(e, h, x, TakeSweep(i));
    OthersSteady(e, h, x, g, past, i, ListGroups(Controllers.KeysOfPolicies(x.world.policies)));
  }
}
