/** From an edit made while work is going on: when all that work has ended, what
    has begun since is loose; and when that has ended, halfway at least. */
module AgingRuns {
  import opened Faults
  import opened NetworkPolicy
  import opened Translate
  import opened NeutronStore
  import opened AddressSync
  import opened PolicySync
  import opened Protocol
  import opened Interleaving
  import opened InterleavingSafety
  import opened InterleavingRuns
  import opened Freshness
  import opened FreshRules
  import opened FreshSteps
  import opened Aging
  import Controllers

  function Going(x: System): set<nat> {
    set i: nat | i < |x.tasks| && !x.tasks[i].Idle?
  }

  /** The workers that are still at what they were at when the run began. */
  ghost function StillGoing(e: Env, h: string -> string, x: System, moves: seq<Move>): set<nat> {
    if moves == [] then Going(x)
    else StillGoing(e, h, x, moves[..|moves| - 1]) * Going(Reached(e, h, x, moves))
  }

  predicate NoEdits(moves: seq<Move>) {
    forall m :: m in moves ==> !m.Edit?
  }

  /** 1 is loose, 2 halfway; 0 anything. */
  ghost predicate AtLevel(e: Env, h: string -> string, w: World, s: Store, t: Task, level: nat) {
    (level >= 1 ==> Loose(e, h, w, s, t)) && (level >= 2 ==> Half(e, h, w, s, t))
  }

  /** Older work is at one level, what was begun since at the next. */
  ghost predicate Aged(e: Env, h: string -> string, x: System, past: set<nat>, level: nat) {
    forall i :: 0 <= i < |x.tasks| ==>
      AtLevel(e, h, x.world, x.store, x.tasks[i], if i in past then level else level + 1)
  }

  lemma LevelIs(e: Env, h: string -> string, x: System, past: set<nat>, level: nat, i: nat)
    requires Aged(e, h, x, past, level) && i < |x.tasks|
    ensures AtLevel(e, h, x.world, x.store, x.tasks[i], if i in past then level else level + 1)
  {
    hide AtLevel;
  }

  /** What a call of work at a level does to the pod sets. */
  ghost predicate Gentle(e: Env, h: string -> string, w: World, s: Store, t: Store, level: nat) {
    SetsNamed(s, t) && (level >= 1 ==> SetsInward(e, h, w, s, t))
  }

  lemma CallGentle(e: Env, h: string -> string, x: System, i: nat, f: Fault, pick: string, level: nat)
    requires Faithful(e) && Injective(h) && Safe(h, x) && i < |x.tasks|
    requires AtLevel(e, h, x.world, x.store, x.tasks[i], level) && level <= 2
    ensures var r := Call(e, x.world.cluster, h, x.store, x.tasks[i], f, pick);
            Gentle(e, h, x.world, x.store, r.0, level) && AtLevel(e, h, x.world, r.0, r.1, level)
  {
    hide Faithful, Injective, WellFormed, StoreGood, TaskSafe, Call, Loose, Half, SetsInward, SetsNamed, ValidStore,
         Honest, SetsToward;
    var t := x.tasks[i];
    TaskIsSafe(h, x, i);
    GoodIs(h, x.store, x.baseline, x.raced);
    CallSafe(e, x.world.cluster, h, x.store, x.baseline, x.raced, t, f, pick);
    NudgedNamed(h, x.store, Call(e, x.world.cluster, h, x.store, t, f, pick).0, PassKey(t), Making(h, t));
    if level >= 1 { CallLoose(e, h, x.world, x.store, t, f, pick); }
  }

  lemma LevelKept(e: Env, h: string -> string, w: World, s: Store, t: Store, task: Task, level: nat)
    requires Gentle(e, h, w, s, t, level) && AtLevel(e, h, w, s, task, level + 1) && level <= 1
    ensures AtLevel(e, h, w, t, task, level + 1)
  {
    hide Loose, Half, SetsInward, SetsNamed;
    LooseKept(e, h, w, s, t, task);
    if level == 1 { HalfKept(e, h, w, s, t, task); }
  }

  lemma LevelDown(e: Env, h: string -> string, w: World, s: Store, t: Store, task: Task, level: nat)
    requires Gentle(e, h, w, s, t, level) && AtLevel(e, h, w, s, task, level) && level <= 1
    ensures AtLevel(e, h, w, t, task, level)
  {
    hide Loose, Half, SetsInward, SetsNamed;
    if level == 1 { LooseKept(e, h, w, s, t, task); }
  }

  lemma ActAged(e: Env, h: string -> string, x: System, past: set<nat>, level: nat, i: nat, f: Fault, pick: string)
    requires Faithful(e) && Injective(h) && Safe(h, x) && Aged(e, h, x, past, level) && level <= 1 && i < |x.tasks|
    ensures Aged(e, h, Acted(e, h, x, i, f, pick), past, level)
  {
    hide Faithful, Injective, Safe, AtLevel, Call, Racing, Aged;
    var y := Acted(e, h, x, i, f, pick);
    LevelIs(e, h, x, past, level, i);
    GentleAct(e, h, x, past, level, i, f, pick);
    forall j | 0 <= j < |y.tasks|
      ensures AtLevel(e, h, y.world, y.store, y.tasks[j], if j in past then level else level + 1)
    {
      LevelIs(e, h, x, past, level, j);
      if j != i {
        if j in past {
          LevelDown(e, h, x.world, x.store, y.store, x.tasks[j], level);
        } else {
          LevelKept(e, h, x.world, x.store, y.store, x.tasks[j], level);
        }
      }
    }
    IsAged(e, h, y, past, level);
  }

  lemma IsAged(e: Env, h: string -> string, y: System, past: set<nat>, level: nat)
    requires forall j :: 0 <= j < |y.tasks| ==>
               AtLevel(e, h, y.world, y.store, y.tasks[j], if j in past then level else level + 1)
    ensures Aged(e, h, y, past, level)
  {
    hide AtLevel;
  }

  lemma GentleAct(e: Env, h: string -> string, x: System, past: set<nat>, level: nat, i: nat, f: Fault, pick: string)
    requires Faithful(e) && Injective(h) && Safe(h, x) && Aged(e, h, x, past, level) && level <= 1 && i < |x.tasks|
    ensures var y := Acted(e, h, x, i, f, pick);
            && Gentle(e, h, x.world, x.store, y.store, level)
            && AtLevel(e, h, x.world, y.store, y.tasks[i], if i in past then level else level + 1)
            && y.world == x.world && |y.tasks| == |x.tasks|
            && forall j :: 0 <= j < |x.tasks| && j != i ==> y.tasks[j] == x.tasks[j]
  {
    hide Faithful, Injective, Safe, Loose, Half, Call, Racing, Aged, SetsInward, SetsNamed;
    LevelIs(e, h, x, past, level, i);
    CallGentle(e, h, x, i, f, pick, if i in past then level else level + 1);
  }

  // ----- work taken up -----

  lemma TakenAged(e: Env, h: string -> string, x: System, past: set<nat>, level: nat, i: nat, t: Task)
    requires Aged(e, h, x, past, level) && i < |x.tasks| && AtLevel(e, h, x.world, x.store, t, 2) && level <= 1
    ensures Aged(e, h, x.(tasks := x.tasks[i := t]), past, level)
  {
    hide Loose, Half;
  }

  lemma NextAged(e: Env, h: string -> string, x: System, past: set<nat>, level: nat, m: Move)
    requires Faithful(e) && Injective(h) && Safe(h, x) && Aged(e, h, x, past, level) && level <= 1 && !m.Edit?
    ensures Aged(e, h, Next(e, h, x, m), past, level) && Next(e, h, x, m).world == x.world
  {
    hide Faithful, Injective, Safe, Aged, Acted, PolicyTaken, PodTaken, AtLevel, RulesNow, Members;
    match m
    case TakePolicy(i, key, keys) =>
      if Free(x, i) {
        PolicyTakenIs(e, x, i, key, keys);
        var y, q := PolicyTaken(e, x, i, key, keys), FindPolicy(x.world.policies, key);
        if y != x && q.Some? {
          FindSetIsHalf(e, h, x.world, x.store, q.value, y.tasks[i], keys);
          TakenAged(e, h, x, past, level, i, y.tasks[i]);
        } else {
          SameTasksAged(e, h, x, y, past, level);
        }
      }
    case TakePod(i, key) =>
      if Free(x, i) {
        var y := PodTaken(e, x, i, key);
        PodTakenHalf(e, h, x, i, key);
        if y != x { TakenAged(e, h, x, past, level, i, y.tasks[i]); }
      }
    case TakeSweep(i) =>
      if Free(x, i) {
        SweepIsHalf(e, h, x.world, x.store);
        TakenAged(e, h, x, past, level, i, ListGroups(Controllers.KeysOfPolicies(x.world.policies)));
      }
    case Act(i, f, pick) =>
      if i < |x.tasks| {
        ActAged(e, h, x, past, level, i, f, pick);
        GentleAct(e, h, x, past, level, i, f, pick);
      }
  }

  lemma SameTasksAged(e: Env, h: string -> string, x: System, y: System, past: set<nat>, level: nat)
    requires Aged(e, h, x, past, level) && y.tasks == x.tasks && y.world == x.world && y.store == x.store
    ensures Aged(e, h, y, past, level)
  {
    hide AtLevel;
  }

  lemma FindSetIsHalf(e: Env, h: string -> string, w: World, s: Store, q: Policy, t: Task, keys: seq<string>)
    requires q in w.policies && Translation(e, q).Ok? && Members(keys) == RulesNow(e, q).peers.Keys
    requires t == FindSet(Plan(q.Key(), RulesNow(e, q), keys), map[], 0)
    ensures AtLevel(e, h, w, s, t, 2)
  {
    assert PlanOf(e, q, t.plan);
  }

  lemma SweepIsHalf(e: Env, h: string -> string, w: World, s: Store)
    ensures AtLevel(e, h, w, s, ListGroups(Controllers.KeysOfPolicies(w.policies)), 2)
  {
  }

  lemma PodTakenHalf(e: Env, h: string -> string, x: System, i: nat, key: string)
    requires Free(x, i)
    ensures var y := PodTaken(e, x, i, key);
            y.world == x.world
            && (y == x
                || (y == x.(tasks := x.tasks[i := y.tasks[i]]) && AtLevel(e, h, x.world, x.store, y.tasks[i], 2)))
  {
    hide ListOf, Controllers.NamespaceIn;
  }

  // ----- a phase -----

  lemma FewerOld(e: Env, h: string -> string, x: System, past: set<nat>, level: nat)
    requires Aged(e, h, x, past, level) && level <= 1
    ensures Aged(e, h, x, past * Going(x), level)
  {
    forall i | 0 <= i < |x.tasks|
      ensures AtLevel(e, h, x.world, x.store, x.tasks[i], if i in past * Going(x) then level else level + 1)
    {
      LevelIs(e, h, x, past, level, i);
      if x.tasks[i].Idle? { assert AtLevel(e, h, x.world, x.store, x.tasks[i], 2); }
    }
  }

  lemma {:induction false} PhaseAged(e: Env, h: string -> string, x: System, moves: seq<Move>, level: nat)
    requires Faithful(e) && Injective(h) && Safe(h, x) && NoEdits(moves) && level <= 1
    requires Aged(e, h, x, Going(x), level)
    ensures var y := Reached(e, h, x, moves);
            Aged(e, h, y, StillGoing(e, h, x, moves), level) && Safe(h, y) && y.world == x.world
  {
    hide Faithful, Injective, Safe, Aged, Next, Going;
    if moves != [] {
      var init := moves[..|moves| - 1];
      PhaseAged(e, h, x, init, level);
      RunSafe(e, h, x, moves);
      NextAged(e, h, Reached(e, h, x, init), StillGoing(e, h, x, init), level, moves[|moves| - 1]);
      FewerOld(e, h, Reached(e, h, x, moves), StillGoing(e, h, x, init), level);
    }
  }

  lemma AnyIsAged(e: Env, h: string -> string, x: System)
    ensures Aged(e, h, x, Going(x), 0)
  {
    forall i | 0 <= i < |x.tasks| ensures AtLevel(e, h, x.world, x.store, x.tasks[i], if i in Going(x) then 0 else 1) {
      if i !in Going(x) { assert x.tasks[i] == Idle; }
    }
  }

  lemma NoneOld(e: Env, h: string -> string, x: System, level: nat)
    requires Aged(e, h, x, {}, level) && level <= 1
    ensures forall i :: 0 <= i < |x.tasks| ==> AtLevel(e, h, x.world, x.store, x.tasks[i], level + 1)
  {
    hide AtLevel;
  }

  /** Two generations on from any safe state, all work going on is halfway. One
      would not do: a worker that read a set before older work emptied it adds
      its part, another's add is then refused and taken for agreement, and the
      rest stays missing (AgreedAdd) - the next pass too, if there are two such. */
  lemma TwoGenerations(e: Env, h: string -> string, x: System, first: seq<Move>, second: seq<Move>)
    requires Faithful(e) && Injective(h) && Safe(h, x) && NoEdits(first) && NoEdits(second)
    requires StillGoing(e, h, x, first) == {} && StillGoing(e, h, Reached(e, h, x, first), second) == {}
    ensures var y := Reached(e, h, Reached(e, h, x, first), second);
            && Safe(h, y) && y.world == x.world
            && forall i :: 0 <= i < |y.tasks| ==> Half(e, h, y.world, y.store, y.tasks[i])
  {
    hide Faithful, Injective, Safe, Aged, Reached, Loose, Half, Going;
    var mid := Reached(e, h, x, first);
    AnyIsAged(e, h, x);
    PhaseAged(e, h, x, first, 0);
    NoneOld(e, h, mid, 0);
    AllLooseAged(e, h, mid);
    PhaseAged(e, h, mid, second, 1);
    NoneOld(e, h, Reached(e, h, mid, second), 1);
  }

  lemma AllLooseAged(e: Env, h: string -> string, x: System)
    requires forall i :: 0 <= i < |x.tasks| ==> AtLevel(e, h, x.world, x.store, x.tasks[i], 1)
    ensures Aged(e, h, x, Going(x), 1)
  {
    forall i | 0 <= i < |x.tasks| ensures AtLevel(e, h, x.world, x.store, x.tasks[i], if i in Going(x) then 1 else 2) {
      if i !in Going(x) { assert x.tasks[i] == Idle; }
    }
  }
}
