/** Some time after edits stop: whatever the workers and sweeps do, call by call and side by
    side, with calls failing, every port written from a list worked out after its
    policies were passed over twice means what its policies say. */
module SettlingAnyhow {
  import opened Wrappers
  import opened Faults
  import opened NetworkPolicy
  import opened Translate
  import opened NeutronStore
  import opened Baseline
  import opened AddressSync
  import opened NeutronMeaning
  import opened Composition
  import opened PolicySync
  import opened Preparation
  import opened Protocol
  import opened Interleaving
  import opened InterleavingSafety
  import opened InterleavingRuns
  import opened FreshWork
  import opened FreshRules
  import opened FreshRuns
  import opened FreshSteps
  import opened Aging
  import opened AgingRuns
  import opened Controllers
  import Ordering

  // ----- what has been done since -----

  /** progress: how many passes begun since have ended over each policy. past: the
      workers still at what they were at before. current: the pods whose list,
      when last worked out, was worked out with every policy of their namespace
      passed over twice. aligned: the pods whose port has been found with, or
      given, such a list. */
  datatype Ledger = Ledger(progress: Progress, past: set<nat>, current: set<string>, aligned: set<string>)

  function NothingDone(x: System): Ledger {
    Ledger(NoProgress, Going(x), {}, {})
  }

  predicate SettledFor(w: World, g: Progress, key: string) {
    FindPod(w.cluster.pods, key).Some? && Settled(w, g, FindPod(w.cluster.pods, key).value.namespace)
  }

  /** The call finds the port with the list, or gives it the list. */
  predicate Aligns(s: Store, t: Task, f: Fault) {
    match t
    case ReadPort(_, p, list) => f.NoFault? && p in s.ports && Ordering.SortStrings(s.ports[p]) == list
    case WritePort(_, p, list) => !f.Before? && UpdatePort(s, p, list).1.Done?
    case _ => false
  }

  ghost function NextLedger(e: Env, h: string -> string, x: System, l: Ledger, m: Move): Ledger {
    match m
    case TakePod(i, key) =>
      if Free(x, i) && PodTaken(e, x, i, key).tasks != x.tasks then
        l.(current := if SettledFor(x.world, l.progress, key) then l.current + {key} else l.current - {key})
      else l
    case Act(i, f, pick) =>
      if i < |x.tasks| then
        l.(progress := Counted(l.progress, l.past, i, x.tasks[i]),
           past := l.past * Going(Acted(e, h, x, i, f, pick)),
           aligned := if Aligns(x.store, x.tasks[i], f) && x.tasks[i].pod in l.current
                      then l.aligned + {x.tasks[i].pod} else l.aligned)
      else l
    case _ => l
  }

  ghost function LedgerAfter(e: Env, h: string -> string, x: System, moves: seq<Move>): Ledger {
    if moves == [] then NothingDone(x)
    else
      var init := moves[..|moves| - 1];
      NextLedger(e, h, Reached(e, h, x, init), LedgerAfter(e, h, x, init), moves[|moves| - 1])
  }

  // ----- what holds of the pods -----

  ghost predicate PodTaskRight(e: Env, x: System, l: Ledger, t: Task) {
    t.ReadPort? || t.WritePort? ==>
      && t.pod in x.world.placed && x.world.placed[t.pod] == t.port
      && (t.pod in l.current ==> Current(e, x.baseline, x.cache, x.world, l.progress, t.pod, t.list))
      && (t.pod in l.aligned ==> t.pod in l.current)
  }

  predicate PodsApart(tasks: seq<Task>) {
    forall i, j :: 0 <= i < j < |tasks| && PodOf(tasks[i]).Some? ==> PodOf(tasks[i]) != PodOf(tasks[j])
  }

  ghost predicate AllAligned(e: Env, x: System, l: Ledger) {
    forall k :: k in l.aligned ==> Aligned(e, x.baseline, x.cache, x.world, l.progress, x.store, k)
  }

  ghost predicate PodsRight(e: Env, x: System, l: Ledger) {
    && (forall i :: 0 <= i < |x.tasks| ==> PodTaskRight(e, x, l, x.tasks[i]))
    && PodsApart(x.tasks) && AllAligned(e, x, l)
  }

  /** Everything known along the way. */
  ghost predicate OnCourse(e: Env, h: string -> string, x: System, l: Ledger) {
    Steady(e, h, x, l.progress, l.past) && l.past <= Going(x) && PodsRight(e, x, l)
  }

  // ----- a call -----

  /** What a further pass remembers is what the cache has. */
  lemma RememberedSame(e: Env, h: string -> string, x: System, g: Progress, past: set<nat>, i: nat, q: Policy)
    requires Known(e, h, x, g, past, i) && q in x.world.policies && q.Key() in g.passes
    requires x.tasks[i].Remember? && x.tasks[i].plan.key == q.Key() && i !in past
    ensures q.Key() in x.cache && x.cache[q.Key()] == x.tasks[i].group
  {
    hide Steady, Faithful, Injective, Holds, ValidStore, StoreGood, OneGroupEach, Honest, WellFormed, TaskSafe,
         TaskFresh, BacksAll, KeysApart, Safe, RulesNow, AllMeant, PassedExactly, BodiesReady;
    EndedIs(e, h, x, g, past, i, q);
    if x.tasks[i].group != "" {
      OwnIsCached(e, h, x, g, past, i, q);
    } else {
      KnownHolds(e, h, x, g, past, i);
      PassesDone(e, h, x, g, q);
      hide Known;
      NothingCached(e, x.world.cluster, h, x.store, x.cache, q);
    }
  }

  lemma NothingCached(e: Env, c: Cluster, h: string -> string, s: Store, cache: map<string, string>, q: Policy)
    requires Translation(e, q).Ok? && RulesNow(e, q).rules == [] && Prepared(e, c, h, s, cache, q.Key(), RulesNow(e, q))
    ensures q.Key() in cache && cache[q.Key()] == ""
  {
    hide GroupReady;
  }

  lemma CachedAlready(e: Env, h: string -> string, x: System, g: Progress, q: Policy)
    requires Holds(e, h, x.world, x.store, x.cache, g) && q in x.world.policies && q.Key() in g.passes
    ensures q.Key() in x.cache
  {
    PassesDone(e, h, x, g, q);
    hide GroupReady, Holds;
  }

  /** A prepared policy's cache entry does not change. */
  lemma CacheSettled(e: Env, h: string -> string, x: System, g: Progress, past: set<nat>, i: nat, f: Fault,
                     pick: string, q: Policy)
    requires Known(e, h, x, g, past, i) && q in x.world.policies && q.Key() in g.passes
    ensures var y := Acted(e, h, x, i, f, pick);
            q.Key() in x.cache && q.Key() in y.cache && y.cache[q.Key()] == x.cache[q.Key()]
  {
    hide Steady, Faithful, Injective, Call, Racing, Holds;
    KnownHolds(e, h, x, g, past, i);
    CachedAlready(e, h, x, g, q);
    if x.tasks[i].Remember? && x.tasks[i].plan.key == q.Key() {
      OwnIsFresh(e, h, x, g, past, i, q);
      RememberedSame(e, h, x, g, past, i, q);
    }
  }

  lemma CacheAndProgress(e: Env, h: string -> string, x: System, g: Progress, past: set<nat>, i: nat, f: Fault,
                         pick: string)
    requires Known(e, h, x, g, past, i) && i < |x.tasks|
    ensures Protocol.CacheKept(x.world, g, x.cache, Acted(e, h, x, i, f, pick).cache)
    ensures Further(x.world, g, Counted(g, past, i, x.tasks[i]))
  {
    hide Known, Acted;
    forall q | q in x.world.policies && q.Key() in g.passes && g.passes[q.Key()] >= 2
      ensures q.Key() in x.cache && q.Key() in Acted(e, h, x, i, f, pick).cache
              && Acted(e, h, x, i, f, pick).cache[q.Key()] == x.cache[q.Key()]
    {
      CacheSettled(e, h, x, g, past, i, f, pick, q);
    }
  }

  /** What a call leaves of the ports. */
  lemma PortsAfter(e: Env, h: string -> string, x: System, i: nat, f: Fault, pick: string)
    requires i < |x.tasks|
    ensures var t, y := x.tasks[i], Acted(e, h, x, i, f, pick);
            if t.WritePort? && Aligns(x.store, t, f)
               then y.store.ports == x.store.ports[t.port := t.list] && t.port in x.store.ports
            else y.store.ports == x.store.ports
  {
    var t := x.tasks[i];
    CallPorts(e, x.world.cluster, h, x.store, t, f, pick);
    if t.WritePort? {
      assert Call(e, x.world.cluster, h, x.store, t, f, pick) ==
               (if f.Before? then x.store else UpdatePort(x.store, t.port, t.list).0, Idle);
    }
    hide Call, Racing;
  }

  lemma PodTaskGoesOn(e: Env, c: Cluster, h: string -> string, s: Store, t: Task, f: Fault, pick: string)
    ensures var t' := Call(e, c, h, s, t, f, pick).1;
            t'.ReadPort? || t'.WritePort? ==> t.ReadPort? && t'.pod == t.pod && t'.port == t.port && t'.list == t.list
  {
    hide ListedForms, SetName, GroupName, RuleSync.WantOf, RuleSync.Describing, NeutronClient.HasRule,
         Ordering.SortStrings;
  }

  /** A list that was current is, whatever call is made. */
  lemma ListStays(e: Env, h: string -> string, x: System, g: Progress, past: set<nat>, i: nat, f: Fault, pick: string,
                  k: string, list: seq<string>)
    requires Known(e, h, x, g, past, i) && i < |x.tasks| && Current(e, x.baseline, x.cache, x.world, g, k, list)
    ensures Current(e, x.baseline, Acted(e, h, x, i, f, pick).cache, x.world, Counted(g, past, i, x.tasks[i]), k, list)
  {
    hide Known, Acted, Current;
    CacheAndProgress(e, h, x, g, past, i, f, pick);
    CurrentKept(e, x.baseline, x.cache, Acted(e, h, x, i, f, pick).cache, x.world, g, Counted(g, past, i, x.tasks[i]),
                k, list);
  }

  lemma PodTaskAfter(e: Env, h: string -> string, x: System, l: Ledger, i: nat, f: Fault, pick: string, j: nat)
    requires Known(e, h, x, l.progress, l.past, i) && i < |x.tasks| && PodsRight(e, x, l) && j < |x.tasks|
    ensures var y, l' := Acted(e, h, x, i, f, pick), NextLedger(e, h, x, l, Act(i, f, pick));
            PodTaskRight(e, y, l', y.tasks[j])
  {
    hide Known, Call, Racing, Current, Aligns, AllAligned;
    var y, l' := Acted(e, h, x, i, f, pick), NextLedger(e, h, x, l, Act(i, f, pick));
    var t, u := x.tasks[j], y.tasks[j];
    assert PodTaskRight(e, x, l, t);
    if j == i { PodTaskGoesOn(e, x.world.cluster, h, x.store, t, f, pick); }
    if (u.ReadPort? || u.WritePort?) && u.pod in l.current {
      ListStays(e, h, x, l.progress, l.past, i, f, pick, u.pod, u.list);
    }
    if (u.ReadPort? || u.WritePort?) && j != i { OthersPod(x.tasks, i, j); }
  }

  lemma OthersPod(tasks: seq<Task>, i: nat, j: nat)
    requires PodsApart(tasks) && i < |tasks| && j < |tasks| && i != j && PodOf(tasks[j]).Some?
    ensures PodOf(tasks[i]) != PodOf(tasks[j])
  {
  }

  lemma PortSame(have: seq<string>, list: seq<string>)
    requires Ordering.SortStrings(have) == list
    ensures SameGroups(have, list) && SameGroups(list, list)
  {
    SortedSameGroups(have, list);
  }

  lemma PlacedApart(w: World, k: string, l: string)
    requires WellFormed(w) && k in w.placed && l in w.placed && k != l
    ensures w.placed[k] != w.placed[l]
  {
  }

  /** A pod is aligned by a current list and a port with the same groups. */
  lemma AlignedBy(e: Env, b: BaselineIds, cache: map<string, string>, w: World, g: Progress, s: Store, k: string,
                  list: seq<string>)
    requires k in w.placed && w.placed[k] in s.ports
    requires Current(e, b, cache, w, g, k, list) && SameGroups(s.ports[w.placed[k]], list)
    ensures Aligned(e, b, cache, w, g, s, k)
  {
    hide Current, SameGroups;
  }

  lemma AlignedGives(e: Env, b: BaselineIds, cache: map<string, string>, w: World, g: Progress, s: Store, k: string)
    returns (list: seq<string>)
    requires Aligned(e, b, cache, w, g, s, k)
    ensures k in w.placed && w.placed[k] in s.ports
    ensures Current(e, b, cache, w, g, k, list) && SameGroups(s.ports[w.placed[k]], list)
  {
    hide Current, SameGroups;
    list :| Current(e, b, cache, w, g, k, list) && SameGroups(s.ports[w.placed[k]], list);
  }

  lemma PodTaskIs(e: Env, x: System, l: Ledger, i: nat)
    requires PodsRight(e, x, l) && i < |x.tasks| && (x.tasks[i].ReadPort? || x.tasks[i].WritePort?)
    ensures var t := x.tasks[i];
            && t.pod in x.world.placed && x.world.placed[t.pod] == t.port
            && (t.pod in l.current ==> Current(e, x.baseline, x.cache, x.world, l.progress, t.pod, t.list))
            && (t.pod in l.aligned ==> t.pod in l.current)
  {
    hide Current, AllAligned, PodsApart;
    assert PodTaskRight(e, x, l, x.tasks[i]);
  }

  lemma AlignsIs(s: Store, t: Task, f: Fault)
    requires Aligns(s, t, f)
    ensures (t.ReadPort? || t.WritePort?) && t.port in s.ports
    ensures t.ReadPort? ==> SameGroups(s.ports[t.port], t.list)
  {
    hide Ordering.SortStrings, SameGroups;
    if t.ReadPort? { PortSame(s.ports[t.port], t.list); }
  }

  /** The pod whose port a call dealt with. */
  lemma AlignedNow(e: Env, h: string -> string, x: System, l: Ledger, i: nat, f: Fault, pick: string)
    requires Known(e, h, x, l.progress, l.past, i) && i < |x.tasks| && PodsRight(e, x, l)
    requires Aligns(x.store, x.tasks[i], f) && x.tasks[i].pod in l.current
    ensures var y := Acted(e, h, x, i, f, pick);
            Aligned(e, x.baseline, y.cache, x.world, Counted(l.progress, l.past, i, x.tasks[i]), y.store,
                    x.tasks[i].pod)
  {
    hide Known, Acted, Current, PodsRight, SameGroups, Aligns, Counted, Aligned;
    var t, y := x.tasks[i], Acted(e, h, x, i, f, pick);
    AlignsIs(x.store, t, f);
    PodTaskIs(e, x, l, i);
    PortsAfter(e, h, x, i, f, pick);
    ListStays(e, h, x, l.progress, l.past, i, f, pick, t.pod, t.list);
    SameAsItself(t.list);
    AlignedBy(e, x.baseline, y.cache, x.world, Counted(l.progress, l.past, i, t), y.store, t.pod, t.list);
  }

  /** And every pod aligned before. */
  lemma AlignedStill(e: Env, h: string -> string, x: System, l: Ledger, i: nat, f: Fault, pick: string, k: string)
    requires Known(e, h, x, l.progress, l.past, i) && i < |x.tasks| && PodsRight(e, x, l) && k in l.aligned
    requires WellFormed(x.world)
    ensures var y := Acted(e, h, x, i, f, pick);
            Aligned(e, x.baseline, y.cache, x.world, Counted(l.progress, l.past, i, x.tasks[i]), y.store, k)
  {
    hide Known, Acted, Current, SameGroups, WellFormed, Aligns, Counted, Aligned, PodTaskRight, PodsApart;
    var t, y := x.tasks[i], Acted(e, h, x, i, f, pick);
    assert Aligned(e, x.baseline, x.cache, x.world, l.progress, x.store, k);
    PortsAfter(e, h, x, i, f, pick);
    if t.WritePort? && Aligns(x.store, t, f) && t.pod == k {
      PodTaskIs(e, x, l, i);
      AlignedNow(e, h, x, l, i, f, pick);
    } else {
      var list := AlignedGives(e, x.baseline, x.cache, x.world, l.progress, x.store, k);
      ListStays(e, h, x, l.progress, l.past, i, f, pick, k, list);
      if t.WritePort? && Aligns(x.store, t, f) {
        PodTaskIs(e, x, l, i);
        PlacedApart(x.world, k, t.pod);
      }
      AlignedBy(e, x.baseline, y.cache, x.world, Counted(l.progress, l.past, i, t), y.store, k, list);
    }
  }

  lemma PodsStayApart(tasks: seq<Task>, i: nat, t: Task)
    requires PodsApart(tasks) && i < |tasks| && (PodOf(t) == PodOf(tasks[i]) || PodOf(t) == None)
    ensures PodsApart(tasks[i := t])
  {
    hide PodOf;
  }

  lemma ActApart(e: Env, h: string -> string, x: System, i: nat, f: Fault, pick: string)
    requires i < |x.tasks| && PodsApart(x.tasks)
    ensures PodsApart(Acted(e, h, x, i, f, pick).tasks)
  {
    hide Call, PodsApart, Racing;
    PodTaskGoesOn(e, x.world.cluster, h, x.store, x.tasks[i], f, pick);
    PodsStayApart(x.tasks, i, Acted(e, h, x, i, f, pick).tasks[i]);
  }

  lemma ActOnCourse(e: Env, h: string -> string, x: System, l: Ledger, i: nat, f: Fault, pick: string)
    requires Faithful(e) && Injective(h) && OnCourse(e, h, x, l) && i < |x.tasks|
    ensures OnCourse(e, h, Next(e, h, x, Act(i, f, pick)), NextLedger(e, h, x, l, Act(i, f, pick)))
  {
    hide Faithful, Injective, Steady, Acted, PodTaskRight, PodsApart, AllAligned, WellFormed, Safe, Aligned, Aligns,
         Holds, TasksSteady;
    assert Known(e, h, x, l.progress, l.past, i);
    hide Known;
    var y, l' := Acted(e, h, x, i, f, pick), NextLedger(e, h, x, l, Act(i, f, pick));
    SteadySafe(e, h, x, l.progress, l.past);
    ActSteady(e, h, x, l.progress, l.past, i, f, pick);
    FewerPast(e, h, y, l'.progress, l.past, l'.past);
    ActApart(e, h, x, i, f, pick);
    SameTaskCount(e, h, x, i, f, pick);
    forall j | 0 <= j < |y.tasks| ensures PodTaskRight(e, y, l', y.tasks[j]) {
      PodTaskAfter(e, h, x, l, i, f, pick, j);
    }
    AlignedAfter(e, h, x, l, i, f, pick);
  }

  lemma SameTaskCount(e: Env, h: string -> string, x: System, i: nat, f: Fault, pick: string)
    requires i < |x.tasks|
    ensures var y := Acted(e, h, x, i, f, pick);
            |y.tasks| == |x.tasks| && y.world == x.world && y.baseline == x.baseline
  {
    hide Call, Racing;
  }

  lemma AlignedAfter(e: Env, h: string -> string, x: System, l: Ledger, i: nat, f: Fault, pick: string)
    requires Known(e, h, x, l.progress, l.past, i) && i < |x.tasks| && PodsRight(e, x, l) && WellFormed(x.world)
    ensures AllAligned(e, Acted(e, h, x, i, f, pick), NextLedger(e, h, x, l, Act(i, f, pick)))
  {
    hide Known, Acted, PodsRight, WellFormed, Aligned, Aligns;
    var y, l' := Acted(e, h, x, i, f, pick), NextLedger(e, h, x, l, Act(i, f, pick));
    SameTaskCount(e, h, x, i, f, pick);
    forall k | k in l'.aligned ensures Aligned(e, y.baseline, y.cache, y.world, l'.progress, y.store, k) {
      if k in l.aligned {
        AlignedStill(e, h, x, l, i, f, pick, k);
      } else {
        AlignedNow(e, h, x, l, i, f, pick);
      }
    }
  }

  // ----- work taken up -----

  /** Nothing but a task that is no pod's was taken up, or a policy forgotten. */
  lemma PodsUndisturbed(e: Env, x: System, y: System, l: Ledger, i: nat)
    requires PodsRight(e, x, l) && y.store == x.store && y.world == x.world && y.baseline == x.baseline
    requires Protocol.CacheKept(x.world, l.progress, x.cache, y.cache)
    requires y.tasks == x.tasks
             || (i < |x.tasks| == |y.tasks| && PodOf(y.tasks[i]) == None && y.tasks == x.tasks[i := y.tasks[i]])
    ensures PodsRight(e, y, l)
  {
    hide Current, Protocol.CacheKept, SameGroups;
    assert Further(x.world, l.progress, l.progress);
    forall k, list | Current(e, x.baseline, x.cache, x.world, l.progress, k, list)
      ensures Current(e, x.baseline, y.cache, x.world, l.progress, k, list)
    {
      CurrentKept(e, x.baseline, x.cache, y.cache, x.world, l.progress, l.progress, k, list);
    }
    if y.tasks != x.tasks { PodsStayApart(x.tasks, i, y.tasks[i]); }
    hide PodsApart;
    forall j | 0 <= j < |y.tasks| ensures PodTaskRight(e, y, l, y.tasks[j]) {
      if y.tasks[j] == x.tasks[j] { assert PodTaskRight(e, x, l, x.tasks[j]); }
    }
    forall k | k in l.aligned ensures Aligned(e, y.baseline, y.cache, y.world, l.progress, y.store, k) {
      assert Aligned(e, x.baseline, x.cache, x.world, l.progress, x.store, k);
    }
  }

  lemma SameCacheKept(e: Env, h: string -> string, x: System, g: Progress, cache: map<string, string>)
    requires Holds(e, h, x.world, x.store, x.cache, g)
    requires forall q :: q in x.world.policies && q.Key() in x.cache ==>
               q.Key() in cache && cache[q.Key()] == x.cache[q.Key()]
    ensures Protocol.CacheKept(x.world, g, x.cache, cache)
  {
    hide Holds;
    forall q | q in x.world.policies && q.Key() in g.passes && g.passes[q.Key()] >= 2
      ensures q.Key() in x.cache
    {
      CachedAlready(e, h, x, g, q);
    }
  }

  lemma PolicyTakenOnCourse(e: Env, h: string -> string, x: System, l: Ledger, i: nat, key: string, keys: seq<string>)
    requires OnCourse(e, h, x, l) && Free(x, i)
    ensures OnCourse(e, h, PolicyTaken(e, x, i, key, keys), l)
  {
    hide Steady, PolicyTaken, PodsRight, RulesNow, Members, Safe, WellFormed, Holds, TasksSteady, Protocol.CacheKept;
    var y := PolicyTaken(e, x, i, key, keys);
    PolicyTakenSteady(e, h, x, l.progress, l.past, i, key, keys);
    PolicyTakenIs(e, x, i, key, keys);
    SteadySafe(e, h, x, l.progress, l.past);
    SameCacheKept(e, h, x, l.progress, y.cache);
    PodsUndisturbed(e, x, y, l, i);
  }

  lemma SweepTakenOnCourse(e: Env, h: string -> string, x: System, l: Ledger, i: nat)
    requires Injective(h) && OnCourse(e, h, x, l) && Free(x, i)
    ensures OnCourse(e, h, Next(e, h, x, TakeSweep(i)), l)
  {
    hide Steady, PodsRight, Safe, WellFormed, Holds, TasksSteady, Protocol.CacheKept, Injective;
    var y := Next(e, h, x, TakeSweep(i));
    SweepTakenSteady(e, h, x, l.progress, l.past, i);
    SteadySafe(e, h, x, l.progress, l.past);
    SameCacheKept(e, h, x, l.progress, y.cache);
    PodsUndisturbed(e, x, y, l, i);
  }

  /** A pod whose port is aligned is one whose policies are settled. */
  lemma AlignedSettled(e: Env, x: System, l: Ledger, key: string)
    requires WellFormed(x.world) && AllAligned(e, x, l) && key in l.aligned
    ensures SettledFor(x.world, l.progress, key)
  {
    assert Aligned(e, x.baseline, x.cache, x.world, l.progress, x.store, key);
    var list :| Current(e, x.baseline, x.cache, x.world, l.progress, key, list);
    var pod :| pod in x.world.cluster.pods && PodKey(pod) == key && Settled(x.world, l.progress, pod.namespace);
    KeyTellsPodsApart(x.world, pod, FindPod(x.world.cluster.pods, key).value);
  }

  lemma PodTakenIs(e: Env, x: System, i: nat, key: string)
    requires Free(x, i)
    ensures var y, pod := PodTaken(e, x, i, key), FindPod(x.world.cluster.pods, key);
            || y == x
            || (pod.Some? && key in x.world.placed && ListOf(e, x.baseline, x.cache, x.world, pod.value).Ok?
                && (forall j :: 0 <= j < |x.tasks| ==> PodOf(x.tasks[j]) != Some(key))
                && y == x.(tasks := x.tasks[i := ReadPort(key, x.world.placed[key],
                                                          ListOf(e, x.baseline, x.cache, x.world, pod.value).value)]))
  {
    hide ListOf, Controllers.NamespaceIn;
  }

  lemma PodTakenOnCourse(e: Env, h: string -> string, x: System, l: Ledger, i: nat, key: string)
    requires OnCourse(e, h, x, l) && Free(x, i)
    ensures OnCourse(e, h, PodTaken(e, x, i, key), NextLedger(e, h, x, l, TakePod(i, key)))
  {
    hide Steady, PodTaken, Safe, WellFormed, Holds, TasksSteady, ListOf, AllAligned, Current, SettledFor;
    var y, l' := PodTaken(e, x, i, key), NextLedger(e, h, x, l, TakePod(i, key));
    PodTakenSteady(e, h, x, l.progress, l.past, i, key);
    PodTakenIs(e, x, i, key);
    SteadySafe(e, h, x, l.progress, l.past);
    if y.tasks != x.tasks {
      PodTaskTaken(e, h, x, l, i, key);
      ApartTaken(x.tasks, i, y.tasks[i]);
      hide PodsApart;
      forall j | 0 <= j < |y.tasks| ensures PodTaskRight(e, y, l', y.tasks[j]) {
        if j != i { assert PodTaskRight(e, x, l, x.tasks[j]); }
      }
      AlignedSameStore(e, x, y, l, l');
    }
  }

  lemma AlignedSameStore(e: Env, x: System, y: System, l: Ledger, l': Ledger)
    requires AllAligned(e, x, l) && l'.aligned == l.aligned && l'.progress == l.progress
    requires y.store == x.store && y.world == x.world && y.baseline == x.baseline && y.cache == x.cache
    ensures AllAligned(e, y, l')
  {
    hide Aligned;
  }

  lemma ApartTaken(tasks: seq<Task>, i: nat, t: Task)
    requires PodsApart(tasks) && i < |tasks| && forall j :: 0 <= j < |tasks| ==> PodOf(tasks[j]) != PodOf(t)
    ensures PodsApart(tasks[i := t])
  {
  }

  /** A list just worked out is current when its policies are settled. */
  lemma PodTaskTaken(e: Env, h: string -> string, x: System, l: Ledger, i: nat, key: string)
    requires WellFormed(x.world) && PodsRight(e, x, l) && Free(x, i) && PodTaken(e, x, i, key).tasks != x.tasks
    ensures var y, l' := PodTaken(e, x, i, key), NextLedger(e, h, x, l, TakePod(i, key));
            PodTaskRight(e, y, l', y.tasks[i])
  {
    PodTakenIs(e, x, i, key);
    hide PodTaken, ListOf, WellFormed;
    if key in l.aligned { AlignedSettled(e, x, l, key); }
  }

  lemma NextOnCourse(e: Env, h: string -> string, x: System, l: Ledger, m: Move)
    requires Faithful(e) && Injective(h) && OnCourse(e, h, x, l) && !m.Edit?
    ensures OnCourse(e, h, Next(e, h, x, m), NextLedger(e, h, x, l, m))
    ensures Next(e, h, x, m).world == x.world && Next(e, h, x, m).baseline == x.baseline
  {
    hide Faithful, Injective, OnCourse, Acted, PolicyTaken, PodTaken;
    match m
    case TakePolicy(i, key, keys) =>
      if Free(x, i) {
        PolicyTakenIs(e, x, i, key, keys);
        PolicyTakenOnCourse(e, h, x, l, i, key, keys);
      }
    case TakePod(i, key) =>
      if Free(x, i) {
        PodTakenIs(e, x, i, key);
        PodTakenOnCourse(e, h, x, l, i, key);
      }
    case TakeSweep(i) => if Free(x, i) { SweepTakenOnCourse(e, h, x, l, i); }
    case Act(i, f, pick) =>
      if i < |x.tasks| {
        SameTaskCount(e, h, x, i, f, pick);
        ActOnCourse(e, h, x, l, i, f, pick);
      }
  }

  // ----- any run -----

  lemma StartsOnCourse(e: Env, h: string -> string, x: System)
    requires Safe(h, x) && PodsApart(x.tasks)
    requires forall i :: 0 <= i < |x.tasks| ==> Half(e, h, x.world, x.store, x.tasks[i])
    ensures OnCourse(e, h, x, NothingDone(x))
  {
    hide Safe, Half, PodsApart;
    forall i | 0 <= i < |x.tasks|
      ensures TaskSteady(e, h, x.world, x.store, NoProgress, x.tasks[i], i in Going(x))
      ensures PodTaskRight(e, x, NothingDone(x), x.tasks[i])
    {
      if i !in Going(x) {
        assert x.tasks[i] == Idle;
        IdleIsSteady(e, h, x.world, x.store, NoProgress);
      }
      HalfPlaced(e, h, x.world, x.store, x.tasks[i]);
    }
    hide TaskSteady;
    IsSteady(e, h, x, NoProgress, Going(x));
  }

  lemma HalfPlaced(e: Env, h: string -> string, w: World, s: Store, t: Task)
    requires Half(e, h, w, s, t)
    ensures PortNow(w, t)
  {
    hide HalfwayAt;
  }

  lemma {:induction false} RunOnCourse(e: Env, h: string -> string, x: System, moves: seq<Move>)
    requires Faithful(e) && Injective(h) && OnCourse(e, h, x, NothingDone(x)) && NoEdits(moves)
    ensures var y := Reached(e, h, x, moves);
            OnCourse(e, h, y, LedgerAfter(e, h, x, moves)) && y.world == x.world && y.baseline == x.baseline
  {
    hide Faithful, Injective, OnCourse, Next, NextLedger, NothingDone;
    if moves != [] {
      var init := moves[..|moves| - 1];
      RunOnCourse(e, h, x, init);
      NextOnCourse(e, h, Reached(e, h, x, init), LedgerAfter(e, h, x, init), moves[|moves| - 1]);
    }
  }

  /** No two workers are ever at one pod. */
  lemma NextApart(e: Env, h: string -> string, x: System, m: Move)
    requires PodsApart(x.tasks)
    ensures PodsApart(Next(e, h, x, m).tasks)
  {
    hide PodsApart, Acted, PolicyTaken, PodTaken, RulesNow, Members;
    match m
    case TakePolicy(i, key, keys) =>
      if Free(x, i) {
        PolicyTakenIs(e, x, i, key, keys);
        var y := PolicyTaken(e, x, i, key, keys);
        if y.tasks != x.tasks { PodsStayApart(x.tasks, i, y.tasks[i]); }
      }
    case TakePod(i, key) =>
      if Free(x, i) {
        PodTakenIs(e, x, i, key);
        var y := PodTaken(e, x, i, key);
        if y.tasks != x.tasks { ApartTaken(x.tasks, i, y.tasks[i]); }
      }
    case TakeSweep(i) =>
      if Free(x, i) { PodsStayApart(x.tasks, i, ListGroups(KeysOfPolicies(x.world.policies))); }
    case Act(i, f, pick) => if i < |x.tasks| { ActApart(e, h, x, i, f, pick); }
    case Edit(_, _) =>
  }

  lemma {:induction false} RunApart(e: Env, h: string -> string, x: System, moves: seq<Move>)
    requires PodsApart(x.tasks)
    ensures PodsApart(Reached(e, h, x, moves).tasks)
  {
    hide PodsApart, Next;
    if moves != [] {
      RunApart(e, h, x, moves[..|moves| - 1]);
      NextApart(e, h, Reached(e, h, x, moves[..|moves| - 1]), moves[|moves| - 1]);
    }
  }

  /** The settle theorem, call by call, from any safe state: any work under way,
      begun before the last edit or since. first lasts until all that work has
      ended, second until all work begun meanwhile has. What is begun after that
      counts: through any moves but edits - any number of workers and sweeps side
      by side, any calls failing, pod sets made twice or not - the port of every
      pod the ledger counts as aligned means what the policies say. */
  lemma SettlesAnyhow(e: Env, h: string -> string, x: System, first: seq<Move>, second: seq<Move>, third: seq<Move>,
                      pod: Pod, f: Flow)
    requires Faithful(e) && HostRoutes(e) && Injective(h) && Safe(h, x) && PodsApart(x.tasks)
    requires NoEdits(first) && NoEdits(second) && NoEdits(third)
    requires StillGoing(e, h, x, first) == {} && StillGoing(e, h, Reached(e, h, x, first), second) == {}
    requires pod in x.world.cluster.pods
    requires PodKey(pod) in LedgerAfter(e, h, Reached(e, h, Reached(e, h, x, first), second), third).aligned
    ensures var y := Reached(e, h, Reached(e, h, Reached(e, h, x, first), second), third);
            y.world == x.world && AlignedPortMeans(e, y.world, y.store, pod, f)
  {
    hide Faithful, HostRoutes, Injective, Safe, Reached, LedgerAfter, OnCourse, Half, PodsApart, NoEdits, StillGoing,
         PortMeans, NothingDone;
    var z := Reached(e, h, Reached(e, h, x, first), second);
    TwoGenerations(e, h, x, first, second);
    RunApart(e, h, x, first);
    RunApart(e, h, Reached(e, h, x, first), second);
    StartsOnCourse(e, h, z);
    RunOnCourse(e, h, z, third);
    AlignedIsRight(e, h, Reached(e, h, z, third), LedgerAfter(e, h, z, third), pod, f);
  }

  lemma AlignedIsRight(e: Env, h: string -> string, y: System, l: Ledger, pod: Pod, f: Flow)
    requires Faithful(e) && HostRoutes(e) && Injective(h) && OnCourse(e, h, y, l)
    requires pod in y.world.cluster.pods && PodKey(pod) in l.aligned
    ensures AlignedPortMeans(e, y.world, y.store, pod, f)
  {
    hide Faithful, HostRoutes, Injective, Safe, TasksSteady, PortMeans, Holds, Aligned, WellFormed, StoreGood,
         ValidStore;
    SteadySafe(e, h, y, l.progress, l.past);
    SafeStore(h, y);
    assert Aligned(e, y.baseline, y.cache, y.world, l.progress, y.store, PodKey(pod));
    AlignedMeans(e, h, y.baseline, y.cache, y.world, l.progress, y.store, pod, f);
    AlignedPlaced(e, y, l, PodKey(pod));
  }

  lemma SafeStore(h: string -> string, y: System)
    requires Safe(h, y)
    ensures WellFormed(y.world) && ValidStore(y.store) && BaselineHolds(y.store, y.baseline)
  {
    hide WellFormed, CacheSafe, TaskSafe, KeysApart;
    GoodIs(h, y.store, y.baseline, y.raced);
    GoodIsWhole(h, y.store, y.baseline, y.raced);
  }

  lemma AlignedPlaced(e: Env, y: System, l: Ledger, key: string)
    requires Aligned(e, y.baseline, y.cache, y.world, l.progress, y.store, key)
    ensures key in y.world.placed && y.world.placed[key] in y.store.ports
  {
    hide Current;
  }

  lemma OneMoreMove(e: Env, h: string -> string, x: System, moves: seq<Move>, m: Move)
    ensures Reached(e, h, x, moves + [m]) == Next(e, h, Reached(e, h, x, moves), m)
    ensures LedgerAfter(e, h, x, moves + [m]) ==
              NextLedger(e, h, Reached(e, h, x, moves), LedgerAfter(e, h, x, moves), m)
  {
    assert (moves + [m])[..|moves|] == moves;
    hide Next, NextLedger;
  }

  lemma FirstCallAligns(e: Env, h: string -> string, x: System, l: Ledger, i: nat)
    requires i < |x.tasks| && x.tasks[i].ReadPort? && x.tasks[i].pod in l.current && x.tasks[i].port in x.store.ports
    ensures var t, y, l' := x.tasks[i], Next(e, h, x, Act(i, NoFault, "")), NextLedger(e, h, x, l, Act(i, NoFault, ""));
            t.pod in l'.aligned
            || (y.store == x.store && i < |y.tasks| && y.tasks[i] == WritePort(t.pod, t.port, t.list)
                                    && t.pod in l'.current)
  {
    hide Racing, Ordering.SortStrings;
  }

  lemma SecondCallAligns(e: Env, h: string -> string, x: System, l: Ledger, i: nat)
    requires i < |x.tasks| && x.tasks[i].WritePort? && x.tasks[i].pod in l.current
    requires Writable(x.store, Verdict(x.tasks[i].port, x.tasks[i].list))
    ensures x.tasks[i].pod in NextLedger(e, h, x, l, Act(i, NoFault, "")).aligned
  {
  }

  lemma AlignedGrows(e: Env, h: string -> string, x: System, l: Ledger, m: Move)
    ensures l.aligned <= NextLedger(e, h, x, l, m).aligned
  {
    hide PodTaken, Aligns;
  }

  /** And the ledger counts a pod once its policies are settled, a worker takes
      it, and its two calls go through. */
  lemma TakenIsAligned(e: Env, h: string -> string, x: System, moves: seq<Move>, i: nat, key: string)
    requires var y, l := Reached(e, h, x, moves), LedgerAfter(e, h, x, moves);
             && Free(y, i) && SettledFor(y.world, l.progress, key) && PodTaken(e, y, i, key).tasks != y.tasks
             && key in y.world.placed && PodTaken(e, y, i, key).tasks[i].ReadPort?
             && Writable(y.store, Verdict(y.world.placed[key], PodTaken(e, y, i, key).tasks[i].list))
    ensures key in LedgerAfter(e, h, x,
                               moves + [TakePod(i, key)] + [Act(i, NoFault, "")] + [Act(i, NoFault, "")]).aligned
  {
    hide Reached, LedgerAfter, PodTaken, ListOf, SettledFor, Acted;
    var y, l := Reached(e, h, x, moves), LedgerAfter(e, h, x, moves);
    var a, b := moves + [TakePod(i, key)], moves + [TakePod(i, key)] + [Act(i, NoFault, "")];
    OneMoreMove(e, h, x, moves, TakePod(i, key));
    OneMoreMove(e, h, x, a, Act(i, NoFault, ""));
    OneMoreMove(e, h, x, b, Act(i, NoFault, ""));
    PodTakenIs(e, y, i, key);
    var y1, l1 := Reached(e, h, x, a), LedgerAfter(e, h, x, a);
    assert y1.tasks[i].ReadPort? && y1.tasks[i].pod == key && key in l1.current && y1.store == y.store;
    hide NextLedger, Next;
    FirstCallAligns(e, h, y1, l1, i);
    var y2, l2 := Reached(e, h, x, b), LedgerAfter(e, h, x, b);
    AlignedGrows(e, h, y2, l2, Act(i, NoFault, ""));
    if key !in l2.aligned { SecondCallAligns(e, h, y2, l2, i); }
  }
}
