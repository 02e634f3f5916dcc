/** The workers of pkg/netpol/controller.go once more, with every call to Neutron
    a step of its own: any number of policy workers, pod workers and sweeps,
    interleaved anywhere, edits in between, any call failing. */
module Interleaving {
  import opened Wrappers
  import opened Faults
  import opened Text
  import opened NetworkPolicy
  import opened Translate
  import opened Peers
  import opened RuleSets
  import opened NeutronStore
  import opened NeutronClient
  import opened RuleSync
  import opened Baseline
  import opened AddressSync
  import opened Sweeping
  import opened PolicySync
  import opened Protocol
  import Controllers
  import Ordering

  /** What one pass over a policy set out to do. */
  datatype Plan = Plan(key: string, ruleSet: RuleSet, keys: seq<string>)

  /** Where a worker stands: the call it is about to make, and what it has read. */
  datatype Task =
    | Idle
    // SyncPolicyPeers: one pod set after another
    | FindSet(plan: Plan, peers: map<string, string>, i: nat)
    | MakeSet(plan: Plan, peers: map<string, string>, i: nat)
    | ReadSet(plan: Plan, peers: map<string, string>, i: nat, target: string, want: set<string>)
    | AddTo(plan: Plan, peers: map<string, string>, i: nat, target: string, want: set<string>, read: set<string>)
    | TakeFrom(plan: Plan, peers: map<string, string>, i: nat, target: string, want: set<string>, read: set<string>)
    // then EnsureRuleSet
    | FindGroup(plan: Plan, peers: map<string, string>)
    | MakeGroup(plan: Plan, peers: map<string, string>)
    | Correct(plan: Plan, peers: map<string, string>, group: string)
    | ReadRules(plan: Plan, peers: map<string, string>, group: string)
    | AddRule(plan: Plan, group: string, have: seq<StoredRule>, rules: seq<NRule>, i: nat)
    | DropRule(plan: Plan, group: string, have: seq<StoredRule>, rules: seq<NRule>, i: nat)
    | Remember(plan: Plan, group: string, have: seq<StoredRule>, rules: seq<NRule>)
    // ReconcilePod
    | ReadPort(pod: string, port: string, list: seq<string>)
    | WritePort(pod: string, port: string, list: seq<string>)
    // Sweep
    | ListGroups(live: set<string>)
    | DropGroups(live: set<string>, doomed: map<string, string>, kept: set<string>)
    | ListSets(kept: set<string>)
    | DropSets(sets: set<string>)

  /** raced holds the names under which two passes made a pod set at once. */
  datatype System = System(
    store: Store,
    world: World,
    baseline: BaselineIds,
    cache: map<string, string>,
    returned: set<(string, string)>,
    written: set<string>,
    raced: set<string>,
    tasks: seq<Task>)

  datatype Move =
    | Edit(world: World, ports: map<string, seq<string>>)
    | TakePolicy(worker: nat, policy: string, keys: seq<string>)
    | TakePod(worker: nat, pod: string)
    | TakeSweep(worker: nat)
    | Act(worker: nat, fault: Fault, pick: string)

  // ----- one call of one worker -----

  function SetKey(p: Plan, i: nat): string {
    if i < |p.keys| then p.keys[i] else ""
  }

  /** The stored forms of what a selector lists. */
  ghost function WantedOf(e: Env, c: Cluster, sel: PeerSelector): set<string> {
    set pod | pod in c.pods && PodListed(e, c, sel, pod, pod.PodIP()) :: Normalize(pod.PodIP())
  }

  /** What the selector of the i-th pod set lists. */
  ghost function ListedForms(e: Env, c: Cluster, p: Plan, i: nat): set<string> {
    if SetKey(p, i) in p.ruleSet.peers then WantedOf(e, c, p.ruleSet.peers[SetKey(p, i)]) else {}
  }

  predicate GroupExists(s: Store, name: string) {
    exists g :: g in s.groups && s.groups[g].name == name
  }

  predicate SetExists(s: Store, name: string) {
    exists a :: a in s.addressGroups && s.addressGroups[a].name == name
  }

  /** The pod sets (EnsureAddressGroup, AddressesFor, SyncAddresses). A write
      answered "already so" is taken for done; pick is what a listing shows first. */
  ghost function SetCall(e: Env, c: Cluster, h: string -> string, s: Store, t: Task, f: Fault,
                         pick: string): (Store, Task) {
    match t
    case FindSet(p, peers, i) =>
      if i >= |p.keys| then (s, if p.ruleSet.rules == [] then Remember(p, "", [], []) else FindGroup(p, peers))
      else if !f.NoFault? then (s, Idle)
      else if !SetExists(s, SetName(h, SetKey(p, i))) then (s, MakeSet(p, peers, i))
      else if pick in s.addressGroups && s.addressGroups[pick].name == SetName(h, SetKey(p, i))
      then (s, ReadSet(p, peers, i, pick, ListedForms(e, c, p, i)))
      else (s, t)
    case MakeSet(p, peers, i) =>
      (if f.Before? then s else CreateAddressGroup(s, SetName(h, SetKey(p, i))),
       if f.NoFault? then ReadSet(p, peers, i, IdOf(s.next), ListedForms(e, c, p, i)) else Idle)
    case ReadSet(p, peers, i, a, want) =>
      if !f.NoFault? || a !in s.addressGroups then (s, Idle)
      else (s, AddTo(p, peers, i, a, want, s.addressGroups[a].addresses))
    case AddTo(p, peers, i, a, want, read) =>
      if want <= read then (s, TakeFrom(p, peers, i, a, want, read))
      else
        var (u, answer) := AddAddresses(s, a, want - read);
        (if f.Before? then s else u,
         if f.NoFault? && !answer.Failed? then TakeFrom(p, peers, i, a, want, read) else Idle)
    case TakeFrom(p, peers, i, a, want, read) =>
      if read <= want then (s, FindSet(p, peers[SetKey(p, i) := a], i + 1))
      else
        var (u, answer) := RemoveAddresses(s, a, read - want);
        (if f.Before? then s else u,
         if f.NoFault? && !answer.Failed? then FindSet(p, peers[SetKey(p, i) := a], i + 1) else Idle)
    case _ => (s, t)
  }

  /** The group (ensureGroup and the one reading of its rules). */
  ghost function GroupCall(h: string -> string, s: Store, t: Task, f: Fault, pick: string): (Store, Task) {
    match t
    case FindGroup(p, peers) =>
      if !f.NoFault? then (s, Idle)
      else if !GroupExists(s, GroupName(h, p.key)) then (s, MakeGroup(p, peers))
      else if pick in s.groups && s.groups[pick].name == GroupName(h, p.key)
      then (s, if s.groups[pick].description == Describing(p.key) then ReadRules(p, peers, pick)
            else Correct(p, peers, pick))
      else (s, t)
    case MakeGroup(p, peers) =>
      (if f.Before? then s else CreateGroup(s, GroupName(h, p.key), Describing(p.key) + " [" + ManagedBy + "]"),
       if f.NoFault? then ReadRules(p, peers, IdOf(s.next)) else Idle)
    case Correct(p, peers, g) =>
      var (u, answer) := Describe(s, g, Describing(p.key));
      (if f.Before? then s else u, if f.NoFault? && answer.Done? then ReadRules(p, peers, g) else Idle)
    case ReadRules(p, peers, g) =>
      var have := if g in s.groups then s.groups[g].rules else [];
      var want := WantOf(p.ruleSet.rules, peers);
      (s, if f.NoFault? && want.Some? then AddRule(p, g, have, want.value, 0) else Idle)
    case _ => (s, t)
  }

  /** Its rules: what is missing is created, then what is stale deleted, both
      judged by the one reading. */
  ghost function RuleCall(s: Store, t: Task, f: Fault): (Store, Task) {
    match t
    case AddRule(p, g, have, want, i) =>
      if i >= |want| then (s, DropRule(p, g, have, want, 0))
      else if HasRule(have, want[i]) then (s, AddRule(p, g, have, want, i + 1))
      else
        var (u, answer) := CreateRule(s, g, want[i]);
        (if f.Before? then s else u, if f.NoFault? && !answer.Failed? then AddRule(p, g, have, want, i + 1) else Idle)
    case DropRule(p, g, have, want, i) =>
      if i >= |have| then (s, Remember(p, g, have, want))
      else if have[i].body in want then (s, DropRule(p, g, have, want, i + 1))
      else
        var (u, answer) := DeleteRule(s, g, have[i].id);
        (if f.Before? then s else u, if f.NoFault? then DropRule(p, g, have, want, i + 1) else Idle)
    case _ => (s, t)
  }

  /** A port (ReconcilePod, its Neutron half). */
  ghost function PortCall(s: Store, t: Task, f: Fault): (Store, Task) {
    match t
    case ReadPort(k, p, list) =>
      if !f.NoFault? || p !in s.ports || Ordering.SortStrings(s.ports[p]) == list then (s, Idle)
      else (s, WritePort(k, p, list))
    case WritePort(k, p, list) => (if f.Before? then s else UpdatePort(s, p, list).0, Idle)
    case _ => (s, t)
  }

  /** The sweep. Both listings may be stale by the time they are acted on; a
      group on a port and a set still named are refused. */
  ghost function SweepCall(c: Cluster, s: Store, t: Task, f: Fault, pick: string): (Store, Task) {
    match t
    case ListGroups(live) =>
      if !f.NoFault? then (s, Idle)
      else
        var doomed := map g | g in s.groups && Doomed(s.groups[g], live, c.served) :: PolicyOf(s.groups[g].description);
        (s, DropGroups(live, doomed, KeptReferences(s, doomed.Keys)))
    case DropGroups(live, doomed, kept) =>
      if doomed == map[] then (s, ListSets(kept))
      else if pick !in doomed then (s, t)
      else (if f.Before? then s else DeleteGroup(s, pick).0,
            if f.NoFault? then DropGroups(live, doomed - {pick}, kept) else Idle)
    case ListSets(kept) =>
      if !f.NoFault? then (s, Idle)
      else (s, DropSets(set a | a in s.addressGroups && HasPrefix(s.addressGroups[a].name, PeersPrefix) && a !in kept))
    case DropSets(sets) =>
      if sets == {} then (s, Idle)
      else if pick !in sets then (s, t)
      else (if f.Before? then s else DeleteAddressGroup(s, pick).0,
            if f.NoFault? then DropSets(sets - {pick}) else Idle)
    case _ => (s, t)
  }

  /** The policy a task is passing over: the work queue gives one key to one
      worker at a time. */
  function PassKey(t: Task): Option<string> {
    if t.FindSet? || t.MakeSet? || t.ReadSet? || t.AddTo? || t.TakeFrom? || t.FindGroup? || t.MakeGroup?
       || t.Correct? || t.ReadRules? || t.AddRule? || t.DropRule? || t.Remember?
    then Some(t.plan.key)
    else None
  }

  /** And so for pods. */
  function PodOf(t: Task): Option<string> {
    if t.ReadPort? || t.WritePort? then Some(t.pod) else None
  }

  ghost function Call(e: Env, c: Cluster, h: string -> string, s: Store, t: Task, f: Fault,
                      pick: string): (Store, Task) {
    if t.FindSet? || t.MakeSet? || t.ReadSet? || t.AddTo? || t.TakeFrom? then SetCall(e, c, h, s, t, f, pick)
    else if t.ReadPort? || t.WritePort? then PortCall(s, t, f)
    else if t.ListGroups? || t.DropGroups? || t.ListSets? || t.DropSets? then SweepCall(c, s, t, f, pick)
    else if t.Remember? then (s, Idle)
    else if t.AddRule? || t.DropRule? then RuleCall(s, t, f)
    else GroupCall(h, s, t, f, pick)
  }

  // ----- one move -----

  /** The names of the pod sets a task is about to make. */
  function Making(h: string -> string, t: Task): set<string> {
    if t.MakeSet? then {SetName(h, SetKey(t.plan, t.i))} else {}
  }

  function Racing(h: string -> string, x: System, i: nat): set<string>
    requires i < |x.tasks|
  {
    set j, n | 0 <= j < |x.tasks| && j != i && n in Making(h, x.tasks[j]) && n in Making(h, x.tasks[i]) :: n
  }

  ghost function Acted(e: Env, h: string -> string, x: System, i: nat, f: Fault, pick: string): System
    requires i < |x.tasks|
  {
    var t := x.tasks[i];
    var (s, t') := Call(e, x.world.cluster, h, x.store, t, f, pick);
    x.(store := s,
       tasks := x.tasks[i := t'],
       raced := x.raced + Racing(h, x, i),
       written := if t.WritePort? && s != x.store then x.written + {t.port} else x.written,
       cache := if t.Remember? then x.cache[t.plan.key := t.group] else x.cache,
       returned := if t.Remember? && t.group != "" then x.returned + {(t.plan.key, t.group)} else x.returned)
  }

  predicate Free(x: System, i: nat) {
    i < |x.tasks| && x.tasks[i].Idle?
  }

  /** A worker takes a policy key that is not being worked on. */
  ghost function PolicyTaken(e: Env, x: System, i: nat, key: string, keys: seq<string>): System
    requires Free(x, i)
  {
    var p := FindPolicy(x.world.policies, key);
    if (exists j :: 0 <= j < |x.tasks| && PassKey(x.tasks[j]) == Some(key))
       || Controllers.NamespaceIn(key) !in x.world.cluster.served then x
    else if p.None? then x.(cache := x.cache - {key})
    else if Translation(e, p.value).Err? then x
    else
      var rs := RulesOfPolicy(Translation(e, p.value).value);
      if Members(keys) != rs.peers.Keys || !Ordering.SortedBy(keys, Ordering.StrLe) || !Ordering.NoRepeats(keys) then x
      else x.(tasks := x.tasks[i := FindSet(Plan(key, rs, keys), map[], 0)])
  }

  /** A worker takes a pod nobody else has, and works its list out from the
      cache. */
  ghost function PodTaken(e: Env, x: System, i: nat, key: string): System
    requires Free(x, i)
  {
    var pod := FindPod(x.world.cluster.pods, key);
    if (exists j :: 0 <= j < |x.tasks| && PodOf(x.tasks[j]) == Some(key))
       || Controllers.NamespaceIn(key) !in x.world.cluster.served || pod.None? || key !in x.world.placed
       || ListOf(e, x.baseline, x.cache, x.world, pod.value).Err? then x
    else x.(tasks := x.tasks[i := ReadPort(key, x.world.placed[key],
                                           ListOf(e, x.baseline, x.cache, x.world, pod.value).value)])
  }

  /** One move; one whose turn has not come changes nothing. */
  ghost function Next(e: Env, h: string -> string, x: System, m: Move): System {
    match m
    case Edit(w, ports) =>
      if !WellFormed(w) then x
      else x.(world := w, store := x.store.(ports := ports),
              written := set p | p in x.written && p in x.store.ports && p in ports && ports[p] == x.store.ports[p])
    case TakePolicy(i, key, keys) => if Free(x, i) then PolicyTaken(e, x, i, key, keys) else x
    case TakePod(i, key) => if Free(x, i) then PodTaken(e, x, i, key) else x
    case TakeSweep(i) =>
      if Free(x, i) then x.(tasks := x.tasks[i := ListGroups(Controllers.KeysOfPolicies(x.world.policies))]) else x
    case Act(i, f, pick) => if i < |x.tasks| then Acted(e, h, x, i, f, pick) else x
  }

  ghost function Reached(e: Env, h: string -> string, x: System, moves: seq<Move>): System {
    if moves == [] then x else Next(e, h, Reached(e, h, x, moves[..|moves| - 1]), moves[|moves| - 1])
  }
}
