/** The two queues of pkg/netpol/controller.go over time: what events, passes and
    the resync put on them, and what every port is worth once both are drained. */
module Draining {
  import opened Wrappers
  import opened NetworkPolicy
  import opened Translate
  import opened Baseline
  import opened Groups
  import opened Composition
  import opened Protocol
  import opened Events
  import Settling
  import Controllers

  /** What holds outside the queues: ports is the list each pod's port was last
      brought to, by pod; seen the cache it was worked out from. */
  datatype Queues = Queues(
    world: World,
    cache: map<string, string>,
    pods: set<string>,
    policies: set<string>,
    ports: map<string, seq<string>>,
    seen: map<string, map<string, string>>)

  /** made is what a pass over a policy returns, if its calls go through; aligned
      whether a pod's do. */
  datatype Step =
    | Happen(event: Event, world: World)
    | PassPolicy(policy: string, made: Option<string>)
    | PassPod(pod: string, aligned: bool)
    | Resync

  /** A pass over a queued policy; one that fails stays queued. */
  function PolicyPassed(e: Env, q: Queues, key: string, made: Option<string>): Queues {
    var p := FindPolicy(q.world.policies, key);
    if Controllers.NamespaceIn(key) !in q.world.cluster.served then q.(policies := q.policies - {key})
    else if p.None? then q.(policies := q.policies - {key}, cache := q.cache - {key})
    else if Translation(e, p.value).Err? || made.None? then q
    else if RulesFor(e, p.value) == [] then q.(policies := q.policies - {key}, cache := q.cache[key := ""])
    else if made.value == "" then q
    else q.(policies := q.policies - {key}, cache := q.cache[key := made.value])
  }

  /** A pass over a queued pod; one whose policy is pending nudges it and waits. */
  function PodPassed(e: Env, b: BaselineIds, q: Queues, key: string, aligned: bool): Queues {
    var pod := FindPod(q.world.cluster.pods, key);
    if Controllers.NamespaceIn(key) !in q.world.cluster.served || pod.None? || key !in q.world.placed then
      q.(pods := q.pods - {key})
    else
      match ListOf(e, b, q.cache, q.world, pod.value)
      case Err(Pending(policy)) => q.(policies := q.policies + {policy})
      case Err(_) => q
      case Ok(list) =>
        if aligned then q.(pods := q.pods - {key}, ports := q.ports[key := list], seen := q.seen[key := q.cache]) else q
  }

  /** A pod keeps its port as long as it is there. */
  predicate PortsKept(q: Queues, w: World) {
    forall k :: k in q.ports && FindPod(w.cluster.pods, k).Some? ==> k in w.placed
  }

  /** One step; one whose turn has not come changes nothing. */
  ghost function Next(e: Env, b: BaselineIds, q: Queues, step: Step): Queues {
    match step
    case Happen(ev, w) =>
      if Happens(ev, q.world, w) && WellFormed(w) && PortsKept(q, w) then
        q.(world := w, pods := q.pods + QueuedPods(w, ev), policies := q.policies + QueuedPolicies(w, ev),
           ports := map k | k in q.ports && FindPod(w.cluster.pods, k).Some? :: q.ports[k])
      else q
    case PassPolicy(key, made) => if key in q.policies then PolicyPassed(e, q, key, made) else q
    case PassPod(key, aligned) => if key in q.pods then PodPassed(e, b, q, key, aligned) else q
    case Resync => q.(policies := q.policies + ServedPolicies(q.world))
  }

  ghost function After(e: Env, b: BaselineIds, q: Queues, steps: seq<Step>): Queues {
    if steps == [] then q else Next(e, b, After(e, b, q, steps[..|steps| - 1]), steps[|steps| - 1])
  }

  // ----- what the queues keep -----

  /** A pod not queued has the list of its facts as they are - by the cache as it
      was when the pod was taken. */
  ghost predicate PodInStep(e: Env, b: BaselineIds, q: Queues, pod: Pod) {
    var k := PodKey(pod);
    k in q.ports && k !in q.pods ==> k in q.seen && ListOf(e, b, q.seen[k], q.world, pod) == Ok(q.ports[k])
  }

  /** A policy not queued is cached, under no group exactly when it has no rules. */
  predicate PolicyInStep(e: Env, q: Queues, p: Policy) {
    p.Key() !in q.policies ==>
      && Translation(e, p).Ok? && p.Key() in q.cache && (q.cache[p.Key()] == "" <==> RulesFor(e, p) == [])
  }

  ghost predicate InStep(e: Env, b: BaselineIds, q: Queues) {
    && WellFormed(q.world)
    && (forall pod :: pod in q.world.cluster.pods && pod.namespace in q.world.cluster.served ==>
          PodInStep(e, b, q, pod))
    && (forall p :: p in q.world.policies && p.namespace in q.world.cluster.served ==> PolicyInStep(e, q, p))
  }

  lemma FoundPod(w: World, pod: Pod)
    requires WellFormed(w) && pod in w.cluster.pods
    ensures FindPod(w.cluster.pods, PodKey(pod)) == Some(pod) && Controllers.NamespaceIn(PodKey(pod)) == pod.namespace
  {
    Controllers.KeysNamePods(w, PodKey(pod));
  }

  lemma FoundPolicy(w: World, p: Policy)
    requires WellFormed(w) && p in w.policies
    ensures FindPolicy(w.policies, p.Key()) == Some(p) && Controllers.NamespaceIn(p.Key()) == p.namespace
  {
    KeyTellsPoliciesApart(w, p, FindPolicy(w.policies, p.Key()).value);
    Controllers.KeysName(w.policies, p.Key());
  }

  // ----- an event -----

  /** The pod an event left as it was, or changed. */
  function Was(ev: Event, pod: Pod): Pod {
    if ev.PodUpdated? && pod == ev.pod then ev.before else pod
  }

  lemma PodAfterEvent(e: Env, b: BaselineIds, q: Queues, ev: Event, w: World, pod: Pod)
    requires InStep(e, b, q) && Happens(ev, q.world, w) && WellFormed(w) && PortsKept(q, w)
    requires pod in w.cluster.pods && pod.namespace in w.cluster.served
    ensures PodInStep(e, b, Next(e, b, q, Happen(ev, w)), pod)
  {
    var r, k := Next(e, b, q, Happen(ev, w)), PodKey(pod);
    if k in r.ports && k !in r.pods {
      var a := Was(ev, pod);
      assert a in q.world.cluster.pods && PodKey(a) == k && a.namespace == pod.namespace;
      assert PodInStep(e, b, q, a);
      hide InStep, WellFormed, QueuedPods, Happens;
      if AllFacts(e, a, PoliciesOf(q.world.policies, a.namespace))
         != AllFacts(e, pod, PoliciesOf(w.policies, pod.namespace)) {
        FactsChangeQueued(e, ev, q.world, w, a, pod);
      }
    }
  }

  lemma PolicyAfterEvent(e: Env, b: BaselineIds, q: Queues, ev: Event, w: World, p: Policy)
    requires InStep(e, b, q) && Happens(ev, q.world, w) && WellFormed(w) && PortsKept(q, w)
    requires p in w.policies && p.namespace in w.cluster.served
    ensures PolicyInStep(e, Next(e, b, q, Happen(ev, w)), p)
  {
    hide Translation;
    if ev.PolicyAdded? || ev.PolicyUpdated? {
      if p.Key() == ev.policy.Key() { KeyTellsPoliciesApart(w, p, ev.policy); }
    }
    if p in q.world.policies { assert PolicyInStep(e, q, p); }
  }

  // ----- a pass -----

  lemma PodElsewhere(e: Env, b: BaselineIds, q: Queues, key: string, aligned: bool, other: string)
    requires other != key
    ensures var r := PodPassed(e, b, q, key, aligned);
            && r.world == q.world && (other in r.pods <==> other in q.pods) && (other in r.ports <==> other in q.ports)
            && (other in q.ports ==> r.ports[other] == q.ports[other])
            && (other in r.seen <==> other in q.seen) && (other in q.seen ==> r.seen[other] == q.seen[other])
  {
    hide ListOf;
  }

  lemma PodAfterPodPass(e: Env, b: BaselineIds, q: Queues, key: string, aligned: bool, pod: Pod)
    requires InStep(e, b, q) && PortsKept(q, q.world) && key in q.pods
    requires pod in q.world.cluster.pods && pod.namespace in q.world.cluster.served
    ensures PodInStep(e, b, PodPassed(e, b, q, key, aligned), pod)
  {
    hide WellFormed, ListOf, FindPod, Controllers.NamespaceIn, PolicyInStep;
    assert WellFormed(q.world) && PodInStep(e, b, q, pod);
    hide InStep;
    if PodKey(pod) == key {
      FoundPod(q.world, pod);
      hide PodKey;
    } else {
      PodElsewhere(e, b, q, key, aligned, PodKey(pod));
      hide PodPassed;
    }
  }

  lemma PolicyAfterPass(e: Env, b: BaselineIds, q: Queues, key: string, made: Option<string>, p: Policy)
    requires InStep(e, b, q) && p in q.world.policies && p.namespace in q.world.cluster.served
    ensures PolicyInStep(e, PolicyPassed(e, q, key, made), p)
  {
    assert PolicyInStep(e, q, p);
    if p.Key() == key {
      FoundPolicy(q.world, p);
      hide InStep, WellFormed, FindPolicy, Controllers.NamespaceIn, Translation;
    } else {
      PolicyElsewhere(e, q, key, made, p.Key());
      hide InStep, WellFormed, PolicyPassed;
    }
  }

  lemma PolicyElsewhere(e: Env, q: Queues, key: string, made: Option<string>, other: string)
    requires other != key
    ensures var r := PolicyPassed(e, q, key, made);
            && (other in r.policies <==> other in q.policies) && (other in r.cache <==> other in q.cache)
            && (other in q.cache ==> r.cache[other] == q.cache[other])
  {
    hide Translation, RulesFor;
  }

  lemma PodsOnly(e: Env, b: BaselineIds, q: Queues, key: string, aligned: bool)
    ensures var r := PodPassed(e, b, q, key, aligned);
            r.world == q.world && r.cache == q.cache && q.policies <= r.policies && r.pods <= q.pods
  {
    hide ListOf;
  }

  lemma PoliciesOnly(e: Env, q: Queues, key: string, made: Option<string>)
    ensures var r := PolicyPassed(e, q, key, made);
            r.world == q.world && r.pods == q.pods && r.ports == q.ports && r.seen == q.seen && r.policies <= q.policies
  {
    hide Translation, RulesFor, FindPolicy, Controllers.NamespaceIn;
  }

  // ----- every step -----

  lemma InStepIs(e: Env, b: BaselineIds, q: Queues)
    requires WellFormed(q.world)
    requires forall pod :: pod in q.world.cluster.pods && pod.namespace in q.world.cluster.served ==>
               PodInStep(e, b, q, pod)
    requires forall p :: p in q.world.policies && p.namespace in q.world.cluster.served ==> PolicyInStep(e, q, p)
    ensures InStep(e, b, q)
  {
  }

  lemma EventInStep(e: Env, b: BaselineIds, q: Queues, ev: Event, w: World)
    requires InStep(e, b, q) && PortsKept(q, q.world)
    ensures var r := Next(e, b, q, Happen(ev, w)); InStep(e, b, r) && PortsKept(r, r.world)
  {
    var r := Next(e, b, q, Happen(ev, w));
    hide WellFormed, Happens, PodInStep, PolicyInStep, QueuedPods, QueuedPolicies;
    if Happens(ev, q.world, w) && WellFormed(w) && PortsKept(q, w) {
      forall pod | pod in w.cluster.pods && pod.namespace in w.cluster.served ensures PodInStep(e, b, r, pod) {
        PodAfterEvent(e, b, q, ev, w, pod);
      }
      forall p | p in w.policies && p.namespace in w.cluster.served ensures PolicyInStep(e, r, p) {
        PolicyAfterEvent(e, b, q, ev, w, p);
      }
      InStepIs(e, b, r);
    }
  }

  lemma PodPassInStep(e: Env, b: BaselineIds, q: Queues, key: string, aligned: bool)
    requires InStep(e, b, q) && PortsKept(q, q.world) && key in q.pods
    ensures var r := PodPassed(e, b, q, key, aligned); InStep(e, b, r) && PortsKept(r, r.world)
  {
    var r := PodPassed(e, b, q, key, aligned);
    PodsOnly(e, b, q, key, aligned);
    PortsStayKept(e, b, q, key, aligned);
    hide WellFormed, PodInStep, PodPassed, Translation, RulesFor;
    forall pod | pod in q.world.cluster.pods && pod.namespace in q.world.cluster.served
      ensures PodInStep(e, b, r, pod)
    {
      PodAfterPodPass(e, b, q, key, aligned, pod);
    }
    forall p | p in q.world.policies && p.namespace in q.world.cluster.served ensures PolicyInStep(e, r, p) {
      assert PolicyInStep(e, q, p);
    }
    InStepIs(e, b, r);
  }

  lemma PortsStayKept(e: Env, b: BaselineIds, q: Queues, key: string, aligned: bool)
    requires PortsKept(q, q.world)
    ensures var r := PodPassed(e, b, q, key, aligned); PortsKept(r, r.world)
  {
    hide ListOf;
  }

  lemma PolicyPassInStep(e: Env, b: BaselineIds, q: Queues, key: string, made: Option<string>)
    requires InStep(e, b, q) && PortsKept(q, q.world)
    ensures var r := PolicyPassed(e, q, key, made); InStep(e, b, r) && PortsKept(r, r.world)
  {
    var r := PolicyPassed(e, q, key, made);
    PoliciesOnly(e, q, key, made);
    hide WellFormed, PolicyPassed, PolicyInStep, ListOf;
    forall pod | pod in q.world.cluster.pods && pod.namespace in q.world.cluster.served
      ensures PodInStep(e, b, r, pod)
    {
      assert PodInStep(e, b, q, pod);
    }
    forall p | p in q.world.policies && p.namespace in q.world.cluster.served ensures PolicyInStep(e, r, p) {
      PolicyAfterPass(e, b, q, key, made, p);
    }
    InStepIs(e, b, r);
  }

  lemma ResyncInStep(e: Env, b: BaselineIds, q: Queues)
    requires InStep(e, b, q) && PortsKept(q, q.world)
    ensures var r := Next(e, b, q, Resync); InStep(e, b, r) && PortsKept(r, r.world)
  {
    var r := Next(e, b, q, Resync);
    hide WellFormed, ListOf, Translation, RulesFor, ServedPolicies;
    forall pod | pod in q.world.cluster.pods && pod.namespace in q.world.cluster.served
      ensures PodInStep(e, b, r, pod)
    {
      assert PodInStep(e, b, q, pod);
    }
    forall p | p in q.world.policies && p.namespace in q.world.cluster.served ensures PolicyInStep(e, r, p) {
      assert PolicyInStep(e, q, p);
    }
    InStepIs(e, b, r);
  }

  lemma {:induction false} RunInStep(e: Env, b: BaselineIds, q: Queues, steps: seq<Step>)
    requires InStep(e, b, q) && PortsKept(q, q.world)
    ensures var r := After(e, b, q, steps); InStep(e, b, r) && PortsKept(r, r.world)
  {
    hide InStep, PortsKept, PolicyPassed, PodPassed;
    if steps != [] {
      var before := After(e, b, q, steps[..|steps| - 1]);
      RunInStep(e, b, q, steps[..|steps| - 1]);
      match steps[|steps| - 1]
      case Happen(ev, w) => EventInStep(e, b, before, ev, w);
      case PassPolicy(key, made) => if key in before.policies { PolicyPassInStep(e, b, before, key, made); }
      case PassPod(key, aligned) => if key in before.pods { PodPassInStep(e, b, before, key, aligned); }
      case Resync => ResyncInStep(e, b, before);
    }
  }

  // ----- lists from two caches -----

  /** An id is one policy's group's for ever, and none of the baseline's. */
  predicate OwnId(b: BaselineIds, owner: string -> string, key: string, id: string) {
    id != "" ==> owner(id) == key && id != b.ingress && id != b.egress && id != b.denyAll
  }

  predicate OwnIds(b: BaselineIds, owner: string -> string, cache: map<string, string>) {
    forall k :: k in cache ==> OwnId(b, owner, k, cache[k])
  }

  /** Some policy isolates the pod in some direction. */
  predicate Confined(facts: seq<Facts>) {
    !(Open(facts, Ingress) && Open(facts, Egress))
  }

  /** The two caches have the same for every policy a list draws on. */
  predicate SameEntries(facts: seq<Facts>, seen: map<string, string>, cache: map<string, string>) {
    forall x :: x in facts && x.selects && x.allows ==>
      x.key in seen && x.key in cache && seen[x.key] == cache[x.key]
  }

  lemma ListDrawsOn(b: BaselineIds, cache: map<string, string>, facts: seq<Facts>)
    requires GroupList(b, cache, facts).Ok? && Confined(facts)
    ensures forall x :: x in facts && x.selects && x.allows ==> x.key in cache
  {
    IsolatedList(b, cache, facts);
    PolicyGroupsAre(cache, facts);
  }

  /** An entry that differs shows in one of the lists. */
  lemma EntryShows(b: BaselineIds, owner: string -> string, one: map<string, string>, two: map<string, string>,
                   facts: seq<Facts>, x: Facts)
    requires GroupList(b, one, facts).Ok? && GroupList(b, two, facts).Ok? && Confined(facts)
    requires OwnIds(b, owner, one) && OwnIds(b, owner, two)
    requires x in facts && x.selects && x.allows && x.key in one && x.key in two && one[x.key] != two[x.key]
    requires one[x.key] != ""
    ensures one[x.key] in GroupList(b, one, facts).value && one[x.key] !in GroupList(b, two, facts).value
  {
    hide GroupList, Open;
    GroupListMembers(b, one, facts, one[x.key]);
    GroupListMembers(b, two, facts, one[x.key]);
    assert Carries(one, x, one[x.key]);
    assert OwnId(b, owner, x.key, one[x.key]);
    forall y | y in facts && y.key in two ensures !Carries(two, y, one[x.key]) {
      assert OwnId(b, owner, y.key, two[y.key]);
    }
  }

  /** Two caches give one pod one list exactly when they have the same for every
      policy it draws on - or nothing confines the pod. */
  lemma ListsAgree(b: BaselineIds, owner: string -> string, one: map<string, string>, two: map<string, string>,
                   facts: seq<Facts>)
    requires GroupList(b, one, facts).Ok? && GroupList(b, two, facts).Ok?
    requires OwnIds(b, owner, one) && OwnIds(b, owner, two)
    ensures SameGroups(GroupList(b, one, facts).value, GroupList(b, two, facts).value) <==>
              (Confined(facts) ==> SameEntries(facts, one, two))
  {
    hide GroupList, Open, OwnIds, Confined;
    if Confined(facts) {
      ListDrawsOn(b, one, facts);
      ListDrawsOn(b, two, facts);
      if SameEntries(facts, one, two) {
        SameEntriesSameGroups(b, one, two, facts);
      } else {
        var x :| x in facts && x.selects && x.allows && one[x.key] != two[x.key];
        if one[x.key] != "" {
          EntryShows(b, owner, one, two, facts, x);
        } else {
          EntryShows(b, owner, two, one, facts, x);
        }
      }
    } else {
      UnconfinedSame(b, one, two, facts);
    }
  }

  lemma SameEntriesSameGroups(b: BaselineIds, one: map<string, string>, two: map<string, string>, facts: seq<Facts>)
    requires GroupList(b, one, facts).Ok? && GroupList(b, two, facts).Ok? && SameEntries(facts, one, two)
    ensures SameGroups(GroupList(b, one, facts).value, GroupList(b, two, facts).value)
  {
    hide GroupList, Open;
    forall g ensures g in GroupList(b, one, facts).value <==> g in GroupList(b, two, facts).value {
      GroupListMembers(b, one, facts, g);
      GroupListMembers(b, two, facts, g);
      forall x | x in facts ensures Carries(one, x, g) <==> Carries(two, x, g) { }
    }
  }

  lemma UnconfinedSame(b: BaselineIds, one: map<string, string>, two: map<string, string>, facts: seq<Facts>)
    requires GroupList(b, one, facts).Ok? && GroupList(b, two, facts).Ok? && !Confined(facts)
    ensures SameGroups(GroupList(b, one, facts).value, GroupList(b, two, facts).value)
  {
    hide GroupList;
    forall g ensures g in GroupList(b, one, facts).value <==> g in GroupList(b, two, facts).value {
      GroupListMembers(b, one, facts, g);
      GroupListMembers(b, two, facts, g);
    }
  }

  // ----- drained -----

  ghost predicate IdsOwn(b: BaselineIds, owner: string -> string, q: Queues) {
    OwnIds(b, owner, q.cache) && forall k :: k in q.seen ==> OwnIds(b, owner, q.seen[k])
  }

  predicate Fits(b: BaselineIds, owner: string -> string, step: Step) {
    step.PassPolicy? && step.made.Some? ==> OwnId(b, owner, step.policy, step.made.value)
  }

  lemma NextIdsOwn(e: Env, b: BaselineIds, owner: string -> string, q: Queues, step: Step)
    requires IdsOwn(b, owner, q) && Fits(b, owner, step)
    ensures IdsOwn(b, owner, Next(e, b, q, step))
  {
    hide Happens, WellFormed, ListOf, Translation, RulesFor, QueuedPods, QueuedPolicies;
  }

  lemma {:induction false} RunIdsOwn(e: Env, b: BaselineIds, owner: string -> string, q: Queues, steps: seq<Step>)
    requires IdsOwn(b, owner, q) && forall step :: step in steps ==> Fits(b, owner, step)
    ensures IdsOwn(b, owner, After(e, b, q, steps))
  {
    hide IdsOwn, Next, Fits;
    if steps != [] {
      RunIdsOwn(e, b, owner, q, steps[..|steps| - 1]);
      NextIdsOwn(e, b, owner, After(e, b, q, steps[..|steps| - 1]), steps[|steps| - 1]);
    }
  }

  predicate Drained(q: Queues) {
    q.pods == {} && q.policies == {}
  }

  function FactsNow(e: Env, q: Queues, pod: Pod): seq<Facts> {
    AllFacts(e, pod, PoliciesOf(q.world.policies, pod.namespace))
  }

  /** The port carries what its pod's list is now. */
  ghost predicate PortRight(e: Env, b: BaselineIds, q: Queues, pod: Pod) {
    && PodKey(pod) in q.ports && ListOf(e, b, q.cache, q.world, pod).Ok?
    && SameGroups(q.ports[PodKey(pod)], ListOf(e, b, q.cache, q.world, pod).value)
  }

  lemma DrainedListGiven(e: Env, b: BaselineIds, q: Queues, pod: Pod)
    requires InStep(e, b, q) && q.policies == {} && pod.namespace in q.world.cluster.served
    requires b.ingress != "" && b.egress != "" && b.denyAll != ""
    ensures ListOf(e, b, q.cache, q.world, pod).Ok?
  {
    var mine := PoliciesOf(q.world.policies, pod.namespace);
    FactsAre(e, pod, mine);
    hide WellFormed, PodInStep, RulesFor;
    forall x | x in FactsNow(e, q, pod) ensures x.ok && x.key in q.cache {
      var p :| p in mine && FactsOf(e, pod, p) == x;
      assert PolicyInStep(e, q, p);
    }
    Settling.ListGiven(b, q.cache, FactsNow(e, q, pod));
  }

  /** Once both queues are empty a port is right exactly when, for every policy
      its pod's list draws on, the cache has what it had when the pod was last
      taken: the pod worker looks at a policy whose group is not there yet, or is
      another one, and is not called again when that changes. */
  lemma DrainedRight(e: Env, b: BaselineIds, owner: string -> string, q: Queues, steps: seq<Step>, pod: Pod)
    requires InStep(e, b, q) && PortsKept(q, q.world) && IdsOwn(b, owner, q)
    requires b.ingress != "" && b.egress != "" && b.denyAll != ""
    requires forall step :: step in steps ==> Fits(b, owner, step)
    requires var r := After(e, b, q, steps);
             Drained(r) && pod in r.world.cluster.pods && pod.namespace in r.world.cluster.served
             && PodKey(pod) in r.ports
    ensures var r := After(e, b, q, steps);
            && PodKey(pod) in r.seen
            && (PortRight(e, b, r, pod) <==>
                  (Confined(FactsNow(e, r, pod)) ==> SameEntries(FactsNow(e, r, pod), r.seen[PodKey(pod)], r.cache)))
  {
    var r := After(e, b, q, steps);
    RunInStep(e, b, q, steps);
    RunIdsOwn(e, b, owner, q, steps);
    hide After, WellFormed, GroupList, Confined, SameEntries, OwnIds;
    DrainedListGiven(e, b, r, pod);
    assert PodInStep(e, b, r, pod);
    ListsAgree(b, owner, r.seen[PodKey(pod)], r.cache, FactsNow(e, r, pod));
  }

  // ----- and it can be got there -----

  lemma InStepWell(e: Env, b: BaselineIds, q: Queues)
    requires InStep(e, b, q)
    ensures WellFormed(q.world)
  {
  }

  lemma {:induction false} AfterMore(e: Env, b: BaselineIds, q: Queues, one: seq<Step>, two: seq<Step>)
    ensures After(e, b, q, one + two) == After(e, b, After(e, b, q, one), two)
  {
    hide Next;
    if two == [] {
      assert one + two == one;
    } else {
      var init, last := two[..|two| - 1], two[|two| - 1];
      assert (one + two)[..|one + two| - 1] == one + init;
      AfterMore(e, b, q, one, init);
    }
  }

  lemma AfterOne(e: Env, b: BaselineIds, q: Queues, step: Step)
    ensures After(e, b, q, [step]) == Next(e, b, q, step)
  {
    hide Next;
    assert [step][..0] == [];
  }

  /** Every policy of a served namespace translates. */
  predicate AllTranslatable(e: Env, w: World) {
    forall p :: p in w.policies && p.namespace in w.cluster.served ==> Translation(e, p).Ok?
  }

  lemma PolicyLeaves(e: Env, b: BaselineIds, q: Queues, key: string)
    requires InStep(e, b, q) && AllTranslatable(e, q.world)
    ensures PolicyPassed(e, q, key, Some("id")).policies == q.policies - {key}
  {
    var p := FindPolicy(q.world.policies, key);
    hide InStep, Translation, RulesFor, Controllers.NamespaceIn;
    InStepWell(e, b, q);
    if p.Some? { FoundPolicy(q.world, p.value); }
    hide WellFormed, FindPolicy;
  }

  lemma {:induction false} PoliciesDrain(e: Env, b: BaselineIds, q: Queues) returns (steps: seq<Step>)
    requires InStep(e, b, q) && PortsKept(q, q.world) && AllTranslatable(e, q.world)
    ensures var r := After(e, b, q, steps);
            r.policies == {} && r.world == q.world && InStep(e, b, r) && PortsKept(r, r.world)
    decreases |q.policies|
  {
    hide InStep, PortsKept, AllTranslatable, PolicyPassed, PodPassed;
    steps := [];
    if q.policies != {} {
      var key :| key in q.policies;
      var step := PassPolicy(key, Some("id"));
      AfterOne(e, b, q, step);
      PolicyLeaves(e, b, q, key);
      PoliciesOnly(e, q, key, Some("id"));
      PolicyPassInStep(e, b, q, key, Some("id"));
      var more := PoliciesDrain(e, b, Next(e, b, q, step));
      AfterMore(e, b, q, [step], more);
      steps := [step] + more;
    }
  }

  lemma PodLeaves(e: Env, b: BaselineIds, q: Queues, key: string)
    requires InStep(e, b, q) && q.policies == {} && b.ingress != "" && b.egress != "" && b.denyAll != ""
    ensures var r := PodPassed(e, b, q, key, true);
            r.pods == q.pods - {key} && r.policies == {} && r.world == q.world
  {
    var pod := FindPod(q.world.cluster.pods, key);
    hide InStep, ListOf, Controllers.NamespaceIn;
    InStepWell(e, b, q);
    if pod.Some? && Controllers.NamespaceIn(key) in q.world.cluster.served {
      FoundPod(q.world, pod.value);
      DrainedListGiven(e, b, q, pod.value);
    }
    hide WellFormed, FindPod;
  }

  lemma {:induction false} PodsDrain(e: Env, b: BaselineIds, q: Queues) returns (steps: seq<Step>)
    requires InStep(e, b, q) && PortsKept(q, q.world) && q.policies == {}
    requires b.ingress != "" && b.egress != "" && b.denyAll != ""
    ensures Drained(After(e, b, q, steps))
    decreases |q.pods|
  {
    hide InStep, PortsKept, PolicyPassed, PodPassed;
    steps := [];
    if q.pods != {} {
      var key :| key in q.pods;
      var step := PassPod(key, true);
      AfterOne(e, b, q, step);
      PodLeaves(e, b, q, key);
      PodPassInStep(e, b, q, key, true);
      var more := PodsDrain(e, b, Next(e, b, q, step));
      AfterMore(e, b, q, [step], more);
      steps := [step] + more;
    }
  }

  /** With no more events, passes that go through empty both queues: every policy
      once, and then every pod. */
  lemma QueuesDrain(e: Env, b: BaselineIds, q: Queues) returns (steps: seq<Step>)
    requires InStep(e, b, q) && PortsKept(q, q.world) && AllTranslatable(e, q.world)
    requires b.ingress != "" && b.egress != "" && b.denyAll != ""
    ensures Drained(After(e, b, q, steps))
  {
    hide InStep, PortsKept, After, AllTranslatable, Drained;
    var first := PoliciesDrain(e, b, q);
    var second := PodsDrain(e, b, After(e, b, q, first));
    AfterMore(e, b, q, first, second);
    steps := first + second;
  }

  // ----- how it goes wrong -----

  /** A pass over a policy, whatever it returns, and the resync queue no pod. */
  lemma PassQueuesNoPod(e: Env, b: BaselineIds, q: Queues, key: string, made: Option<string>)
    ensures Next(e, b, q, PassPolicy(key, made)).pods == q.pods && Next(e, b, q, Resync).pods == q.pods
  {
    hide Translation, RulesFor;
  }

  /** A policy that allowed nothing, and so is cached under no group, begins to
      allow something. Its pods are queued at once and taken; the policy is
      passed over after its delay. Then neither is queued, and the port lacks
      the group its list now names. */
  lemma LateGroupMissed(e: Env, b: BaselineIds, owner: string -> string, q: Queues, pod: Pod, p: Policy, g: string)
    requires InStep(e, b, q) && IdsOwn(b, owner, q) && g != "" && OwnId(b, owner, p.Key(), g)
    requires pod in q.world.cluster.pods && pod.namespace in q.world.cluster.served && PodKey(pod) in q.world.placed
    requires p in q.world.policies && p.namespace in q.world.cluster.served
    requires Translation(e, p).Ok? && RulesFor(e, p) != [] && Selects(e, pod, p)
    requires PodKey(pod) in q.pods && p.Key() in q.policies && p.Key() in q.cache && q.cache[p.Key()] == ""
    requires ListOf(e, b, q.cache, q.world, pod).Ok? && Confined(FactsNow(e, q, pod))
    ensures var r := After(e, b, q, [PassPod(PodKey(pod), true), PassPolicy(p.Key(), Some(g))]);
            && r.pods == q.pods - {PodKey(pod)} && r.policies == q.policies - {p.Key()}
            && ListOf(e, b, r.cache, r.world, pod).Ok? && g in ListOf(e, b, r.cache, r.world, pod).value
            && PodKey(pod) in r.ports && g !in r.ports[PodKey(pod)]
  {
    var k := PodKey(pod);
    var mid := PodPassed(e, b, q, k, true);
    var r := PolicyPassed(e, mid, p.Key(), Some(g));
    hide InStep, WellFormed, GroupList, Translation, RulesFor, Confined, Selects, PodPassed, PolicyPassed, IdsOwn,
         OwnIds, OwnId;
    TwoSteps(e, b, q, PassPod(k, true), PassPolicy(p.Key(), Some(g)));
    InStepWell(e, b, q);
    FoundPod(q.world, pod);
    FoundPolicy(q.world, p);
    TakenGives(e, b, q, k, pod);
    MadeGives(e, mid, p, g);
    LateFact(e, q, pod, p);
    StillGiven(b, q.cache, FactsNow(e, q, pod), p.Key(), g);
    CacheOwns(b, owner, q, p.Key(), g);
    hide After;
    EntryShows(b, owner, r.cache, q.cache, FactsNow(e, q, pod), FactsOf(e, pod, p));
  }

  lemma CacheOwns(b: BaselineIds, owner: string -> string, q: Queues, key: string, g: string)
    requires IdsOwn(b, owner, q) && OwnId(b, owner, key, g)
    ensures OwnIds(b, owner, q.cache) && OwnIds(b, owner, q.cache[key := g])
  {
  }

  lemma TakenGives(e: Env, b: BaselineIds, q: Queues, k: string, pod: Pod)
    requires FindPod(q.world.cluster.pods, k) == Some(pod) && Controllers.NamespaceIn(k) in q.world.cluster.served
    requires k in q.world.placed && ListOf(e, b, q.cache, q.world, pod).Ok?
    ensures PodPassed(e, b, q, k, true) ==
              q.(pods := q.pods - {k}, ports := q.ports[k := ListOf(e, b, q.cache, q.world, pod).value],
                 seen := q.seen[k := q.cache])
  {
    hide ListOf;
  }

  lemma MadeGives(e: Env, q: Queues, p: Policy, g: string)
    requires FindPolicy(q.world.policies, p.Key()) == Some(p)
    requires Controllers.NamespaceIn(p.Key()) in q.world.cluster.served
    requires Translation(e, p).Ok? && RulesFor(e, p) != [] && g != ""
    ensures PolicyPassed(e, q, p.Key(), Some(g)) ==
              q.(policies := q.policies - {p.Key()}, cache := q.cache[p.Key() := g])
  {
    hide RulesFor, Translation;
  }

  lemma LateFact(e: Env, q: Queues, pod: Pod, p: Policy)
    requires p in q.world.policies && Translation(e, p).Ok? && RulesFor(e, p) != [] && Selects(e, pod, p)
    ensures var x := FactsOf(e, pod, p); x in FactsNow(e, q, pod) && x.selects && x.allows && x.key == p.Key()
  {
    FactsAre(e, pod, PoliciesOf(q.world.policies, pod.namespace));
    OneFact(e, pod, p);
  }

  lemma StillGiven(b: BaselineIds, cache: map<string, string>, facts: seq<Facts>, key: string, g: string)
    requires GroupList(b, cache, facts).Ok? && key in cache
    ensures GroupList(b, cache[key := g], facts).Ok?
  {
    GivenFor(cache, facts, key, g);
  }

  lemma {:induction false} GivenFor(cache: map<string, string>, facts: seq<Facts>, key: string, g: string)
    requires key in cache
    ensures PolicyGroups(cache, facts).Ok? ==> PolicyGroups(cache[key := g], facts).Ok?
  {
    if facts != [] { GivenFor(cache, facts[..|facts| - 1], key, g); }
  }

  lemma TwoSteps(e: Env, b: BaselineIds, q: Queues, x: Step, y: Step)
    ensures After(e, b, q, [x, y]) == Next(e, b, Next(e, b, q, x), y)
  {
    hide Next;
    assert After(e, b, q, []) == q;
    assert [x][..0] == [] && After(e, b, q, [x]) == Next(e, b, q, x);
    assert [x, y][..1] == [x];
  }

  // ----- a policy that is gone -----

  predicate Unlisted(w: World, key: string) {
    FindPolicy(w.policies, key).None?
  }

  predicate NeverBack(steps: seq<Step>, key: string) {
    forall step :: step in steps && step.Happen? ==> Unlisted(step.world, key)
  }

  /** Either it waits to be forgotten and will be, or what the cache has of it
      stays. */
  ghost predicate GoneAs(q: Queues, r: Queues, key: string) {
    && Unlisted(r.world, key) && r.world.cluster.served == q.world.cluster.served
    && (key in q.policies ==> key in r.policies || key !in r.cache)
    && (key !in q.policies ==> key !in r.policies && (key in r.cache <==> key in q.cache)
                               && (key in q.cache ==> r.cache[key] == q.cache[key]))
  }

  lemma PendingIsListed(e: Env, b: BaselineIds, cache: map<string, string>, w: World, pod: Pod, key: string)
    requires ListOf(e, b, cache, w, pod) == Err(Pending(key))
    ensures !Unlisted(w, key)
  {
    var mine := PoliciesOf(w.policies, pod.namespace);
    PendingIsFact(cache, AllFacts(e, pod, mine), key);
    hide GroupList, PolicyGroups, FactsOf;
    FactsAre(e, pod, mine);
    var x :| x in AllFacts(e, pod, mine) && x.key == key;
    var p :| p in mine && FactsOf(e, pod, p) == x;
    FactsKey(e, pod, p);
    assert p in w.policies && p.Key() == key;
  }

  lemma {:induction false} PendingIsFact(cache: map<string, string>, facts: seq<Facts>, key: string)
    requires PolicyGroups(cache, facts) == Err(Pending(key))
    ensures exists x :: x in facts && x.key == key
  {
    var init := facts[..|facts| - 1];
    if PolicyGroups(cache, init).Err? {
      PendingIsFact(cache, init, key);
      var x :| x in init && x.key == key;
      assert x in facts;
    } else {
      assert facts[|facts| - 1] in facts;
    }
  }

  lemma GonePodPass(e: Env, b: BaselineIds, r: Queues, k: string, aligned: bool, key: string)
    requires Unlisted(r.world, key)
    ensures var t := PodPassed(e, b, r, k, aligned);
            t.world == r.world && t.cache == r.cache && (key in t.policies <==> key in r.policies)
  {
    hide ListOf, Unlisted;
    var pod := FindPod(r.world.cluster.pods, k);
    if pod.Some? && ListOf(e, b, r.cache, r.world, pod.value) == Err(Pending(key)) {
      PendingIsListed(e, b, r.cache, r.world, pod.value, key);
    }
  }

  lemma GonePolicyPass(e: Env, r: Queues, k: string, made: Option<string>, key: string)
    requires Unlisted(r.world, key) && Controllers.NamespaceIn(key) in r.world.cluster.served
    ensures var t := PolicyPassed(e, r, k, made);
            && t.world == r.world
            && (if k == key then key !in t.policies && key !in t.cache
                else (key in t.policies <==> key in r.policies) && (key in t.cache <==> key in r.cache)
                     && (key in r.cache ==> t.cache[key] == r.cache[key]))
  {
    hide Translation, RulesFor, Controllers.NamespaceIn;
  }

  lemma GoneOn(e: Env, b: BaselineIds, q: Queues, r: Queues, step: Step, key: string)
    requires GoneAs(q, r, key) && Controllers.NamespaceIn(key) in q.world.cluster.served
    requires step.Happen? ==> Unlisted(step.world, key)
    ensures GoneAs(q, Next(e, b, r, step), key)
  {
    hide WellFormed, QueuedPolicies, QueuedPods, PodPassed, PolicyPassed, FindPolicy, Controllers.NamespaceIn;
    match step
    case Happen(ev, w) => if Happens(ev, r.world, w) { NotQueued(ev, w, key); }
    case PassPod(k, aligned) => GonePodPass(e, b, r, k, aligned, key);
    case PassPolicy(k, made) => GonePolicyPass(e, r, k, made, key);
    case Resync => NotResynced(r.world, key);
  }

  lemma NotResynced(w: World, key: string)
    requires Unlisted(w, key)
    ensures key !in ServedPolicies(w)
  {
  }

  lemma NotQueued(ev: Event, w: World, key: string)
    requires Unlisted(w, key) && (ev.PolicyAdded? || ev.PolicyUpdated? ==> ev.policy in w.policies)
    ensures key !in QueuedPolicies(w, ev)
  {
    DeletionLeavesCache(ev, w, key);
  }

  lemma {:induction false} GoneThroughout(e: Env, b: BaselineIds, q: Queues, steps: seq<Step>, key: string)
    requires Unlisted(q.world, key) && Controllers.NamespaceIn(key) in q.world.cluster.served && NeverBack(steps, key)
    ensures GoneAs(q, After(e, b, q, steps), key)
  {
    hide Next, Unlisted;
    if steps != [] {
      GoneThroughout(e, b, q, steps[..|steps| - 1], key);
      GoneOn(e, b, q, After(e, b, q, steps[..|steps| - 1]), steps[|steps| - 1], key);
    }
  }

  /** So what the cache has of a policy that is gone is still there, once its key
      is not queued any more, exactly when the key was not queued at the time it
      went: delayed, retried or waiting keys are taken and forgotten. */
  lemma GoneStaysCached(e: Env, b: BaselineIds, q: Queues, steps: seq<Step>, key: string)
    requires Unlisted(q.world, key) && Controllers.NamespaceIn(key) in q.world.cluster.served && NeverBack(steps, key)
    requires key in q.cache && key !in After(e, b, q, steps).policies
    ensures key in After(e, b, q, steps).cache <==> key !in q.policies
  {
    hide After;
    GoneThroughout(e, b, q, steps, key);
  }
}
