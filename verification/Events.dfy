/** Which keys an event queues (the handlers of pkg/netpol/controller.go), and
    that an event queues whatever its own change bears on. What follows from a
    change later, when a policy has been passed over, is the matter of Draining. */
module Events {
  import opened NetworkPolicy
  import opened Translate
  import opened Peers
  import opened Groups
  import opened Protocol

  datatype Event =
    | PodAdded(pod: Pod)
    | PodUpdated(before: Pod, pod: Pod)
    | PodDeleted(pod: Pod)
    | PolicyAdded(policy: Policy)
    | PolicyUpdated(policy: Policy)
    | PolicyDeleted(policy: Policy)

  predicate SamePolicyInputs(a: Pod, b: Pod) {
    a.labels == b.labels && a.PodIP() == b.PodIP()
  }

  function NamespacePods(w: World, ns: string): set<string> {
    set pod | pod in w.cluster.pods && pod.namespace == ns :: PodKey(pod)
  }

  function ServedPolicies(w: World): set<string> {
    set p | p in w.policies && p.namespace in w.cluster.served :: p.Key()
  }

  function PoliciesNear(w: World, pod: Pod): set<string> {
    if pod.namespace in w.cluster.served then ServedPolicies(w) else {}
  }

  /** What a handler adds to the pod queue; w is what the listers show by then. */
  function QueuedPods(w: World, ev: Event): set<string> {
    match ev
    case PodAdded(pod) => if pod.namespace in w.cluster.served then {PodKey(pod)} else {}
    case PodUpdated(a, b) => if !SamePolicyInputs(a, b) && b.namespace in w.cluster.served then {PodKey(b)} else {}
    case PodDeleted(_) => {}
    case PolicyAdded(p) => if p.namespace in w.cluster.served then NamespacePods(w, p.namespace) else {}
    case PolicyUpdated(p) => if p.namespace in w.cluster.served then NamespacePods(w, p.namespace) else {}
    case PolicyDeleted(p) => if p.namespace in w.cluster.served then NamespacePods(w, p.namespace) else {}
  }

  /** And what to the policy queue. */
  function QueuedPolicies(w: World, ev: Event): set<string> {
    match ev
    case PodAdded(pod) => PoliciesNear(w, pod)
    case PodUpdated(a, b) => if SamePolicyInputs(a, b) then {} else PoliciesNear(w, b)
    case PodDeleted(pod) => PoliciesNear(w, pod)
    case PolicyAdded(p) => if p.namespace in w.cluster.served then {p.Key()} else {}
    case PolicyUpdated(p) => if p.namespace in w.cluster.served then {p.Key()} else {}
    case PolicyDeleted(_) => {}
  }

  /** What the listers show before and after an event. */
  ghost predicate Happens(ev: Event, w: World, w': World) {
    && w'.cluster.namespaces == w.cluster.namespaces && w'.cluster.served == w.cluster.served
    && match ev
       case PodAdded(pod) =>
         w'.policies == w.policies && forall x :: x in w'.cluster.pods <==> x in w.cluster.pods || x == pod
       case PodUpdated(a, b) =>
         && w'.policies == w.policies && a in w.cluster.pods && a.namespace == b.namespace && a.name == b.name
         && forall x :: x in w'.cluster.pods <==> (x in w.cluster.pods && x != a) || x == b
       case PodDeleted(pod) =>
         w'.policies == w.policies && forall x :: x in w'.cluster.pods <==> x in w.cluster.pods && x != pod
       case PolicyAdded(p) => SamePoliciesBut(w, w', p) && p in w'.policies
       case PolicyUpdated(p) => SamePoliciesBut(w, w', p) && p in w'.policies
       case PolicyDeleted(p) => SamePoliciesBut(w, w', p) && forall x :: x in w'.policies ==> x.Key() != p.Key()
  }

  /** Only this policy differs. */
  ghost predicate SamePoliciesBut(w: World, w': World, p: Policy) {
    && w'.cluster.pods == w.cluster.pods
    && (forall ns :: ns != p.namespace ==> PoliciesOf(w'.policies, ns) == PoliciesOf(w.policies, ns))
    && forall x: Policy :: x.Key() != p.Key() ==> (x in w'.policies <==> x in w.policies)
  }

  lemma PodListedAs(e: Env, w: World, w': World, sel: PeerSelector, a: Pod, b: Pod, addr: string)
    requires w'.cluster.namespaces == w.cluster.namespaces && w'.cluster.served == w.cluster.served
    requires a.namespace == b.namespace && SamePolicyInputs(a, b)
    ensures PodListed(e, w.cluster, sel, a, addr) <==> PodListed(e, w'.cluster, sel, b, addr)
  {
    assert InNamespaces(e, w.cluster, sel, a.namespace) <==> InNamespaces(e, w'.cluster, sel, b.namespace);
  }

  lemma ListedStays(e: Env, ev: Event, w: World, w': World, sel: PeerSelector, addr: string, p: Policy)
    requires Happens(ev, w, w') && p in w'.policies && p.namespace in w'.cluster.served
    requires p.Key() !in QueuedPolicies(w', ev) && Listed(e, w.cluster, sel, addr)
    ensures Listed(e, w'.cluster, sel, addr)
  {
    var x :| x in w.cluster.pods && PodListed(e, w.cluster, sel, x, addr);
    var y := if ev.PodUpdated? && x == ev.before then ev.pod else x;
    PodListedAs(e, w, w', sel, x, y, addr);
    assert y in w'.cluster.pods;
  }

  lemma ListedWas(e: Env, ev: Event, w: World, w': World, sel: PeerSelector, addr: string, p: Policy)
    requires Happens(ev, w, w') && p in w'.policies && p.namespace in w'.cluster.served
    requires p.Key() !in QueuedPolicies(w', ev) && Listed(e, w'.cluster, sel, addr)
    ensures Listed(e, w.cluster, sel, addr)
  {
    var y :| y in w'.cluster.pods && PodListed(e, w'.cluster, sel, y, addr);
    var x := if ev.PodUpdated? && y == ev.pod then ev.before else y;
    PodListedAs(e, w, w', sel, x, y, addr);
    assert x in w.cluster.pods;
  }

  /** An event that leaves any served policy unqueued changes what no pod set
      lists - whichever policy uses the set, in whichever namespace. */
  lemma ListingChangeQueued(e: Env, ev: Event, w: World, w': World, sel: PeerSelector, addr: string, p: Policy)
    requires Happens(ev, w, w') && p in w'.policies && p.namespace in w'.cluster.served
    requires p.Key() !in QueuedPolicies(w', ev)
    ensures Listed(e, w.cluster, sel, addr) <==> Listed(e, w'.cluster, sel, addr)
  {
    hide Listed, Happens, QueuedPolicies;
    if Listed(e, w.cluster, sel, addr) { ListedStays(e, ev, w, w', sel, addr, p); }
    if Listed(e, w'.cluster, sel, addr) { ListedWas(e, ev, w, w', sel, addr, p); }
  }

  /** Whenever an event changes what selects a pod of a served namespace, or the
      policies of its namespace, the pod is queued. */
  lemma FactsChangeQueued(e: Env, ev: Event, w: World, w': World, a: Pod, b: Pod)
    requires Happens(ev, w, w') && a in w.cluster.pods && b in w'.cluster.pods && b.namespace in w'.cluster.served
    requires a == b || (ev.PodUpdated? && a == ev.before && b == ev.pod)
    requires AllFacts(e, a, PoliciesOf(w.policies, a.namespace)) != AllFacts(e, b, PoliciesOf(w'.policies, b.namespace))
    ensures PodKey(b) in QueuedPods(w', ev)
  {
    if ev.PodUpdated? && a != b && SamePolicyInputs(a, b) {
      SameFacts(e, a, b, PoliciesOf(w.policies, a.namespace));
    }
  }

  lemma {:induction false} SameFacts(e: Env, a: Pod, b: Pod, policies: seq<Policy>)
    requires a.namespace == b.namespace && a.labels == b.labels
    ensures AllFacts(e, a, policies) == AllFacts(e, b, policies)
  {
    if policies != [] {
      SameFacts(e, a, b, policies[..|policies| - 1]);
    }
  }

  /** No event queues the key of a policy that is not listed, its deletion
      included: a pod event queues only policies that are there. */
  lemma DeletionLeavesCache(ev: Event, w: World, key: string)
    requires forall p :: p in w.policies ==> p.Key() != key
    requires ev.PolicyAdded? || ev.PolicyUpdated? ==> ev.policy in w.policies
    ensures key !in QueuedPolicies(w, ev)
  {
  }

  /** An update that leaves a pod's labels and address alone queues nothing; any
      other of a served pod queues it, and every served policy. */
  lemma UpdateQueues(w: World, a: Pod, b: Pod)
    requires b.namespace in w.cluster.served
    ensures PodKey(b) in QueuedPods(w, PodUpdated(a, b)) <==> a.labels != b.labels || a.PodIP() != b.PodIP()
    ensures a.labels == b.labels && a.PodIP() == b.PodIP() ==>
              QueuedPods(w, PodUpdated(a, b)) == {} && QueuedPolicies(w, PodUpdated(a, b)) == {}
    ensures a.labels != b.labels || a.PodIP() != b.PodIP() ==>
              forall p :: p in w.policies && p.namespace in w.cluster.served ==>
                p.Key() in QueuedPolicies(w, PodUpdated(a, b))
  {
  }
}
