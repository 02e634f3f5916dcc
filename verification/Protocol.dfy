/** The invariants of the two workers and the sweep of pkg/netpol/controller.go
    over the cache of pkg/netpol/reconciler.go, and that each kind of step keeps
    them. */
module Protocol {
  import opened Wrappers
  import opened Text
  import opened NetworkPolicy
  import opened Translate
  import opened RuleSets
  import opened NeutronStore
  import opened NeutronClient
  import opened RuleSync
  import opened Baseline
  import opened NeutronMeaning
  import opened Groups
  import opened Composition
  import opened Sweeping
  import opened PolicySync
  import opened Preparation
  import opened PolicyFacts
  import opened PolicyPass

  /** What the listers show: pods, policies, and the port of each placed pod
      that is not being deleted. */
  datatype World = World(cluster: Cluster, policies: seq<Policy>, placed: map<string, string>)

  function PodKey(pod: Pod): string {
    pod.namespace + "/" + pod.name
  }

  predicate WellFormed(w: World) {
    && (forall p :: p in w.policies ==> ValidPolicy(p))
    && (forall i, j :: 0 <= i < j < |w.policies| ==> w.policies[i].Key() != w.policies[j].Key())
    && (forall i, j :: 0 <= i < j < |w.cluster.pods| ==> PodKey(w.cluster.pods[i]) != PodKey(w.cluster.pods[j]))
    && (forall k, l :: k in w.placed && l in w.placed && k != l ==> w.placed[k] != w.placed[l])
    && (forall pod :: pod in w.cluster.pods ==> !HasChar(pod.namespace, '/'))
    && PlainPods(w.cluster)
  }

  function FindPolicy(policies: seq<Policy>, key: string): (r: Option<Policy>)
    ensures r.Some? ==> r.value in policies && r.value.Key() == key
    ensures r.None? ==> forall p :: p in policies ==> p.Key() != key
  {
    if policies == [] then None
    else if policies[0].Key() == key then Some(policies[0])
    else FindPolicy(policies[1..], key)
  }

  function FindPod(pods: seq<Pod>, key: string): (r: Option<Pod>)
    ensures r.Some? ==> r.value in pods && PodKey(r.value) == key
    ensures r.None? ==> forall p :: p in pods ==> PodKey(p) != key
  {
    if pods == [] then None
    else if PodKey(pods[0]) == key then Some(pods[0])
    else FindPod(pods[1..], key)
  }

  /** policiesFor: every policy of a namespace, in lister order. */
  function PoliciesOf(policies: seq<Policy>, ns: string): (r: seq<Policy>)
    ensures forall p :: p in r <==> p in policies && p.namespace == ns
  {
    if policies == [] then []
    else (if policies[0].namespace == ns then [policies[0]] else []) + PoliciesOf(policies[1..], ns)
  }

  lemma KeyTellsPoliciesApart(w: World, p: Policy, q: Policy)
    requires WellFormed(w) && p in w.policies && q in w.policies && p.Key() == q.Key()
    ensures p == q
  {
    var i :| 0 <= i < |w.policies| && w.policies[i] == p;
    var j :| 0 <= j < |w.policies| && w.policies[j] == q;
  }

  lemma KeyTellsPodsApart(w: World, p: Pod, q: Pod)
    requires WellFormed(w) && p in w.cluster.pods && q in w.cluster.pods && PodKey(p) == PodKey(q)
    ensures p == q
  {
    var i :| 0 <= i < |w.cluster.pods| && w.cluster.pods[i] == p;
    var j :| 0 <= j < |w.cluster.pods| && w.cluster.pods[j] == q;
  }

  // ----- what every step keeps -----

  /** The store: valid, one object per name used here, and the baseline intact. */
  ghost predicate StoreSafe(h: string -> string, s: Store, b: BaselineIds) {
    ValidStore(s) && StoredForms(s) && UniqueNames(h, s) && BaselineHolds(s, b)
  }

  /** An id handed out as the group of a policy: while a group has it, that
      group is the policy's own, and no group made later can take it. */
  ghost predicate GroupOf(h: string -> string, s: Store, key: string, id: string) {
    && (id in s.groups ==> s.groups[id].name == GroupName(h, key))
    && forall n: nat :: n >= s.next ==> id != IdOf(n)
  }

  /** Everything in the cache was returned for that very policy. */
  ghost predicate CacheSafe(h: string -> string, s: Store, cache: map<string, string>,
                            returned: set<(string, string)>) {
    && (forall k :: k in cache && cache[k] != "" ==> (k, cache[k]) in returned)
    && (forall k, id :: (k, id) in returned ==> GroupOf(h, s, k, id))
  }

  /** A list worked out for a pod's port, not written yet. */
  datatype Verdict = Verdict(port: string, list: seq<string>)

  /** Every list judged or written carries the anchor group. */
  ghost predicate ListsSafe(s: Store, b: BaselineIds, judged: map<string, Verdict>, written: set<string>) {
    && (forall k :: k in judged ==> b.denyAll in judged[k].list)
    && (forall p :: p in written && p in s.ports ==> b.denyAll in s.ports[p])
  }

  // ----- what is known since the last edit -----

  ghost predicate PolicyDone(e: Env, h: string -> string, w: World, s: Store, cache: map<string, string>,
                             p: Policy, passes: nat) {
    && Translation(e, p).Ok?
    && (passes >= 1 ==> Prepared(e, w.cluster, h, s, cache, p.Key(), RulesOfPolicy(Translation(e, p).value)))
    && (passes >= 2 ==> Complete(e, w.cluster, h, s, cache, p.Key(), RulesOfPolicy(Translation(e, p).value)))
  }

  /** How often a pass over each policy has succeeded since the last edit. */
  datatype Progress = Progress(passes: map<string, nat>)

  const NoProgress := Progress(map[])

  ghost predicate Holds(e: Env, h: string -> string, w: World, s: Store, cache: map<string, string>, g: Progress) {
    forall p :: p in w.policies && p.Key() in g.passes ==>
      g.passes[p.Key()] >= 1 && PolicyDone(e, h, w, s, cache, p, g.passes[p.Key()])
  }

  /** Every policy of a namespace has been passed over twice. */
  predicate Settled(w: World, g: Progress, ns: string) {
    forall p :: p in PoliciesOf(w.policies, ns) ==> p.Key() in g.passes && g.passes[p.Key()] >= 2
  }

  function ListOf(e: Env, b: BaselineIds, cache: map<string, string>, w: World, pod: Pod): Result<seq<string>,
  GroupsError> {
    GroupList(b, cache, AllFacts(e, pod, PoliciesOf(w.policies, pod.namespace)))
  }

  /** The list to write for a pod was worked out with its policies settled. */
  ghost predicate Current(e: Env, b: BaselineIds, cache: map<string, string>, w: World, g: Progress, key: string,
                          list: seq<string>) {
    exists pod :: pod in w.cluster.pods && PodKey(pod) == key && Settled(w, g, pod.namespace)
                  && ListOf(e, b, cache, w, pod) == Ok(list)
  }

  ghost predicate SameGroups(a: seq<string>, b: seq<string>) {
    forall g :: g in a <==> g in b
  }

  /** A pod's port carries, as a set, the current list. */
  ghost predicate Aligned(e: Env, b: BaselineIds, cache: map<string, string>, w: World, g: Progress, s: Store,
                          key: string) {
    && key in w.placed && w.placed[key] in s.ports
    && exists list :: Current(e, b, cache, w, g, key, list) && SameGroups(s.ports[w.placed[key]], list)
  }

  // ----- each kind of step keeps it -----

  lemma BaselineNamesApart(h: string -> string, key: string)
    ensures GroupName(h, key) != AllowIngress && GroupName(h, key) != AllowEgress && GroupName(h, key) != DenyAll
    ensures !HasPrefix(AllowIngress, PolicyPrefix) && !HasPrefix(AllowEgress, PolicyPrefix)
    ensures !HasPrefix(DenyAll, PolicyPrefix)
  {
    assert GroupName(h, key)[4] == 'p';
    assert AllowIngress[4] == 'a' && AllowEgress[4] == 'a' && DenyAll[4] == 'd' && PolicyPrefix[4] == 'p';
  }

  lemma PassKeepsBaseline(e: Env, c: Cluster, h: string -> string, s: Store, t: Store, b: BaselineIds,
                          key: string, sets: map<string, PeerSelector>)
    requires PassTouches(e, c, h, s, t, key, sets) && BaselineHolds(s, b)
    ensures BaselineHolds(t, b)
  {
    BaselineNamesApart(h, key);
  }

  lemma PassKeepsCache(e: Env, c: Cluster, h: string -> string, s: Store, t: Store, cache: map<string, string>,
                       returned: set<(string, string)>, key: string, sets: map<string, PeerSelector>)
    requires PassTouches(e, c, h, s, t, key, sets) && CacheSafe(h, s, cache, returned)
    ensures CacheSafe(h, t, cache, returned)
  {
    forall k, id | (k, id) in returned ensures GroupOf(h, t, k, id) {
      assert GroupOf(h, s, k, id);
    }
  }

  /** Remembering a group just ensured keeps the cache right. */
  lemma RememberedSafe(h: string -> string, s: Store, cache: map<string, string>, returned: set<(string, string)>,
                       key: string, id: string)
    requires CacheSafe(h, s, cache, returned) && ValidStore(s)
    requires id != "" ==> id in s.groups && s.groups[id].name == GroupName(h, key)
    ensures CacheSafe(h, s, cache[key := id], if id == "" then returned else returned + {(key, id)})
  {
  }

  lemma SweepKeepsStore(h: string -> string, s: Store, t: Store, b: BaselineIds, live: set<string>, served: set<string>)
    requires StoreSafe(h, s, b) && Swept(s, t, live, served) && ValidStore(t)
    ensures StoreSafe(h, t, b)
  {
    BaselineNamesApart(h, "");
    forall x ensures OneNamed(t, GroupName(h, x)) { assert OneNamed(s, GroupName(h, x)); }
  }

  lemma SweepKeepsCache(h: string -> string, s: Store, t: Store, cache: map<string, string>,
                        returned: set<(string, string)>, live: set<string>, served: set<string>)
    requires CacheSafe(h, s, cache, returned) && Swept(s, t, live, served)
    ensures CacheSafe(h, t, cache, returned)
  {
    forall k, id | (k, id) in returned ensures GroupOf(h, t, k, id) {
      assert GroupOf(h, s, k, id);
    }
  }

  /** The sweep's reading still covers every policy passed over since. */
  predicate Covers(w: World, g: Progress, live: set<string>) {
    forall p :: p in w.policies && p.Key() in g.passes ==> p.Key() in live
  }

  lemma SweepKeepsProgress(e: Env, h: string -> string, w: World, s: Store, t: Store, cache: map<string, string>,
                           g: Progress, live: set<string>, served: set<string>)
    requires WellFormed(w) && ValidStore(s) && Swept(s, t, live, served) && Covers(w, g, live)
    requires Holds(e, h, w, s, cache, g)
    ensures Holds(e, h, w, t, cache, g)
  {
    forall p | p in w.policies && p.Key() in g.passes
      ensures PolicyDone(e, h, w, t, cache, p, g.passes[p.Key()])
    {
      PolicyIsLawful(e, p);
      SweepKeeps(e, w.cluster, h, s, t, cache, live, served, p.Key(),
                 RulesOfPolicy(Translation(e, p).value));
    }
  }

  lemma PortsKeepProgress(e: Env, h: string -> string, w: World, s: Store, ports: map<string, seq<string>>,
                          cache: map<string, string>, g: Progress)
    requires Holds(e, h, w, s, cache, g)
    ensures Holds(e, h, w, s.(ports := ports), cache, g)
  {
    forall p | p in w.policies && p.Key() in g.passes
      ensures PolicyDone(e, h, w, s.(ports := ports), cache, p, g.passes[p.Key()])
    {
      PreparedKept(e, w.cluster, h, s, s.(ports := ports), cache, cache, p.Key(),
                   RulesOfPolicy(Translation(e, p).value));
    }
  }

  /** The progress made on every other policy survives a pass over one. */
  lemma PassKeepsOthers(e: Env, h: string -> string, w: World, s: Store, t: Store, cache: map<string, string>,
                        cache': map<string, string>, g: Progress, p: Policy, q: Policy)
    requires Faithful(e) && Injective(h) && WellFormed(w) && ValidStore(s) && Holds(e, h, w, s, cache, g)
    requires p in w.policies && Translation(e, p).Ok?
    requires PassTouches(e, w.cluster, h, s, t, p.Key(), RulesOfPolicy(Translation(e, p).value).peers)
    requires q in w.policies && q.Key() in g.passes && q.Key() != p.Key()
    requires q.Key() in cache ==> q.Key() in cache' && cache'[q.Key()] == cache[q.Key()]
    ensures PolicyDone(e, h, w, t, cache', q, g.passes[q.Key()])
  {
    PoliciesAgree(e, w.cluster, q, p);
    OtherPassKeeps(e, w.cluster, h, s, t, cache, cache', p.Key(), RulesOfPolicy(Translation(e, p).value).peers,
                   q.Key(), RulesOfPolicy(Translation(e, q).value));
  }

  // ----- current lists stay current -----

  lemma {:induction false} SameCacheSameGroups(cache: map<string, string>, cache': map<string, string>,
                                               facts: seq<Facts>)
    requires forall x :: x in facts ==>
               (x.key in cache <==> x.key in cache') && (x.key in cache ==> cache[x.key] == cache'[x.key])
    ensures PolicyGroups(cache, facts) == PolicyGroups(cache', facts)
  {
    if facts != [] {
      assert facts[|facts| - 1] in facts;
      SameCacheSameGroups(cache, cache', facts[..|facts| - 1]);
    }
  }

  /** The cache has what it had for every policy passed over twice. */
  predicate CacheKept(w: World, g: Progress, cache: map<string, string>, cache': map<string, string>) {
    forall p :: p in w.policies && p.Key() in g.passes && g.passes[p.Key()] >= 2 ==>
      p.Key() in cache && p.Key() in cache' && cache'[p.Key()] == cache[p.Key()]
  }

  predicate Further(w: World, g: Progress, g': Progress) {
    forall k :: k in g.passes ==> k in g'.passes && g'.passes[k] >= g.passes[k]
  }

  lemma FactsKey(e: Env, pod: Pod, p: Policy)
    ensures FactsOf(e, pod, p).key == p.Key()
  {
  }

  lemma CurrentKept(e: Env, b: BaselineIds, cache: map<string, string>, cache': map<string, string>, w: World,
                    g: Progress, g': Progress, key: string, list: seq<string>)
    requires Current(e, b, cache, w, g, key, list) && CacheKept(w, g, cache, cache') && Further(w, g, g')
    ensures Current(e, b, cache', w, g', key, list)
  {
    var pod :| pod in w.cluster.pods && PodKey(pod) == key && Settled(w, g, pod.namespace)
               && ListOf(e, b, cache, w, pod) == Ok(list);
    var mine := PoliciesOf(w.policies, pod.namespace);
    var facts := AllFacts(e, pod, mine);
    FactsAre(e, pod, mine);
    forall x | x in facts
      ensures x.key in cache && x.key in cache' && cache[x.key] == cache'[x.key]
    {
      var p :| p in mine && FactsOf(e, pod, p) == x;
      FactsKey(e, pod, p);
    }
    SameCacheSameGroups(cache, cache', facts);
    assert Settled(w, g', pod.namespace);
    assert ListOf(e, b, cache', w, pod) == Ok(list);
  }

  lemma CurrentUnique(e: Env, b: BaselineIds, cache: map<string, string>, w: World, g: Progress, key: string,
                      list: seq<string>, list': seq<string>)
    requires WellFormed(w) && Current(e, b, cache, w, g, key, list) && Current(e, b, cache, w, g, key, list')
    ensures list == list'
  {
    var p :| p in w.cluster.pods && PodKey(p) == key && ListOf(e, b, cache, w, p) == Ok(list);
    var q :| q in w.cluster.pods && PodKey(q) == key && ListOf(e, b, cache, w, q) == Ok(list');
    KeyTellsPodsApart(w, p, q);
  }

  // ----- what an aligned port means -----

  /** A port carrying the current list lets through exactly what the policies
      selecting its pod say. */
  lemma AlignedMeans(e: Env, h: string -> string, b: BaselineIds, cache: map<string, string>, w: World,
                     g: Progress, s: Store, pod: Pod, f: Flow)
    requires Faithful(e) && HostRoutes(e) && WellFormed(w) && ValidStore(s) && BaselineHolds(s, b)
    requires Holds(e, h, w, s, cache, g) && pod in w.cluster.pods && Aligned(e, b, cache, w, g, s, PodKey(pod))
    ensures PortMeans(e, w.cluster, s, s.ports[w.placed[PodKey(pod)]], pod, PoliciesOf(w.policies, pod.namespace), f)
  {
    var port, mine := s.ports[w.placed[PodKey(pod)]], PoliciesOf(w.policies, pod.namespace);
    var list := CurrentList(e, b, cache, w, g, s, pod);
    forall p | p in mine ensures Translation(e, p).Ok? && Coherent(e, w.cluster, s, cache, p) {
      CompleteIsCoherent(e, w.cluster, h, s, cache, p);
    }
    GroupsMeanKubernetes(e, w.cluster, s, b, cache, pod, mine, f);
    SameGroupsAllowAlike(e, s, port, list, f);
  }

  lemma SameGroupsAllowAlike(e: Env, s: Store, a: seq<string>, b: seq<string>, f: Flow)
    requires SameGroups(a, b)
    ensures ListAllows(e, s, a, f) <==> ListAllows(e, s, b, f)
  {
    if x :| x in a && GroupAllows(e, s, x, f) { assert x in b; }
    if x :| x in b && GroupAllows(e, s, x, f) { assert x in a; }
  }

  lemma CurrentList(e: Env, b: BaselineIds, cache: map<string, string>, w: World, g: Progress, s: Store, pod: Pod)
    returns (list: seq<string>)
    requires WellFormed(w) && pod in w.cluster.pods && Aligned(e, b, cache, w, g, s, PodKey(pod))
    ensures Settled(w, g, pod.namespace) && ListOf(e, b, cache, w, pod) == Ok(list)
    ensures SameGroups(s.ports[w.placed[PodKey(pod)]], list)
  {
    list :| Current(e, b, cache, w, g, PodKey(pod), list) && SameGroups(s.ports[w.placed[PodKey(pod)]], list);
    var q :| q in w.cluster.pods && PodKey(q) == PodKey(pod) && Settled(w, g, q.namespace)
             && ListOf(e, b, cache, w, q) == Ok(list);
    KeyTellsPodsApart(w, pod, q);
  }

  // ----- the whole invariant -----

  /** The controller's state: what the listers show, the resolved baseline, the
      cache, the lists judged and not yet written; and, for the proof, every id
      returned so far, which ports were written, how far the policy worker has
      come since the last edit, and which judged lists and ports are up to date. */
  datatype Control = Control(
    world: World,
    baseline: BaselineIds,
    cache: map<string, string>,
    judged: map<string, Verdict>,
    returned: set<(string, string)>,
    written: set<string>,
    progress: Progress,
    current: set<string>,
    aligned: set<string>)

  ghost predicate UpToDate(e: Env, s: Store, y: Control) {
    && (forall k :: k in y.current ==>
          k in y.judged && k in y.world.placed && y.judged[k].port == y.world.placed[k]
          && Current(e, y.baseline, y.cache, y.world, y.progress, k, y.judged[k].list))
    && (forall k :: k in y.aligned ==> Aligned(e, y.baseline, y.cache, y.world, y.progress, s, k))
    && (forall k :: k in y.aligned && k in y.judged ==> k in y.current)
  }

  /** A port is never handed to another pod while a write to it is under way. */
  predicate Owned(w: World, judged: map<string, Verdict>) {
    forall k, l :: k in judged && l in w.placed && k != l ==> w.placed[l] != judged[k].port
  }

  ghost predicate Sound(e: Env, h: string -> string, s: Store, y: Control) {
    && WellFormed(y.world) && Owned(y.world, y.judged)
    && StoreSafe(h, s, y.baseline)
    && CacheSafe(h, s, y.cache, y.returned)
    && ListsSafe(s, y.baseline, y.judged, y.written)
    && Holds(e, h, y.world, s, y.cache, y.progress)
    && UpToDate(e, s, y)
  }

  lemma SoundIs(e: Env, h: string -> string, s: Store, y: Control)
    requires Sound(e, h, s, y)
    ensures WellFormed(y.world) && Owned(y.world, y.judged) && StoreSafe(h, s, y.baseline) && ValidStore(s)
  {
  }

  /** Nothing is known any more, and nothing unsafe was done. */
  function Forgotten(y: Control): Control {
    y.(progress := NoProgress, current := {}, aligned := {})
  }

  lemma ForgottenSound(e: Env, h: string -> string, s: Store, y: Control)
    requires Sound(e, h, s, y)
    ensures Sound(e, h, s, Forgotten(y))
  {
  }

  function Edited(y: Control, s: Store, w: World, ports: map<string, seq<string>>): Control {
    Forgotten(y).(world := w, written := set p | p in y.written && p in s.ports && p in ports && ports[p] == s.ports[p])
  }

  lemma EditSound(e: Env, h: string -> string, s: Store, y: Control, w: World, ports: map<string, seq<string>>)
    requires Sound(e, h, s, y) && WellFormed(w) && Owned(w, y.judged)
    ensures Sound(e, h, s.(ports := ports), Edited(y, s, w, ports))
  {
    PortsKeepStore(h, s, ports, y.baseline, y.cache, y.returned);
  }

  lemma UpToDateKept(e: Env, s: Store, t: Store, y: Control, cache: map<string, string>, g: Progress)
    requires UpToDate(e, s, y) && t.ports == s.ports
    requires CacheKept(y.world, y.progress, y.cache, cache) && Further(y.world, y.progress, g)
    ensures UpToDate(e, t, y.(cache := cache, progress := g))
  {
    forall k | k in y.current ensures Current(e, y.baseline, cache, y.world, g, k, y.judged[k].list) {
      CurrentKept(e, y.baseline, y.cache, cache, y.world, y.progress, g, k, y.judged[k].list);
    }
    forall k | k in y.aligned ensures Aligned(e, y.baseline, cache, y.world, g, t, k) {
      var list :| Current(e, y.baseline, y.cache, y.world, y.progress, k, list)
                  && SameGroups(s.ports[y.world.placed[k]], list);
      CurrentKept(e, y.baseline, y.cache, cache, y.world, y.progress, g, k, list);
    }
  }

  lemma CachedWhenDone(e: Env, h: string -> string, s: Store, y: Control, p: Policy)
    requires Holds(e, h, y.world, s, y.cache, y.progress) && p in y.world.policies && p.Key() in y.progress.passes
    ensures p.Key() in y.cache
  {
    assert Prepared(e, y.world.cluster, h, s, y.cache, p.Key(), RulesOfPolicy(Translation(e, p).value));
  }

  /** Progress on everything, once a pass over one policy is accounted for. */
  lemma HoldsAfterPass(e: Env, h: string -> string, w: World, s: Store, t: Store, cache: map<string, string>,
                       cache': map<string, string>, g: Progress, g': Progress, p: Policy)
    requires Faithful(e) && Injective(h) && WellFormed(w) && ValidStore(s) && Holds(e, h, w, s, cache, g)
    requires p in w.policies && Translation(e, p).Ok?
    requires PassTouches(e, w.cluster, h, s, t, p.Key(), RulesOfPolicy(Translation(e, p).value).peers)
    requires forall k :: k in cache && k != p.Key() ==> k in cache' && cache'[k] == cache[k]
    requires forall k :: k in g'.passes && k != p.Key() ==> k in g.passes && g'.passes[k] == g.passes[k]
    requires p.Key() in g'.passes ==>
               g'.passes[p.Key()] >= 1 && PolicyDone(e, h, w, t, cache', p, g'.passes[p.Key()])
    ensures Holds(e, h, w, t, cache', g')
  {
    forall q | q in w.policies && q.Key() in g'.passes
      ensures g'.passes[q.Key()] >= 1 && PolicyDone(e, h, w, t, cache', q, g'.passes[q.Key()])
    {
      if q.Key() == p.Key() {
        KeyTellsPoliciesApart(w, p, q);
      } else {
        PassKeepsOthers(e, h, w, s, t, cache, cache', g, p, q);
      }
    }
  }

  lemma ForgetSound(e: Env, h: string -> string, s: Store, y: Control, key: string)
    requires Sound(e, h, s, y) && forall p :: p in y.world.policies ==> p.Key() != key
    ensures Sound(e, h, s, y.(cache := y.cache - {key}))
  {
    var cache := y.cache - {key};
    forall p | p in y.world.policies && p.Key() in y.progress.passes
      ensures PolicyDone(e, h, y.world, s, cache, p, y.progress.passes[p.Key()])
      ensures p.Key() in y.cache
    {
      ForgetKeepsDone(e, h, s, y, p, key);
    }
    UpToDateKept(e, s, s, y, cache, y.progress);
  }

  lemma ForgetKeepsDone(e: Env, h: string -> string, s: Store, y: Control, p: Policy, key: string)
    requires Holds(e, h, y.world, s, y.cache, y.progress) && p in y.world.policies && p.Key() in y.progress.passes
    requires p.Key() != key
    ensures p.Key() in y.cache
    ensures PolicyDone(e, h, y.world, s, y.cache - {key}, p, y.progress.passes[p.Key()])
  {
    CachedWhenDone(e, h, s, y, p);
    PreparedKept(e, y.world.cluster, h, s, s, y.cache, y.cache - {key}, p.Key(),
                 RulesOfPolicy(Translation(e, p).value));
  }

  lemma SweepSound(e: Env, h: string -> string, s: Store, t: Store, y: Control, live: set<string>, served: set<string>)
    requires Sound(e, h, s, y) && Swept(s, t, live, served) && ValidStore(t) && Covers(y.world, y.progress, live)
    ensures Sound(e, h, t, y)
  {
    SweepKeepsStore(h, s, t, y.baseline, live, served);
    SweepKeepsCache(h, s, t, y.cache, y.returned, live, served);
    SweepKeepsProgress(e, h, y.world, s, t, y.cache, y.progress, live, served);
    forall p | p in y.world.policies && p.Key() in y.progress.passes ensures p.Key() in y.cache {
      CachedWhenDone(e, h, s, y, p);
    }
    UpToDateKept(e, s, t, y, y.cache, y.progress);
  }

  lemma ListCarriesAnchor(e: Env, b: BaselineIds, cache: map<string, string>, w: World, pod: Pod, list: seq<string>)
    requires ListOf(e, b, cache, w, pod) == Ok(list)
    ensures b.denyAll in list
  {
    DenyAllAlwaysListed(b, cache, AllFacts(e, pod, PoliciesOf(w.policies, pod.namespace)));
  }

  /** A pod has been judged; the list is current when its policies were settled. */
  function Judged(y: Control, key: string, v: Verdict, settled: bool): Control {
    y.(judged := y.judged[key := v],
       current := if settled then y.current + {key} else y.current - {key},
       aligned := if settled then y.aligned else y.aligned - {key})
  }

  lemma JudgedSound(e: Env, h: string -> string, s: Store, y: Control, key: string, v: Verdict, settled: bool)
    requires Sound(e, h, s, y) && y.baseline.denyAll in v.list
    requires key in y.world.placed && y.world.placed[key] == v.port
    requires settled ==> Current(e, y.baseline, y.cache, y.world, y.progress, key, v.list)
    ensures Sound(e, h, s, Judged(y, key, v, settled))
  {
    var y' := Judged(y, key, v, settled);
    JudgedListsSafe(s, y, key, v, settled);
    JudgedUpToDate(e, s, y, key, v, settled);
    hide WellFormed, Owned, StoreSafe, CacheSafe, ListsSafe, Holds, UpToDate;
    assert Sound(e, h, s, y');
  }

  lemma JudgedListsSafe(s: Store, y: Control, key: string, v: Verdict, settled: bool)
    requires WellFormed(y.world) && Owned(y.world, y.judged) && ListsSafe(s, y.baseline, y.judged, y.written)
    requires y.baseline.denyAll in v.list && key in y.world.placed && y.world.placed[key] == v.port
    ensures Owned(y.world, Judged(y, key, v, settled).judged)
    ensures ListsSafe(s, y.baseline, Judged(y, key, v, settled).judged, y.written)
  {
  }

  lemma JudgedUpToDate(e: Env, s: Store, y: Control, key: string, v: Verdict, settled: bool)
    requires UpToDate(e, s, y) && key in y.world.placed && y.world.placed[key] == v.port
    requires settled ==> Current(e, y.baseline, y.cache, y.world, y.progress, key, v.list)
    ensures UpToDate(e, s, Judged(y, key, v, settled))
  {
    var y' := Judged(y, key, v, settled);
    hide Current, Aligned;
    forall k | k in y'.current ensures Current(e, y.baseline, y.cache, y.world, y.progress, k, y'.judged[k].list) {
      if k != key { assert k in y.current; }
    }
    forall k | k in y'.aligned ensures Aligned(e, y.baseline, y.cache, y.world, y.progress, s, k) {
      assert k in y.aligned;
    }
    assert UpToDate(e, s, y');
  }

  /** The store with one port's groups replaced. */
  function WithPort(s: Store, port: string, list: seq<string>): Store {
    s.(ports := s.ports[port := list])
  }

  /** A judged list has been dealt with; `carried` is whether the port carries
      it now. */
  function Written(y: Control, key: string, carried: bool): Control
    requires key in y.judged
  {
    y.(judged := y.judged - {key},
       current := y.current - {key},
       written := if carried then y.written + {y.judged[key].port} else y.written,
       aligned := if carried && key in y.current then y.aligned + {key} else y.aligned)
  }

  /** The port was written, or left alone; when it was written, or had the list
      already, it carries the list. */
  ghost predicate Wrote(s: Store, t: Store, v: Verdict, carried: bool) {
    && (t == s || (t == WithPort(s, v.port, v.list) && carried))
    && (carried ==> v.port in t.ports && SameGroups(t.ports[v.port], v.list))
  }

  lemma WrittenSound(e: Env, h: string -> string, s: Store, t: Store, y: Control, key: string, carried: bool)
    requires Sound(e, h, s, y) && key in y.judged && Wrote(s, t, y.judged[key], carried)
    ensures Sound(e, h, t, Written(y, key, carried))
  {
    var y' := Written(y, key, carried);
    assert t == s.(ports := t.ports);
    WrittenListsSafe(s, t, y, key, carried);
    PortsKeepStore(h, s, t.ports, y.baseline, y.cache, y.returned);
    PortsKeepProgress(e, h, y.world, s, t.ports, y.cache, y.progress);
    WrittenUpToDate(e, s, t, y, key, carried);
    assert Owned(y.world, y'.judged);
    hide WellFormed, StoreSafe, CacheSafe, ListsSafe, Holds, UpToDate, Owned;
    assert Sound(e, h, t, y');
  }

  lemma PortsKeepStore(h: string -> string, s: Store, ports: map<string, seq<string>>, b: BaselineIds,
                       cache: map<string, string>, returned: set<(string, string)>)
    requires StoreSafe(h, s, b) && CacheSafe(h, s, cache, returned)
    ensures StoreSafe(h, s.(ports := ports), b) && CacheSafe(h, s.(ports := ports), cache, returned)
  {
    var t := s.(ports := ports);
    forall x ensures OneNamed(t, GroupName(h, x)) { assert OneNamed(s, GroupName(h, x)); }
    forall k, id | (k, id) in returned ensures GroupOf(h, t, k, id) { assert GroupOf(h, s, k, id); }
  }

  lemma WrittenListsSafe(s: Store, t: Store, y: Control, key: string, carried: bool)
    requires ListsSafe(s, y.baseline, y.judged, y.written) && key in y.judged && Wrote(s, t, y.judged[key], carried)
    ensures ListsSafe(t, y.baseline, Written(y, key, carried).judged, Written(y, key, carried).written)
  {
  }

  lemma WrittenUpToDate(e: Env, s: Store, t: Store, y: Control, key: string, carried: bool)
    requires WellFormed(y.world) && Owned(y.world, y.judged) && UpToDate(e, s, y)
    requires key in y.judged && Wrote(s, t, y.judged[key], carried)
    ensures UpToDate(e, t, Written(y, key, carried))
  {
    hide WellFormed, Owned, Current, Aligned, Wrote;
    var y' := Written(y, key, carried);
    forall k | k in y'.aligned ensures Aligned(e, y.baseline, y.cache, y.world, y.progress, t, k) {
      WrittenAligned(e, s, t, y, key, k, carried);
    }
  }

  lemma WrittenAligned(e: Env, s: Store, t: Store, y: Control, key: string, k: string, carried: bool)
    requires WellFormed(y.world) && Owned(y.world, y.judged) && UpToDate(e, s, y)
    requires key in y.judged && Wrote(s, t, y.judged[key], carried)
    requires k in y.aligned || (k == key && carried && key in y.current)
    ensures Aligned(e, y.baseline, y.cache, y.world, y.progress, t, k)
  {
    hide Current;
    if k == key && key in y.current {
      if k in y.aligned {
        var list :| Current(e, y.baseline, y.cache, y.world, y.progress, k, list)
                    && SameGroups(s.ports[y.world.placed[k]], list);
        CurrentUnique(e, y.baseline, y.cache, y.world, y.progress, k, list, y.judged[k].list);
      }
      assert Current(e, y.baseline, y.cache, y.world, y.progress, key, y.judged[key].list);
    } else {
      var list :| Current(e, y.baseline, y.cache, y.world, y.progress, k, list)
                  && SameGroups(s.ports[y.world.placed[k]], list);
      assert k != key;
      assert t.ports[y.world.placed[k]] == s.ports[y.world.placed[k]];
    }
  }

  // ----- a pass of the policy worker -----

  /** What a pass leaves in memory: nothing new when it failed, otherwise the id
      to remember and one more success. */
  function PassedOver(y: Control, key: string, r: Option<string>): Control {
    if r.None? then y
    else
      y.(cache := y.cache[key := r.value],
         returned := if r.value == "" then y.returned else y.returned + {(key, r.value)},
         progress :=
           Progress(y.progress.passes[key := if key in y.progress.passes then y.progress.passes[key] + 1 else 1]))
  }

  /** What SyncPolicyPeers promises of one pass. */
  ghost predicate PassDone(e: Env, h: string -> string, s: Store, t: Store, y: Control, p: Policy,
                           r: Option<string>) {
    Translation(e, p).Ok? &&
    var key, rs := p.Key(), RulesOfPolicy(Translation(e, p).value);
    && PassTouches(e, y.world.cluster, h, s, t, key, rs.peers)
    && ValidStore(t) && StoredForms(t) && UniqueNames(h, t)
    && (r.Some? ==> Prepared(e, y.world.cluster, h, t, y.cache[key := r.value], key, rs))
    && (key in y.progress.passes ==>
          && Prepared(e, y.world.cluster, h, t, y.cache, key, rs)
          && (Complete(e, y.world.cluster, h, s, y.cache, key, rs) ==>
                Complete(e, y.world.cluster, h, t, y.cache, key, rs))
          && (r.Some? ==> r.value == y.cache[key] && Complete(e, y.world.cluster, h, t, y.cache, key, rs)))
  }

  lemma PassedIsDone(e: Env, h: string -> string, s: Store, t: Store, y: Control, p: Policy,
                     r: Option<string>)
    requires Holds(e, h, y.world, s, y.cache, y.progress) && p in y.world.policies && PassDone(e, h, s, t, y, p, r)
    ensures var y' := PassedOver(y, p.Key(), r);
            p.Key() in y'.progress.passes ==>
              y'.progress.passes[p.Key()] >= 1
              && PolicyDone(e, h, y.world, t, y'.cache, p, y'.progress.passes[p.Key()])
  {
    var key := p.Key();
    if key in y.progress.passes {
      assert PolicyDone(e, h, y.world, s, y.cache, p, y.progress.passes[key]);
      if r.Some? { SameEntry(y.cache, key, r.value); }
    }
  }

  lemma SameEntry(m: map<string, string>, k: string, v: string)
    requires k in m && m[k] == v
    ensures m[k := v] == m
  {
  }

  lemma PassedHolds(e: Env, h: string -> string, s: Store, t: Store, y: Control, p: Policy,
                    r: Option<string>)
    requires Faithful(e) && Injective(h) && WellFormed(y.world) && ValidStore(s)
    requires Holds(e, h, y.world, s, y.cache, y.progress) && p in y.world.policies && PassDone(e, h, s, t, y, p, r)
    ensures Holds(e, h, y.world, t, PassedOver(y, p.Key(), r).cache, PassedOver(y, p.Key(), r).progress)
  {
    var y' := PassedOver(y, p.Key(), r);
    PassedIsDone(e, h, s, t, y, p, r);
    hide WellFormed, ValidStore, Faithful, PolicyDone, PassTouches, Prepared, Complete;
    HoldsAfterPass(e, h, y.world, s, t, y.cache, y'.cache, y.progress, y'.progress, p);
  }

  lemma PassedUpToDate(e: Env, h: string -> string, s: Store, t: Store, y: Control, p: Policy,
                       r: Option<string>)
    requires Holds(e, h, y.world, s, y.cache, y.progress) && p in y.world.policies && PassDone(e, h, s, t, y, p, r)
    requires UpToDate(e, s, y)
    ensures UpToDate(e, t, PassedOver(y, p.Key(), r))
  {
    var y' := PassedOver(y, p.Key(), r);
    PassedKeepsCache(e, h, s, t, y, p, r);
    hide PassDone, Holds, UpToDate, CacheKept;
    UpToDateKept(e, s, t, y, y'.cache, y'.progress);
    UpToDateReads(e, t, y, y');
  }

  lemma PassedKeepsCache(e: Env, h: string -> string, s: Store, t: Store, y: Control, p: Policy,
                         r: Option<string>)
    requires Holds(e, h, y.world, s, y.cache, y.progress) && p in y.world.policies && PassDone(e, h, s, t, y, p, r)
    ensures CacheKept(y.world, y.progress, y.cache, PassedOver(y, p.Key(), r).cache)
    ensures Further(y.world, y.progress, PassedOver(y, p.Key(), r).progress)
    ensures t.ports == s.ports
  {
    forall q | q in y.world.policies && q.Key() in y.progress.passes && y.progress.passes[q.Key()] >= 2
      ensures q.Key() in y.cache
    {
      CachedWhenDone(e, h, s, y, q);
    }
  }

  lemma UpToDateReads(e: Env, t: Store, y: Control, y': Control)
    requires UpToDate(e, t, y.(cache := y'.cache, progress := y'.progress))
    requires y'.(returned := y.returned) == y.(cache := y'.cache, progress := y'.progress)
    ensures UpToDate(e, t, y')
  {
  }

  lemma PassedCacheSafe(e: Env, h: string -> string, s: Store, t: Store, y: Control, p: Policy,
                        r: Option<string>)
    requires CacheSafe(h, s, y.cache, y.returned) && PassDone(e, h, s, t, y, p, r)
    ensures CacheSafe(h, t, PassedOver(y, p.Key(), r).cache, PassedOver(y, p.Key(), r).returned)
  {
    var key, rs := p.Key(), RulesOfPolicy(Translation(e, p).value);
    PassKeepsCache(e, y.world.cluster, h, s, t, y.cache, y.returned, key, rs.peers);
    if r.Some? {
      assert r.value != "" ==> GroupReady(e, y.world.cluster, h, t, key, rs, r.value);
      RememberedSafe(h, t, y.cache, y.returned, key, r.value);
    }
  }

  lemma PassedStoreSafe(e: Env, h: string -> string, s: Store, t: Store, y: Control, p: Policy,
                        r: Option<string>)
    requires StoreSafe(h, s, y.baseline) && PassDone(e, h, s, t, y, p, r)
    ensures StoreSafe(h, t, y.baseline) && t.ports == s.ports
  {
    PassKeepsBaseline(e, y.world.cluster, h, s, t, y.baseline, p.Key(), RulesOfPolicy(Translation(e, p).value).peers);
  }

  lemma PassSound(e: Env, h: string -> string, s: Store, t: Store, y: Control, p: Policy,
                  r: Option<string>)
    requires Faithful(e) && Injective(h) && Sound(e, h, s, y) && p in y.world.policies && PassDone(e, h, s, t, y, p, r)
    ensures Sound(e, h, t, PassedOver(y, p.Key(), r))
  {
    PassedStoreSafe(e, h, s, t, y, p, r);
    PassedCacheSafe(e, h, s, t, y, p, r);
    PassedHolds(e, h, s, t, y, p, r);
    PassedUpToDate(e, h, s, t, y, p, r);
  }
}
