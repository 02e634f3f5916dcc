/** Once edits stop: every policy passed over twice and every placed pod once,
    with Neutron answering, brings every port to what its policies say. */
module Settling {
  import opened Wrappers
  import opened NetworkPolicy
  import opened Translate
  import opened RuleSets
  import opened NeutronStore
  import opened NeutronClient
  import opened Baseline
  import opened AddressSync
  import opened NeutronMeaning
  import opened Groups
  import opened Composition
  import opened Preparation
  import opened Protocol
  import opened Controllers

  /** Every policy is of a served namespace and its subject selector parses. */
  ghost predicate Passable(e: Env, w: World) {
    forall p :: p in w.policies ==> p.namespace in w.cluster.served && Translation(e, p).Ok?
  }

  /** Every placed pod is listed, in a served namespace, and its port exists. */
  ghost predicate Placed(w: World, s: Store) {
    forall k :: k in w.placed ==> w.placed[k] in s.ports && HasPod(w, k)
  }

  ghost predicate HasPod(w: World, key: string) {
    exists pod :: pod in w.cluster.pods && PodKey(pod) == key && pod.namespace in w.cluster.served
  }

  predicate PassedBy(w: World, g: Progress, n: nat) {
    n == 0 || forall p :: p in w.policies ==> Counts(g, p.Key(), n)
  }

  predicate Counts(g: Progress, key: string, n: nat) {
    key in g.passes && g.passes[key] >= n
  }

  lemma FactIsPrepared(e: Env, h: string -> string, s: Store, y: Control, pod: Pod, p: Policy)
    requires Holds(e, h, y.world, s, y.cache, y.progress) && p in y.world.policies && p.Key() in y.progress.passes
    requires p.namespace == pod.namespace
    ensures FactsOf(e, pod, p).ok && FactsOf(e, pod, p).key in y.cache
    ensures var g := y.cache[p.Key()]; FactsOf(e, pod, p).key == p.Key() && (g != "" ==> g in s.groups)
  {
    FactsKey(e, pod, p);
    assert Prepared(e, y.world.cluster, h, s, y.cache, p.Key(), RulesOfPolicy(Translation(e, p).value));
  }

  lemma ListGiven(b: BaselineIds, cache: map<string, string>, facts: seq<Facts>)
    requires b.ingress != "" && b.egress != "" && b.denyAll != ""
    requires forall x :: x in facts ==> x.ok && x.key in cache
    ensures GroupList(b, cache, facts).Ok?
  {
    AllPrepared(cache, facts);
    assert AllTranslate(facts);
  }

  /** With its policies passed over, a pod's list can be given, and names groups
      that exist. */
  lemma ListReady(e: Env, h: string -> string, s: Store, y: Control, pod: Pod)
    requires Sound(e, h, s, y) && PassedBy(y.world, y.progress, 2)
    ensures ListOf(e, y.baseline, y.cache, y.world, pod).Ok?
    ensures forall g :: g in ListOf(e, y.baseline, y.cache, y.world, pod).value ==> g in s.groups
  {
    var mine := PoliciesOf(y.world.policies, pod.namespace);
    var facts := AllFacts(e, pod, mine);
    FactsAre(e, pod, mine);
    forall x | x in facts
      ensures x.ok && x.key in y.cache && (y.cache[x.key] != "" ==> y.cache[x.key] in s.groups)
    {
      var p :| p in mine && FactsOf(e, pod, p) == x;
      FactIsPrepared(e, h, s, y, pod, p);
    }
    ListGiven(y.baseline, y.cache, facts);
    ListedExist(s, y.baseline, y.cache, facts);
  }

  lemma ListedExist(s: Store, b: BaselineIds, cache: map<string, string>, facts: seq<Facts>)
    requires GroupList(b, cache, facts).Ok? && BaselineHolds(s, b)
    requires forall x :: x in facts && x.key in cache && cache[x.key] != "" ==> cache[x.key] in s.groups
    ensures forall g :: g in GroupList(b, cache, facts).value ==> g in s.groups
  {
    forall g | g in GroupList(b, cache, facts).value ensures g in s.groups {
      GroupListMembers(b, cache, facts, g);
    }
  }

  lemma PodReady(e: Env, h: string -> string, s: Store, y: Control, key: string)
    requires Sound(e, h, s, y) && PassedBy(y.world, y.progress, 2) && key in y.world.placed && HasPod(y.world, key)
    ensures Ready(e, y, key)
  {
    var pod :| pod in y.world.cluster.pods && PodKey(pod) == key && pod.namespace in y.world.cluster.served;
    ListReady(e, h, s, y, pod);
    assert Settled(y.world, y.progress, pod.namespace);
  }

  lemma CurrentWritable(e: Env, h: string -> string, s: Store, y: Control, key: string)
    requires Sound(e, h, s, y) && PassedBy(y.world, y.progress, 2) && key in y.current && key in y.judged
    requires Placed(y.world, s)
    ensures Writable(s, y.judged[key])
  {
    var list := y.judged[key].list;
    assert Current(e, y.baseline, y.cache, y.world, y.progress, key, list);
    var pod :| pod in y.world.cluster.pods && PodKey(pod) == key && Settled(y.world, y.progress, pod.namespace)
               && ListOf(e, y.baseline, y.cache, y.world, pod) == Ok(list);
    ListReady(e, h, s, y, pod);
  }

  /** One round of the policy worker. */
  method PassOverAll(c: Controller, n: nat)
    requires c.Valid() && c.neutron.Healthy() && Passable(c.e, c.world) && PassedBy(c.world, c.progress, n)
    modifies c, c.neutron
    ensures c.Valid() && c.neutron.Healthy() && PassedBy(c.world, c.progress, n + 1)
    ensures c.world == old(c.world) && c.judged == old(c.judged) && c.neutron.store.ports == old(c.neutron.store).ports
  {
    hide Sound;
    ghost var w := c.world;
    for i := 0 to |c.world.policies|
      invariant c.world == w && c.Valid() && c.neutron.Healthy() && c.judged == old(c.judged)
      invariant c.neutron.store.ports == old(c.neutron.store).ports
      invariant PassedBy(w, c.progress, n)
      invariant forall j :: 0 <= j < i ==> Counts(c.progress, w.policies[j].Key(), n + 1)
    {
      var p := c.world.policies[i];
      assert p in w.policies;
      SoundIs(c.e, c.h, c.neutron.store, c.State());
      FoundByKey(w, p);
      ghost var y := c.State();
      var ok, r := c.SyncPolicy(p.Key());
      PassedCounts(y, p.Key(), r, w, n, i);
    }
    forall p | p in w.policies ensures Counts(c.progress, p.Key(), n + 1) {
      var j :| 0 <= j < |w.policies| && w.policies[j] == p;
    }
  }

  lemma FoundByKey(w: World, p: Policy)
    requires WellFormed(w) && p in w.policies
    ensures FindPolicy(w.policies, p.Key()) == Some(p)
  {
    KeyTellsPoliciesApart(w, p, FindPolicy(w.policies, p.Key()).value);
  }

  lemma PassedCounts(y: Control, key: string, r: Option<string>, w: World, n: nat, i: nat)
    requires r.Some? && PassedBy(w, y.progress, n) && i < |w.policies| && w.policies[i].Key() == key
    requires forall j :: 0 <= j < i ==> Counts(y.progress, w.policies[j].Key(), n + 1)
    ensures PassedBy(w, PassedOver(y, key, r).progress, n)
    ensures forall j :: 0 <= j < i + 1 ==> Counts(PassedOver(y, key, r).progress, w.policies[j].Key(), n + 1)
  {
    assert w.policies[i] in w.policies;
    if key in y.progress.passes && n > 0 { assert Counts(y.progress, key, n); }
  }

  /** One pod, judged and written. */
  method AlignPod(c: Controller, key: string)
    requires c.Valid() && c.neutron.Healthy() && PassedBy(c.world, c.progress, 2) && Placed(c.world, c.neutron.store)
    requires key in c.world.placed
    modifies c, c.neutron
    ensures c.Valid() && c.neutron.Healthy() && c.world == old(c.world) && c.progress == old(c.progress)
    ensures Placed(c.world, c.neutron.store)
    ensures key in c.aligned && old(c.aligned) <= c.aligned
  {
    hide Sound, Ready, HasPod, PassedBy, Wrote, Writable;
    PodReady(c.e, c.h, c.neutron.store, c.State(), key);
    var ok, r, settled := c.JudgePod(key);
    CurrentWritable(c.e, c.h, c.neutron.store, c.State(), key);
    ghost var s, v := c.neutron.store, c.judged[key];
    var done, carried := c.WritePod(key);
    WroteKeepsPorts(s, c.neutron.store, v, carried);
  }

  lemma WroteKeepsPorts(s: Store, t: Store, v: Verdict, carried: bool)
    requires Wrote(s, t, v, carried)
    ensures forall p :: p in s.ports ==> p in t.ports
  {
  }

  lemma NothingPassedYet(w: World, g: Progress)
    ensures PassedBy(w, g, 0)
  {
  }

  /** The settle theorem: from any state any run can reach, once edits have
      stopped and calls succeed, two rounds of policies and one of pods leave
      every placed pod's port meaning what its policies say. */
  method Settle(c: Controller)
    requires c.Valid() && c.neutron.Healthy() && Passable(c.e, c.world) && Placed(c.world, c.neutron.store)
    modifies c, c.neutron
    ensures c.Valid() && c.world == old(c.world)
    ensures forall pod, f :: pod in c.world.cluster.pods && PodKey(pod) in c.world.placed ==>
              AlignedPortMeans(c.e, c.world, c.neutron.store, pod, f)
  {
    hide Sound, PassedBy, AlignedPortMeans, Faithful, HostRoutes, Passable;
    NothingPassedYet(c.world, c.progress);
    PassOverAll(c, 0);
    PassOverAll(c, 1);
    var keys := AddressSync.Listing(c.world.placed.Keys);
    ghost var w := c.world;
    for i := 0 to |keys|
      invariant c.Valid() && c.neutron.Healthy() && c.world == w && PassedBy(w, c.progress, 2)
      invariant Placed(w, c.neutron.store)
      invariant forall j :: 0 <= j < i ==> keys[j] in c.aligned
    {
      assert keys[i] in AddressSync.Members(keys);
      AlignPod(c, keys[i]);
    }
    RunMeans(c.e, c.h, c.neutron.store, c.State());
    forall k | k in w.placed ensures k in c.aligned {
      assert k in AddressSync.Members(keys);
    }
  }
}
