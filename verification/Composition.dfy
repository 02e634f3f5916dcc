/** What a port carrying the groups of GroupsFor can do, against what Kubernetes
    says its pod may do. */
module Composition {
  import opened Wrappers
  import opened NetworkPolicy
  import opened Translate
  import opened TranslationMeaning
  import opened RuleSets
  import opened NeutronStore
  import opened Baseline
  import opened NeutronMeaning
  import opened Groups
  import Ordering

  /** The policies of a pod's own namespace that select it. */
  predicate Selects(e: Env, pod: Pod, p: Policy) {
    p.namespace == pod.namespace && e.matches(p.podSelector, pod.labels)
  }

  ghost predicate Isolated(e: Env, pod: Pod, policies: seq<Policy>, dir: Direction) {
    exists p :: p in policies && Selects(e, pod, p) && Declares(p, dir)
  }

  /** What Kubernetes lets a pod do: everything in a direction no policy
      selecting it declares, otherwise what some selecting policy allows. */
  ghost predicate KubernetesAllows(e: Env, c: Cluster, pod: Pod, policies: seq<Policy>, f: Flow) {
    !Isolated(e, pod, policies, f.dir)
    || exists p :: p in policies && Selects(e, pod, p) && PolicyAllows(e, c, Full, p, f)
  }

  /** The same with refused parts, and addresses that cannot be listed from
      here, left denied. */
  ghost predicate ExpressibleAllows(e: Env, c: Cluster, pod: Pod, policies: seq<Policy>, f: Flow) {
    !Isolated(e, pod, policies, f.dir)
    || exists p :: p in policies && Selects(e, pod, p) && PolicyAllows(e, c, Served, Strip(e, p), f)
  }

  function RulesFor(e: Env, p: Policy): seq<SGRule> {
    match Translation(e, p)
    case Ok(t) => RulesOfPolicy(t).rules
    case Err(_) => []
  }

  /** The cache is right about a policy that allows anything: the group it names
      lets through what the expressible part of the policy allows. */
  ghost predicate Coherent(e: Env, c: Cluster, s: Store, cache: map<string, string>, p: Policy) {
    RulesFor(e, p) != [] && p.Key() in cache ==>
      && cache[p.Key()] != ""
      && forall f: Flow :: GroupAllows(e, s, cache[p.Key()], f) <==> PolicyAllows(e, c, Served, Strip(e, p), f)
  }

  // ----- facts and policies -----

  lemma FactsAre(e: Env, pod: Pod, policies: seq<Policy>)
    ensures forall x :: x in AllFacts(e, pod, policies) <==> exists p :: p in policies && FactsOf(e, pod, p) == x
  {
    var facts := AllFacts(e, pod, policies);
    forall x | x in facts ensures exists p :: p in policies && FactsOf(e, pod, p) == x {
      var i :| 0 <= i < |facts| && facts[i] == x;
      AllFactsAt(e, pod, policies, i);
      assert policies[i] in policies;
    }
    forall p | p in policies ensures FactsOf(e, pod, p) in facts {
      var i :| 0 <= i < |policies| && policies[i] == p;
      AllFactsAt(e, pod, policies, i);
    }
  }

  lemma OneFact(e: Env, pod: Pod, p: Policy)
    requires Translation(e, p).Ok? && p.namespace == pod.namespace
    ensures var x := FactsOf(e, pod, p);
            && x.key == p.Key() && x.here && x.ok
            && (x.selects <==> Selects(e, pod, p))
            && (forall dir :: dir in x.isolates <==> Declares(p, dir))
            && (x.allows <==> RulesFor(e, p) != [])
  {
    DeclaredTypesKept(e, p);
  }

  /** Every listed policy is of the pod's namespace, valid, and translates. */
  ghost predicate Judgeable(e: Env, pod: Pod, policies: seq<Policy>) {
    forall p :: p in policies ==> p.namespace == pod.namespace && ValidPolicy(p) && Translation(e, p).Ok?
  }

  lemma OpenIsNotIsolated(e: Env, pod: Pod, policies: seq<Policy>, dir: Direction)
    requires Judgeable(e, pod, policies)
    ensures Open(AllFacts(e, pod, policies), dir) <==> !Isolated(e, pod, policies, dir)
  {
    FactsAre(e, pod, policies);
    forall p | p in policies { OneFact(e, pod, p); }
    if Isolated(e, pod, policies, dir) {
      var p :| p in policies && Selects(e, pod, p) && Declares(p, dir);
      assert IsolatesIn(FactsOf(e, pod, p), dir);
    }
    if !Open(AllFacts(e, pod, policies), dir) {
      var x :| x in AllFacts(e, pod, policies) && IsolatesIn(x, dir);
      var p :| p in policies && FactsOf(e, pod, p) == x;
      assert Selects(e, pod, p) && Declares(p, dir);
    }
  }

  // ----- the theorem -----

  /** A selecting policy's group is carried exactly when the policy has rules. */
  lemma CarriedPolicies(e: Env, pod: Pod, policies: seq<Policy>, cache: map<string, string>, g: string)
    requires Judgeable(e, pod, policies)
    ensures (exists x :: x in AllFacts(e, pod, policies) && Carries(cache, x, g))
       <==> (exists p :: p in policies && Selects(e, pod, p) && RulesFor(e, p) != []
                         && p.Key() in cache && cache[p.Key()] == g && g != "")
  {
    FactsAre(e, pod, policies);
    forall p | p in policies { OneFact(e, pod, p); }
    if x :| x in AllFacts(e, pod, policies) && Carries(cache, x, g) {
      var p :| p in policies && FactsOf(e, pod, p) == x;
    }
    if p :| p in policies && Selects(e, pod, p) && RulesFor(e, p) != []
            && p.Key() in cache && cache[p.Key()] == g && g != "" {
      assert Carries(cache, FactsOf(e, pod, p), g);
    }
  }

  lemma ListedNeverWider(e: Env, c: Cluster, s: Store, b: BaselineIds, cache: map<string, string>,
                         pod: Pod, policies: seq<Policy>, f: Flow, g: string)
    requires Faithful(e) && BaselineHolds(s, b) && Judgeable(e, pod, policies)
    requires forall p :: p in policies && Selects(e, pod, p) ==> Coherent(e, c, s, cache, p)
    requires GroupList(b, cache, AllFacts(e, pod, policies)).Ok?
    requires g in GroupList(b, cache, AllFacts(e, pod, policies)).value && GroupAllows(e, s, g, f)
    ensures ExpressibleAllows(e, c, pod, policies, f)
  {
    GroupListMembers(b, cache, AllFacts(e, pod, policies), g);
    OpenIsNotIsolated(e, pod, policies, Ingress);
    OpenIsNotIsolated(e, pod, policies, Egress);
    CarriedPolicies(e, pod, policies, cache, g);
    OpeningAllows(e, s, Bodies(s.groups[b.ingress].rules), Ingress, f);
    OpeningAllows(e, s, Bodies(s.groups[b.egress].rules), Egress, f);
    if Isolated(e, pod, policies, f.dir) {
      var p :| p in policies && Selects(e, pod, p) && RulesFor(e, p) != []
               && p.Key() in cache && cache[p.Key()] == g && g != "";
      assert Coherent(e, c, s, cache, p);
      assert PolicyAllows(e, c, Served, Strip(e, p), f);
    }
  }

  lemma ListedNeverNarrower(e: Env, c: Cluster, s: Store, b: BaselineIds, cache: map<string, string>,
                            pod: Pod, policies: seq<Policy>, f: Flow)
    requires Faithful(e) && BaselineHolds(s, b) && Judgeable(e, pod, policies)
    requires forall p :: p in policies && Selects(e, pod, p) ==> Coherent(e, c, s, cache, p)
    requires GroupList(b, cache, AllFacts(e, pod, policies)).Ok?
    requires ExpressibleAllows(e, c, pod, policies, f)
    ensures ListAllows(e, s, GroupList(b, cache, AllFacts(e, pod, policies)).value, f)
  {
    var facts := AllFacts(e, pod, policies);
    var list := GroupList(b, cache, facts).value;
    OpenIsNotIsolated(e, pod, policies, f.dir);
    if !Isolated(e, pod, policies, f.dir) {
      var g := if f.dir.Ingress? then b.ingress else b.egress;
      GroupListMembers(b, cache, facts, g);
      OpeningAllows(e, s, Bodies(s.groups[g].rules), f.dir, f);
      assert g in list && GroupAllows(e, s, g, f);
    } else {
      var p :| p in policies && Selects(e, pod, p) && PolicyAllows(e, c, Served, Strip(e, p), f);
      SelectedGroupListed(e, c, s, b, cache, pod, policies, p, f);
    }
  }

  lemma SelectedGroupListed(e: Env, c: Cluster, s: Store, b: BaselineIds, cache: map<string, string>,
                            pod: Pod, policies: seq<Policy>, p: Policy, f: Flow)
    requires Faithful(e) && Judgeable(e, pod, policies) && p in policies && Selects(e, pod, p)
    requires Coherent(e, c, s, cache, p)
    requires GroupList(b, cache, AllFacts(e, pod, policies)).Ok?
    requires Isolated(e, pod, policies, f.dir) && PolicyAllows(e, c, Served, Strip(e, p), f)
    ensures ListAllows(e, s, GroupList(b, cache, AllFacts(e, pod, policies)).value, f)
  {
    if RulesFor(e, p) == [] {
      EmptySetAllowsNothing(e, c, p, f);
    }
    OpenIsNotIsolated(e, pod, policies, Ingress);
    OpenIsNotIsolated(e, pod, policies, Egress);
    SelectedIsCached(e, b, cache, pod, policies, p, f.dir);
    var g := cache[p.Key()];
    CarriedPolicies(e, pod, policies, cache, g);
    GroupListMembers(b, cache, AllFacts(e, pod, policies), g);
    assert GroupAllows(e, s, g, f);
  }

  /** No list is given for a pod whose selecting policy was never prepared. */
  lemma SelectedIsCached(e: Env, b: BaselineIds, cache: map<string, string>,
                         pod: Pod, policies: seq<Policy>, p: Policy, dir: Direction)
    requires Judgeable(e, pod, policies) && p in policies && Selects(e, pod, p) && RulesFor(e, p) != []
    requires GroupList(b, cache, AllFacts(e, pod, policies)).Ok? && Isolated(e, pod, policies, dir)
    ensures p.Key() in cache
  {
    var facts := AllFacts(e, pod, policies);
    OpenIsNotIsolated(e, pod, policies, dir);
    ListedWhenPrepared(b, cache, facts, dir);
    PolicyGroupsAre(cache, facts);
    FactsAre(e, pod, policies);
    OneFact(e, pod, p);
    hide *;
    assert FactsOf(e, pod, p) in facts;
  }

  /** The composition theorem. Whatever policies select a pod, a port carrying
      the groups of GroupsFor lets through exactly what they say: a direction
      none of them isolates is fully open, an isolated one is the union of what
      each allows in the directions it itself declares. */
  lemma GroupsMeanPolicies(e: Env, c: Cluster, s: Store, b: BaselineIds, cache: map<string, string>,
                           pod: Pod, policies: seq<Policy>, f: Flow)
    requires Faithful(e) && BaselineHolds(s, b) && Judgeable(e, pod, policies)
    requires forall p :: p in policies && Selects(e, pod, p) ==> Coherent(e, c, s, cache, p)
    requires GroupList(b, cache, AllFacts(e, pod, policies)).Ok?
    ensures ListAllows(e, s, GroupList(b, cache, AllFacts(e, pod, policies)).value, f)
       <==> ExpressibleAllows(e, c, pod, policies, f)
  {
    var list := GroupList(b, cache, AllFacts(e, pod, policies)).value;
    if ListAllows(e, s, list, f) {
      var g :| g in list && GroupAllows(e, s, g, f);
      ListedNeverWider(e, c, s, b, cache, pod, policies, f, g);
    }
    if ExpressibleAllows(e, c, pod, policies, f) {
      ListedNeverNarrower(e, c, s, b, cache, pod, policies, f);
    }
  }

  /** No policy selecting the pod had a part refused, or a peer with addresses
      that cannot be listed from here. */
  ghost predicate FullyExpressible(e: Env, c: Cluster, pod: Pod, policies: seq<Policy>) {
    forall p :: p in policies && Selects(e, pod, p) ==>
      Translation(e, p).Ok? && Translation(e, p).value.refused == [] && PeersListable(e, c, p)
  }

  /** What a pod's port lets through is what the policies selecting it say: never
      more than Kubernetes means, and all of it when all of it can be said. */
  ghost predicate PortMeans(e: Env, c: Cluster, s: Store, port: seq<string>, pod: Pod, policies: seq<Policy>, f: Flow) {
    && (ListAllows(e, s, port, f) <==> ExpressibleAllows(e, c, pod, policies, f))
    && (ListAllows(e, s, port, f) ==> KubernetesAllows(e, c, pod, policies, f))
    && (FullyExpressible(e, c, pod, policies) ==>
          (ListAllows(e, s, port, f) <==> KubernetesAllows(e, c, pod, policies, f)))
  }

  /** So a port never allows what Kubernetes would not; and allows all of it when
      nothing was refused and every selected address can be listed here. */
  lemma GroupsMeanKubernetes(e: Env, c: Cluster, s: Store, b: BaselineIds, cache: map<string, string>,
                             pod: Pod, policies: seq<Policy>, f: Flow)
    requires Faithful(e) && BaselineHolds(s, b) && Judgeable(e, pod, policies)
    requires forall p :: p in policies && Selects(e, pod, p) ==> Coherent(e, c, s, cache, p)
    requires GroupList(b, cache, AllFacts(e, pod, policies)).Ok?
    ensures PortMeans(e, c, s, GroupList(b, cache, AllFacts(e, pod, policies)).value, pod, policies, f)
  {
    GroupsMeanPolicies(e, c, s, b, cache, pod, policies, f);
    forall p | p in policies && Selects(e, pod, p)
      ensures PolicyAllows(e, c, Served, Strip(e, p), f) ==> PolicyAllows(e, c, Full, p, f)
      ensures Translation(e, p).value.refused == [] && PeersListable(e, c, p) ==>
                (PolicyAllows(e, c, Served, Strip(e, p), f) <==> PolicyAllows(e, c, Full, p, f))
    {
      TranslationExact(e, c, p, f);
      TranslationSound(e, c, p, f);
    }
  }

  // ----- on the policies as written -----

  /** What a port may let through, said of the policies' own fields: everything
      in a direction no selecting policy isolates, otherwise what some selecting
      policy allows by peers and ports that can be carried. */
  lemma ExpressibleIs(e: Env, c: Cluster, pod: Pod, policies: seq<Policy>, f: Flow)
    ensures ExpressibleAllows(e, c, pod, policies, f) <==>
            || (forall p :: p in policies && Selects(e, pod, p) ==> !DeclaresRaw(p, f.dir))
            || exists p :: p in policies && Selects(e, pod, p) && PolicyCarries(e, c, p, f)
  {
    hide PolicyCarries, PolicyAllows, Strip, Selects;
    forall p | p in policies { StripCarries(e, c, p, f); }
    forall p ensures Declares(p, f.dir) <==> DeclaresRaw(p, f.dir) { }
    hide Declares, DeclaresRaw;
    if p :| p in policies && Selects(e, pod, p) && PolicyCarries(e, c, p, f) {
      assert PolicyAllows(e, c, Served, Strip(e, p), f);
    }
    if p :| p in policies && Selects(e, pod, p) && PolicyAllows(e, c, Served, Strip(e, p), f) {
      assert PolicyCarries(e, c, p, f);
    }
  }

  /** A policy selecting a pod whose group is still to be made. */
  predicate Unprepared(e: Env, cache: map<string, string>, pod: Pod, p: Policy) {
    Selects(e, pod, p) && RulesFor(e, p) != [] && p.Key() !in cache
  }

  predicate Missing(cache: map<string, string>, x: Facts) {
    x.selects && x.allows && x.key !in cache
  }

  /** The first policy still missing, if any, is what stops the list. */
  ghost predicate StopsAt(cache: map<string, string>, facts: seq<Facts>, i: nat) {
    && i < |facts| && Missing(cache, facts[i]) && PolicyGroups(cache, facts) == Err(Pending(facts[i].key))
    && forall j :: 0 <= j < i ==> !Missing(cache, facts[j])
  }

  lemma {:induction false} StoppedAt(cache: map<string, string>, facts: seq<Facts>) returns (i: nat)
    requires (forall x :: x in facts ==> x.ok) && PolicyGroups(cache, facts).Err?
    ensures StopsAt(cache, facts, i)
  {
    var init, last := facts[..|facts| - 1], facts[|facts| - 1];
    assert facts == init + [last] && last in facts;
    if PolicyGroups(cache, init).Err? {
      i := StoppedAt(cache, init);
      assert facts[i] == init[i] && forall j :: 0 <= j < i ==> facts[j] == init[j];
    } else {
      i := |init|;
      PolicyGroupsAre(cache, init);
      forall j | 0 <= j < i ensures !Missing(cache, facts[j]) { assert facts[j] == init[j] && init[j] in init; }
    }
  }

  lemma ListOrStop(b: BaselineIds, cache: map<string, string>, facts: seq<Facts>)
    requires (forall x :: x in facts ==> x.ok) && b.ingress != "" && b.egress != "" && b.denyAll != ""
    ensures var r, open := GroupList(b, cache, facts), Open(facts, Ingress) && Open(facts, Egress);
            && (r.Ok? <==> open || PolicyGroups(cache, facts).Ok?)
            && (r.Err? ==> r == Err(PolicyGroups(cache, facts).error))
  {
    hide PolicyGroups, Isolators, Unsorted, Ordering.SortStrings;
    IsolatorsAre(facts, Ingress);
    IsolatorsAre(facts, Egress);
  }

  lemma FactsAt(e: Env, pod: Pod, policies: seq<Policy>, cache: map<string, string>, i: nat)
    requires Judgeable(e, pod, policies) && i < |policies|
    ensures var x := AllFacts(e, pod, policies)[i];
            x.ok && x.key == policies[i].Key() && (Missing(cache, x) <==> Unprepared(e, cache, pod, policies[i]))
  {
    assert policies[i] in policies;
    AllFactsAt(e, pod, policies, i);
    OneFact(e, pod, policies[i]);
  }

  /** With the baseline resolved and every policy translating, a list is given
      exactly when no selecting policy isolates the pod, or none of them is
      still unprepared; and otherwise what is waited for is the first that is. */
  lemma ListGivenExactly(e: Env, b: BaselineIds, cache: map<string, string>, pod: Pod, policies: seq<Policy>)
    requires Judgeable(e, pod, policies) && b.ingress != "" && b.egress != "" && b.denyAll != ""
    ensures var r := GroupList(b, cache, AllFacts(e, pod, policies));
            && (r.Ok? <==> || (!Isolated(e, pod, policies, Ingress) && !Isolated(e, pod, policies, Egress))
                           || forall i :: 0 <= i < |policies| ==> !Unprepared(e, cache, pod, policies[i]))
            && (r.Err? ==>
                  exists i :: 0 <= i < |policies| && Unprepared(e, cache, pod, policies[i])
                              && r == Err(Pending(policies[i].Key()))
                              && forall j :: 0 <= j < i ==> !Unprepared(e, cache, pod, policies[j]))
  {
    hide Isolated, FactsOf, RulesFor, Selects, AllFacts, Judgeable, Unprepared, PolicyGroups, Open, GroupList, Missing;
    var facts := AllFacts(e, pod, policies);
    OpenIsNotIsolated(e, pod, policies, Ingress);
    OpenIsNotIsolated(e, pod, policies, Egress);
    forall i | 0 <= i < |policies|
      ensures facts[i].ok && facts[i].key == policies[i].Key()
      ensures Missing(cache, facts[i]) <==> Unprepared(e, cache, pod, policies[i])
    {
      FactsAt(e, pod, policies, cache, i);
    }
    ListOrStop(b, cache, facts);
    if PolicyGroups(cache, facts).Err? {
      var i := StoppedAt(cache, facts);
    } else {
      NoneMissing(cache, facts);
    }
  }

  lemma NoneMissing(cache: map<string, string>, facts: seq<Facts>)
    requires PolicyGroups(cache, facts).Ok?
    ensures forall i :: 0 <= i < |facts| ==> !Missing(cache, facts[i])
  {
    PolicyGroupsAre(cache, facts);
    forall i | 0 <= i < |facts| ensures !Missing(cache, facts[i]) { assert facts[i] in facts; }
  }
}
