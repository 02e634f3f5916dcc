/** The policy worker, the pod worker and the sweep of pkg/netpol/controller.go,
    one step at a time, in any order, with edits in between and any call to
    Neutron failing. */
module Controllers {
  import opened Wrappers
  import opened NetworkPolicy
  import opened Translate
  import opened RuleSets
  import opened NeutronStore
  import opened NeutronClient
  import opened Baseline
  import opened NeutronMeaning
  import opened Groups
  import opened Composition
  import opened Sweeping
  import opened PolicySync
  import opened PolicyFacts
  import opened Protocol
  import PolicyPass
  import Ordering

  /** An edit replaces what the listers show and what the ports carry; a pod
      pass is two steps, judging and writing; a sweep is two steps, reading the
      live policies and collecting. */
  datatype Step =
    | Edit(world: World, ports: map<string, seq<string>>)
    | PolicyPass(policy: string)
    | Judging(pod: string)
    | Writing(pod: string)
    | Listing
    | Collecting

  function NamespaceIn(key: string): string {
    match NamespacePart(key) case Some(ns) => ns case None => ""
  }

  lemma KeysName(policies: seq<Policy>, key: string)
    requires forall p :: p in policies ==> ValidPolicy(p)
    ensures forall p :: p in policies && p.Key() == key ==> p.namespace == NamespaceIn(key)
  {
    forall p | p in policies && p.Key() == key ensures p.namespace == NamespaceIn(key) {
      NamespaceOfKey(p.namespace, p.name);
    }
  }

  lemma KeysNamePods(w: World, key: string)
    requires WellFormed(w)
    ensures forall pod :: pod in w.cluster.pods && PodKey(pod) == key ==>
              pod.namespace == NamespaceIn(key) && FindPod(w.cluster.pods, key) == Some(pod)
  {
    forall pod | pod in w.cluster.pods && PodKey(pod) == key
      ensures pod.namespace == NamespaceIn(key) && FindPod(w.cluster.pods, key) == Some(pod)
    {
      NamespaceOfKey(pod.namespace, pod.name);
      KeyTellsPodsApart(w, pod, FindPod(w.cluster.pods, key).value);
    }
  }

  /** Translating a policy and converging its objects, in the state y. */
  method Pass(n: Neutron, e: Env, c: Cluster, h: string -> string, p: Policy, ghost y: Control)
    returns (r: Option<string>)
    requires Faithful(e) && Injective(h) && Sound(e, h, n.store, y) && p in y.world.policies && c == y.world.cluster
    modifies n
    ensures Sound(e, h, n.store, PassedOver(y, p.Key(), r)) && n.store.ports == old(n.store).ports
    ensures old(n.Healthy()) ==> n.Healthy()
    ensures Translation(e, p).Ok? && old(n.Healthy()) ==> r.Some?
  {
    var t := TranslatePolicy(e, p);
    if t.Err? {
      return None;
    }
    var rules := PolicyRules(t.value);
    PolicyIsLawful(e, p);
    ghost var key, s := p.Key(), n.store;
    ghost var before := key in y.progress.passes;
    assert before ==> PolicyDone(e, h, y.world, s, y.cache, p, y.progress.passes[key]);
    r := PolicyPass.SyncPolicyPeers(n, e, c, h, p.Key(), rules, y.cache, before);
    assert PassDone(e, h, s, n.store, y, p, r);
    PassSound(e, h, s, n.store, y, p, r);
  }

  /** A placed pod of a served namespace whose policies are all prepared. */
  ghost predicate Ready(e: Env, y: Control, key: string) {
    && key in y.world.placed
    && exists pod :: pod in y.world.cluster.pods && PodKey(pod) == key
                     && pod.namespace in y.world.cluster.served && Settled(y.world, y.progress, pod.namespace)
                     && ListOf(e, y.baseline, y.cache, y.world, pod).Ok?
  }

  /** A list is given exactly for a pod of a served namespace that is there and
      placed, when the cache allows one; and that is not an error but when the
      cache does not. */
  ghost predicate Gives(e: Env, w: World, b: BaselineIds, cache: map<string, string>, key: string, ok: bool,
                        r: Option<Verdict>) {
    if key in w.placed && exists pod :: pod in w.cluster.pods && PodKey(pod) == key && pod.namespace in w.cluster.served
    then
      forall pod :: pod in w.cluster.pods && PodKey(pod) == key ==>
        match ListOf(e, b, cache, w, pod)
        case Ok(list) => ok && r == Some(Verdict(w.placed[key], list))
        case Err(_) => !ok && r == None
    else ok && r == None
  }

  /** The list for one pod, if it is placed and a list can be given. */
  method FindList(e: Env, w: World, b: BaselineIds, cache: map<string, string>, key: string, ghost y: Control)
    returns (ok: bool, r: Option<Verdict>, ghost settled: bool)
    requires WellFormed(w) && y.world == w && y.baseline == b && y.cache == cache
    ensures r.Some? ==> ok && key in w.placed && w.placed[key] == r.value.port && b.denyAll in r.value.list
    ensures settled ==> r.Some? && Current(e, b, cache, w, y.progress, key, r.value.list)
    ensures Ready(e, y, key) ==> settled
    ensures Gives(e, w, b, cache, key, ok, r)
  {
    KeysNamePods(w, key);
    if NamespaceIn(key) !in w.cluster.served {
      return true, None, false;
    }
    var pod := FindPod(w.cluster.pods, key);
    if pod.None? || key !in w.placed {
      return true, None, false;
    }
    var list := GroupsFor(e, b, cache, pod.value, PoliciesOf(w.policies, pod.value.namespace));
    assert list == ListOf(e, b, cache, w, pod.value);
    hide ListOf;
    if list.Err? {
      return false, None, false;
    }
    ListCarriesAnchor(e, b, cache, w, pod.value, list.value);
    return true, Some(Verdict(w.placed[key], list.value)), Settled(w, y.progress, pod.value.namespace);
  }

  /** A write of this list would be accepted. */
  predicate Writable(s: Store, v: Verdict) {
    v.port in s.ports && forall g :: g in v.list ==> g in s.groups
  }

  lemma SortedSameGroups(have: seq<string>, want: seq<string>)
    requires Ordering.SortStrings(have) == want
    ensures SameGroups(have, want)
  {
    Ordering.SortMembers(have, Ordering.StrLe);
  }

  lemma SameAsItself(list: seq<string>)
    ensures SameGroups(list, list)
  {
  }

  /** Reads one port and replaces its list unless it is already the wanted one. */
  method AlignPort(n: Neutron, v: Verdict) returns (ok: bool, ghost carried: bool)
    requires n.Valid()
    modifies n
    ensures n.Valid() && old(n.trace) <= n.trace
    ensures Wrote(old(n.store), n.store, v, carried) && (ok ==> carried)
    ensures old(n.Healthy()) ==> n.Healthy() && (Writable(old(n.store), v) ==> carried)
    ensures v.port in old(n.store).ports && Ordering.SortStrings(old(n.store).ports[v.port]) == v.list ==>
              n.store == old(n.store) && n.trace == old(n.trace)
  {
    hide ValidStore, SameGroups;
    var f := n.NextFault();
    if !f.NoFault? || v.port !in n.store.ports {
      return false, false;
    }
    var have := Ordering.SortStrings(n.store.ports[v.port]);
    if have == v.list {
      SortedSameGroups(n.store.ports[v.port], v.list);
      return true, true;
    }
    f := n.NextFault();
    OtherCallsValid(n.store, v.port, "", {}, v.list);
    var (t, answer) := UpdatePort(n.store, v.port, v.list);
    assert ValidStore(t);
    if f.Before? || answer.Failed? {
      return false, false;
    }
    n.store := t;
    n.trace := n.trace + [t];
    SameAsItself(v.list);
    return f.NoFault?, true;
  }

  function KeysOfPolicies(policies: seq<Policy>): (r: set<string>)
    ensures forall k :: k in r <==> exists p :: p in policies && p.Key() == k
  {
    set p | p in policies :: p.Key()
  }

  lemma NothingToCover(w: World, live: set<string>)
    ensures Covers(w, NoProgress, live)
  {
  }

  predicate Fits(w: World, judged: map<string, Verdict>) {
    WellFormed(w) && Owned(w, judged)
  }

  /** What a pod's port lets through is what the policies selecting it say. */
  ghost predicate AlignedPortMeans(e: Env, w: World, s: Store, pod: Pod, f: Flow) {
    && PodKey(pod) in w.placed && w.placed[PodKey(pod)] in s.ports
    && PortMeans(e, w.cluster, s, s.ports[w.placed[PodKey(pod)]], pod, PoliciesOf(w.policies, pod.namespace), f)
  }

  lemma RunMeans(e: Env, h: string -> string, s: Store, y: Control)
    requires Faithful(e) && HostRoutes(e) && Injective(h) && Sound(e, h, s, y)
    ensures forall k :: k in y.cache && y.cache[k] != "" ==>
              (k, y.cache[k]) in y.returned && GroupOf(h, s, k, y.cache[k])
    ensures forall p :: p in y.written && p in s.ports ==> y.baseline.denyAll in s.ports[p]
    ensures BaselineHolds(s, y.baseline)
    ensures forall pod, f :: pod in y.world.cluster.pods && PodKey(pod) in y.aligned ==>
              AlignedPortMeans(e, y.world, s, pod, f)
  {
    forall pod, f | pod in y.world.cluster.pods && PodKey(pod) in y.aligned
      ensures AlignedPortMeans(e, y.world, s, pod, f)
    {
      AlignedMeans(e, h, y.baseline, y.cache, y.world, y.progress, s, pod, f);
    }
  }

  /** Before the first step nothing has been done yet. */
  lemma StartsSound(e: Env, h: string -> string, s: Store, w: World, b: BaselineIds)
    requires WellFormed(w) && StoreSafe(h, s, b)
    ensures Sound(e, h, s, Control(w, b, map[], map[], {}, {}, NoProgress, {}, {}))
  {
  }

  class Controller {
    const e: Env
    const h: string -> string
    const neutron: Neutron
    var world: World
    var baseline: BaselineIds
    /** Policy key to group id; written by the policy worker only. */
    var ruleGroups: map<string, string>
    /** Lists worked out and not written yet, by pod. */
    var judged: map<string, Verdict>
    /** The live policies a sweep has read and not acted on yet. */
    var live: Option<set<string>>
    ghost var returned: set<(string, string)>
    ghost var written: set<string>
    ghost var progress: Progress
    ghost var current: set<string>
    ghost var aligned: set<string>

    ghost function State(): Control
      reads this
    {
      Control(world, baseline, ruleGroups, judged, returned, written, progress, current, aligned)
    }

    /** What holds after every run. */
    ghost predicate Valid()
      reads this, neutron
    {
      Faithful(e) && HostRoutes(e) && Injective(h) && Sound(e, h, neutron.store, State())
    }

    /** The baseline is resolved before any worker starts. */
    constructor (e: Env, h: string -> string, neutron: Neutron, world: World, baseline: BaselineIds)
      requires Faithful(e) && HostRoutes(e) && Injective(h) && WellFormed(world)
      requires StoreSafe(h, neutron.store, baseline)
      ensures Valid() && this.neutron == neutron && this.e == e && this.h == h
      ensures State() == Control(world, baseline, map[], map[], {}, {}, NoProgress, {}, {})
    {
      StartsSound(e, h, neutron.store, world, baseline);
      hide Sound, WellFormed, StoreSafe;
      this.e, this.h, this.neutron, this.world, this.baseline := e, h, neutron, world, baseline;
      ruleGroups, judged, live := map[], map[], None;
      returned, written, progress, current, aligned := {}, {}, NoProgress, {}, {};
    }

    method ApplyEdit(w: World, ports: map<string, seq<string>>)
      requires Valid() && WellFormed(w) && Owned(w, judged)
      modifies this, neutron
      ensures Valid() && State() == Edited(old(State()), old(neutron.store), w, ports) && live == old(live)
      ensures neutron.store == old(neutron.store).(ports := ports)
      ensures old(neutron.Healthy()) ==> neutron.Healthy()
    {
      hide Sound, WellFormed;
      EditSound(e, h, neutron.store, State(), w, ports);
      ghost var y := Edited(State(), neutron.store, w, ports);
      neutron.store := neutron.store.(ports := ports);
      world, written, progress, current, aligned := w, y.written, NoProgress, {}, {};
    }

    // ----- the policy worker -----

    /** One pass over a policy; its id is remembered only after every write. */
    method SyncPolicyPeers(p: Policy) returns (ok: bool, ghost r: Option<string>)
      requires Valid() && p in world.policies
      modifies this, neutron
      ensures Valid() && State() == PassedOver(old(State()), p.Key(), r) && live == old(live)
      ensures neutron.store.ports == old(neutron.store).ports
      ensures ok <==> r.Some?
      ensures old(neutron.Healthy()) ==> neutron.Healthy() && (Translation(e, p).Ok? ==> ok)
    {
      hide Sound;
      ghost var y := State();
      var id := Pass(neutron, e, world.cluster, h, p, y);
      ghost var y' := PassedOver(y, p.Key(), id);
      if id.Some? {
        ruleGroups := ruleGroups[p.Key() := id.value];
      }
      returned, progress := y'.returned, y'.progress;
      assert State() == y';
      ok, r := id.Some?, id;
    }

    /** syncPolicy: a policy that is gone is forgotten, one that is there is
        passed over. */
    method SyncPolicy(key: string) returns (ok: bool, ghost r: Option<string>)
      requires Valid()
      modifies this, neutron
      ensures Valid() && live == old(live) && neutron.store.ports == old(neutron.store).ports
      ensures State() == match FindPolicy(old(world).policies, key)
                         case Some(p) => PassedOver(old(State()), key, r)
                         case None => old(State()).(cache := ruleGroups)
      ensures NamespaceIn(key) !in old(world).cluster.served ==>
                ok && r.None? && ruleGroups == old(ruleGroups) && neutron.store == old(neutron.store)
      ensures NamespaceIn(key) in old(world).cluster.served && FindPolicy(old(world).policies, key).None? ==>
                ok && r.None? && ruleGroups == old(ruleGroups) - {key} && neutron.store == old(neutron.store)
      ensures forall p ::
                FindPolicy(old(world).policies, key) == Some(p) && p.namespace in old(world).cluster.served ==>
                && (ok <==> r.Some?)
                && (old(neutron.Healthy()) && Translation(e, p).Ok? ==> ok)
      ensures old(neutron.Healthy()) ==> neutron.Healthy()
    {
      hide Sound, ValidStore;
      SoundIs(e, h, neutron.store, State());
      var ns := NamespaceIn(key);
      KeysName(world.policies, key);
      if ns !in world.cluster.served {
        return true, None;
      }
      var p := FindPolicy(world.policies, key);
      if p.None? {
        ForgetSound(e, h, neutron.store, State(), key);
        ruleGroups := ruleGroups - {key};
        return true, None;
      }
      ok, r := SyncPolicyPeers(p.value);
    }

    // ----- the pod worker -----

    /** The first half of ReconcilePod: the list the pod's port should carry,
        from the cache alone. */
    method JudgePod(key: string) returns (ok: bool, ghost r: Option<Verdict>, ghost settled: bool)
      requires Valid()
      modifies this
      ensures Valid() && live == old(live) && (r.Some? ==> ok)
      ensures State() == if r.Some? then Judged(old(State()), key, r.value, settled) else old(State())
      ensures settled ==> r.Some?
      ensures Ready(e, old(State()), key) ==> settled
      ensures Gives(e, old(world), old(baseline), old(ruleGroups), key, ok, r)
    {
      hide Sound, Current, Ready, WellFormed, StoreSafe, ValidStore, ListOf, Gives;
      SoundIs(e, h, neutron.store, State());
      var found;
      ok, found, settled := FindList(e, world, baseline, ruleGroups, key, State());
      r := found;
      if found.None? {
        return;
      }
      JudgedSound(e, h, neutron.store, State(), key, found.value, settled);
      ghost var y := Judged(State(), key, found.value, settled);
      judged := judged[key := found.value];
      current, aligned := y.current, y.aligned;
    }

    /** The second half: read the port, and replace its whole list if it is not
        the one wanted. */
    method WritePod(key: string) returns (ok: bool, ghost carried: bool)
      requires Valid() && key in judged
      modifies this, neutron
      ensures Valid() && live == old(live) && State() == Written(old(State()), key, carried)
      ensures Wrote(old(neutron.store), neutron.store, old(judged)[key], carried)
      ensures ok ==> carried
      ensures old(neutron.Healthy()) ==> neutron.Healthy()
      ensures old(neutron.Healthy()) && Writable(old(neutron.store), old(judged)[key]) ==> carried
    {
      hide Sound, Wrote, ValidStore, WellFormed, StoreSafe, Owned, Writable;
      SoundIs(e, h, neutron.store, State());
      ghost var y, s := State(), neutron.store;
      ok, carried := AlignPort(neutron, judged[key]);
      WrittenSound(e, h, s, neutron.store, y, key, carried);
      ghost var y' := Written(y, key, carried);
      judged := judged - {key};
      written, current, aligned := y'.written, y'.current, y'.aligned;
      assert State() == y';
    }

    // ----- the sweep -----

    method ListLive()
      requires Valid()
      modifies this`live
      ensures Valid() && State() == old(State())
      ensures live.Some? && Covers(world, progress, live.value)
      ensures live == Some(KeysOfPolicies(world.policies))
      ensures forall k :: k in live.value <==> exists p :: p in world.policies && p.Key() == k
    {
      hide Sound;
      live := Some(KeysOfPolicies(world.policies));
    }

    /** Collects by the last reading of the live policies. A reading taken before
        an edit may have missed a policy; then nothing is known any more. */
    method Collect() returns (ok: bool)
      requires Valid() && live.Some?
      modifies this, neutron
      ensures Valid() && live == None
      ensures State() ==
                if Covers(old(world), old(progress), old(live).value) then old(State()) else Forgotten(old(State()))
      ensures Swept(old(neutron.store), neutron.store, old(live).value, world.cluster.served)
      ensures ok ==> SweptClean(old(neutron.store), neutron.store, old(live).value, world.cluster.served)
      ensures old(neutron.Healthy()) ==> neutron.Healthy() && ok
    {
      hide Sound, Swept, ValidStore, WellFormed, StoreSafe, Owned, Covers, SweptClean;
      SoundIs(e, h, neutron.store, State());
      ghost var s, y, was := neutron.store, State(), live.value;
      ghost var kept := Covers(world, progress, was);
      var removed;
      ok, removed := Sweep(neutron, live.value, world.cluster.served);
      live := None;
      ghost var y' := if kept then y else Forgotten(y);
      if !kept {
        ForgottenSound(e, h, s, y);
        NothingToCover(world, was);
      }
      progress, current, aligned := y'.progress, y'.current, y'.aligned;
      assert State() == y';
      SweepSound(e, h, s, neutron.store, State(), was, world.cluster.served);
    }

    // ----- any run -----

    /** What one step does to the controller, and to Neutron. */
    ghost predicate Took(step: Step, y: Control, reading: Option<set<string>>, s: Store,
                         y': Control, reading': Option<set<string>>, s': Store)
    {
      match step
      case Edit(w, ports) =>
        reading' == reading
        && if Fits(w, y.judged) then y' == Edited(y, s, w, ports) && s' == s.(ports := ports) else y' == y && s' == s
      case PolicyPass(key) =>
        && reading' == reading && s'.ports == s.ports
        && (match FindPolicy(y.world.policies, key)
            case Some(p) => exists r :: y' == Protocol.PassedOver(y, key, r)
            case None => y' == if NamespaceIn(key) in y.world.cluster.served then y.(cache := y.cache - {key}) else y)
      case Judging(key) =>
        && reading' == reading && s' == s
        && (key in y.judged ==> y' == y)
        && (key !in y.judged ==>
              exists ok, r :: Gives(e, y.world, y.baseline, y.cache, key, ok, r)
                              && y'.judged == if r.Some? then y.judged[key := r.value] else y.judged)
      case Writing(key) =>
        && reading' == reading
        && (key !in y.judged ==> y' == y && s' == s)
        && (key in y.judged ==>
              exists carried :: y' == Written(y, key, carried) && Wrote(s, s', y.judged[key], carried))
      case Listing => y' == y && s' == s && reading' == Some(KeysOfPolicies(y.world.policies))
      case Collecting =>
        && reading' == None && y'.(progress := y.progress, current := y.current, aligned := y.aligned) == y
        && if reading.None? then s' == s else Swept(s, s', reading.value, y.world.cluster.served)
    }

    /** One step. An edit that would hand a pod the port of a write under way,
        and a step whose turn has not come, change nothing. */
    method Take(step: Step)
      requires Valid()
      modifies this, neutron
      ensures Valid()
      ensures Took(step, old(State()), old(live), old(neutron.store), State(), live, neutron.store)
      ensures old(neutron.Healthy()) ==> neutron.Healthy()
    {
      hide Sound;
      match step {
        case Edit(w, ports) =>
          if Fits(w, judged) {
            ApplyEdit(w, ports);
          }
        case PolicyPass(key) =>
          var _, r := SyncPolicy(key);
        case Judging(key) =>
          if key !in judged {
            var ok, given, settled := JudgePod(key);
            assert Gives(e, world, baseline, ruleGroups, key, ok, given);
          }
        case Writing(key) =>
          if key in judged {
            var _, carried := WritePod(key);
          }
        case Listing =>
          ListLive();
        case Collecting =>
          if live.Some? {
            var _ := Collect();
          }
      }
    }

    /** The steps in turn. */
    method TakeAll(steps: seq<Step>) returns (ghost past: seq<(Control, Option<set<string>>, Store)>)
      requires Valid()
      modifies this, neutron
      ensures Valid()
      ensures |past| == |steps| + 1 && past[0] == (old(State()), old(live), old(neutron.store))
      ensures past[|steps|] == (State(), live, neutron.store)
      ensures forall i :: 0 <= i < |steps| ==>
                Took(steps[i], past[i].0, past[i].1, past[i].2, past[i + 1].0, past[i + 1].1, past[i + 1].2)
    {
      hide Sound, Took, Faithful, HostRoutes, Injective;
      past := [(State(), live, neutron.store)];
      for i := 0 to |steps|
        invariant Valid() && |past| == i + 1 && past[i] == (State(), live, neutron.store)
        invariant past[0] == (old(State()), old(live), old(neutron.store))
        invariant forall j :: 0 <= j < i ==>
          Took(steps[j], past[j].0, past[j].1, past[j].2, past[j + 1].0, past[j + 1].1, past[j + 1].2)
      {
        Take(steps[i]);
        past := past + [(State(), live, neutron.store)];
      }
    }

    /** Whatever the order of edits, policy passes, pod passes and sweeps, and
        whichever calls fail: every cached id was returned for that policy and
        names no other policy's group, every port the pod worker wrote holds
        the anchor group, and every port brought up to date since the last edit
        means what its policies say. past holds the controller before and after
        each step, so that every one of them was taken. */
    method Run(steps: seq<Step>) returns (ghost past: seq<(Control, Option<set<string>>, Store)>)
      requires Valid()
      modifies this, neutron
      ensures Valid()
      ensures |past| == |steps| + 1 && past[0] == (old(State()), old(live), old(neutron.store))
      ensures past[|steps|] == (State(), live, neutron.store)
      ensures forall i :: 0 <= i < |steps| ==>
                Took(steps[i], past[i].0, past[i].1, past[i].2, past[i + 1].0, past[i + 1].1, past[i + 1].2)
      ensures forall k :: k in ruleGroups && ruleGroups[k] != "" ==>
                (k, ruleGroups[k]) in returned && GroupOf(h, neutron.store, k, ruleGroups[k])
      ensures forall p :: p in written && p in neutron.store.ports ==> baseline.denyAll in neutron.store.ports[p]
      ensures BaselineHolds(neutron.store, baseline)
      ensures forall pod, f :: pod in world.cluster.pods && PodKey(pod) in aligned ==>
                AlignedPortMeans(e, world, neutron.store, pod, f)
    {
      hide Sound, Took, WellFormed;
      past := TakeAll(steps);
      RunMeans(e, h, neutron.store, State());
    }
  }
}
