/** The provider's record of its pods (pkg/provider/provider.go) and the cycle
    that judges them against the capsules (pkg/provider/sync.go). One cycle is
    taken as atomic. */
module PodSync {
  import opened Wrappers
  import opened Capsules

  datatype Pod = Pod(namespace: string, name: string, uid: string, specs: seq<string>, started: Option<int>,
                     status: Status) {
    function Key(): string { namespace + "/" + name }
  }

  predicate Terminal(p: Pod) {
    p.status.phase.Succeeded? || p.status.phase.Failure?
  }

  const AppearGrace := 30
  const CreateTimeout := 600
  const TerminalGrace := 3600

  const ErrorConditions: seq<(string, bool)> := [("Ready", false), ("Initialized", false), ("PodScheduled", true)]

  // ----- containers of a failed pod -----

  function FailedContainer(c: Container, reason: string, now: int): Container {
    if c.state.Ended? then c else c.(ready := false, state := Ended(1, reason, 0, now))
  }

  /** A container that already ended keeps its own outcome; the rest share the
      pod's. */
  method FailContainers(cs: seq<Container>, reason: string, now: int) returns (out: seq<Container>)
    ensures out == AllFailed(cs, reason, now)
  {
    out := [];
    for i := 0 to |cs|
      invariant out == AllFailed(cs[..i], reason, now)
    {
      out := out + [if cs[i].state.Ended? then cs[i] else cs[i].(ready := false, state := Ended(1, reason, 0, now))];
    }
    assert cs[..|cs|] == cs;
  }

  function AllFailed(cs: seq<Container>, reason: string, now: int): (r: seq<Container>)
    ensures |r| == |cs|
    ensures forall i :: 0 <= i < |cs| ==> r[i] == FailedContainer(cs[i], reason, now)
  {
    seq(|cs|, i requires 0 <= i < |cs| => FailedContainer(cs[i], reason, now))
  }

  // ----- when a pod finished -----

  function LastEnd(cs: seq<Container>): (r: int)
    ensures r >= 0
  {
    if cs == [] then 0
    else
      var before, c := LastEnd(cs[..|cs| - 1]), cs[|cs| - 1].state;
      if c.Ended? && c.finished > before then c.finished else before
  }

  /** The last end among its containers; its start when none of them says. */
  function FinishTime(p: Pod): int {
    if LastEnd(p.status.containers) == 0 && p.started.Some? then p.started.value else LastEnd(p.status.containers)
  }

  method FinishedAt(p: Pod) returns (last: int)
    ensures last == FinishTime(p)
  {
    last := 0;
    var cs := p.status.containers;
    for i := 0 to |cs|
      invariant last == LastEnd(cs[..i])
    {
      assert cs[..i + 1][..i] == cs[..i];
      if cs[i].state.Ended? && cs[i].state.finished > last {
        last := cs[i].state.finished;
      }
    }
    assert cs[..|cs|] == cs;
    if last == 0 && p.started.Some? {
      last := p.started.value;
    }
  }

  /** No container ended later, and some one ended then unless none says when. */
  lemma {:induction false} LastEndIs(cs: seq<Container>)
    ensures forall c :: c in cs && c.state.Ended? ==> c.state.finished <= LastEnd(cs)
    ensures LastEnd(cs) != 0 ==> exists c :: c in cs && c.state.Ended? && c.state.finished == LastEnd(cs)
  {
    if cs != [] {
      var init, last := cs[..|cs| - 1], cs[|cs| - 1];
      LastEndIs(init);
      assert cs == init + [last];
      if LastEnd(cs) != 0 && LastEnd(cs) == LastEnd(init) {
        var c :| c in init && c.state.Ended? && c.state.finished == LastEnd(init);
        assert c in cs;
      }
    }
  }

  /** A finished pod's capsule, and the address it holds, are given back only
      after the grace period. */
  predicate Reclaimable(p: Pod, now: int) {
    FinishTime(p) != 0 && now - FinishTime(p) >= TerminalGrace
  }

  // ----- judging one pod -----

  /** What one cycle does about one pod. */
  datatype Verdict =
    | Unjudged
    | Finished(capsule: Capsule)
    | Forgotten
    | Patience
    | Lost
    | LeftAlone
    | Stuck
    | Reported(capsule: Capsule)

  /** A capsule of an earlier pod of the same name is not this pod's. */
  function Own(p: Pod, found: Option<Capsule>): Option<Capsule> {
    if found.Some? && found.value.podUID != "" && found.value.podUID != p.uid then None else found
  }

  function Judge(p: Pod, covered: bool, found: Option<Capsule>, now: int): Verdict {
    var own := Own(p, found);
    if !covered then Unjudged
    else if own.Some? && Terminal(p) then Finished(own.value)
    else if own.None? then
      if Terminal(p) then Forgotten
      else if p.started.Some? && now - p.started.value < AppearGrace then Patience
      else if p.status.phase.Pending? || p.status.phase.Running? then Lost
      else LeftAlone
    else if own.value.state == "Creating" && own.value.createdAt != 0
            && now - own.value.createdAt > CreateTimeout then Stuck
    else Reported(own.value)
  }

  function FailedStatus(s: Status, reason: string, now: int): Status {
    s.(phase := Failure, reason := reason, conditions := ErrorConditions,
       containers := AllFailed(s.containers, reason, now))
  }

  function ReportedStatus(s: Status, shows: Status): Status {
    shows.(ip := if shows.ip != "" then shows.ip else s.ip)
  }

  function Applied(p: Pod, v: Verdict, now: int): Pod {
    match v
    case Lost => p.(status := FailedStatus(p.status, "ContainerStatusUnknown", now))
    case Stuck => p.(status := FailedStatus(p.status, "FailedCreatePodSandBox", now))
    case Reported(c) => p.(status := ReportedStatus(p.status, c.shows))
    case _ => p
  }

  /** What a reader is told of a container's state. When it ended is not part of
      it, nor is a message. */
  datatype StateKey =
    | KeyRunning(at: int)
    | KeyEnded(reason: string, exitCode: int, begun: int)
    | KeyWaiting(reason: string)
    | KeyUnknown

  function KeyOfState(s: ContainerState): StateKey {
    match s
    case Started(at) => KeyRunning(at)
    case Ended(exitCode, reason, begun, _) => KeyEnded(reason, exitCode, begun)
    case Waiting(reason) => KeyWaiting(reason)
    case NoState => KeyUnknown
  }

  datatype Fingerprint = Fingerprint(
    phase: Phase,
    reason: string,
    ip: string,
    containers: seq<(string, StateKey, bool, int)>,
    conditions: seq<(string, bool)>)

  function PrintOf(s: Status): Fingerprint {
    Fingerprint(s.phase, s.reason, s.ip,
                seq(|s.containers|, i requires 0 <= i < |s.containers| =>
                  (s.containers[i].name, KeyOfState(s.containers[i].state), s.containers[i].ready,
                   s.containers[i].restarts)),
                s.conditions)
  }

  /** A change is kept and announced only when the fingerprint shows it. */
  function Updated(p: Pod, v: Verdict, now: int): Pod {
    var q := Applied(p, v, now);
    if PrintOf(q.status) != PrintOf(p.status) then q else p
  }

  // ----- the provider -----

  datatype Answer = Listing(list: seq<Capsule>) | Failing

  class Provider {
    var pods: map<string, Pod>
    /** Pods deleted and still shown, by uid, until the node controller has seen
        their end. */
    var deleted: map<string, string>
    ghost var announced: seq<Pod>

    /** A tombstone stands for exactly the pod recorded under its key. */
    ghost predicate Valid()
      reads this
    {
      && (forall k :: k in pods ==> pods[k].Key() == k)
      && (forall k :: k in deleted ==> k in pods && pods[k].uid == deleted[k] && Terminal(pods[k]))
    }

    constructor ()
      ensures Valid() && pods == map[] && deleted == map[]
    {
      pods, deleted, announced := map[], map[], [];
    }

    /** Takes over a pod whose capsule is already there, with the status it has. */
    method AdoptPod(p: Pod)
      requires Valid()
      modifies this
      ensures Valid() && p.Key() in pods && p.Key() !in deleted && announced == old(announced)
      ensures pods == old(pods)[p.Key() := pods[p.Key()]] && deleted == old(deleted) - {p.Key()}
      ensures pods[p.Key()] == if p.status.phase != Unset then p
                               else p.(status := Status(Pending, "Creating", p.status.ip, p.status.containers,
                                                        [("Ready", false), ("Initialized", false),
                                                         ("PodScheduled", true)]))
    {
      var adopted := p;
      if p.status.phase.Unset? {
        adopted := p.(status := p.status.(phase := Pending, reason := "Creating", conditions := ErrorConditions));
      }
      pods := pods[p.Key() := adopted];
      deleted := deleted - {p.Key()};
    }

    method TrackPod(p: Pod, now: int)
      requires Valid()
      modifies this
      ensures Valid() && p.Key() in pods && p.Key() !in deleted && announced == old(announced) + [pods[p.Key()]]
      ensures pods == old(pods)[p.Key() := pods[p.Key()]] && deleted == old(deleted) - {p.Key()}
      ensures Awaited(p, pods[p.Key()], now)
    {
      var tracked := p.(started := Some(now),
        status :=
          Status(Pending, "Creating", p.status.ip, FromSpecs(p.specs, Waiting("ContainerCreating")), ErrorConditions));
      pods := pods[p.Key() := tracked];
      deleted := deleted - {p.Key()};
      announced := announced + [tracked];
    }

    /** Creates a capsule unless the listing shows the pod already has one; that
        one is taken over with whatever status the pod has. */
    method CreatePod(p: Pod, credential: bool, listing: Option<seq<Capsule>>, built: bool, now: int)
      returns (ok: bool, created: bool)
      requires Valid()
      modifies this
      ensures Valid()
      ensures ok <==> credential && (Shown(p, listing) || built)
      ensures !ok ==> pods == old(pods) && deleted == old(deleted) && announced == old(announced) && !created
      ensures ok ==> p.Key() in pods && pods[p.Key()].uid == p.uid && deleted == old(deleted) - {p.Key()}
      ensures ok ==> (created <==> !Shown(p, listing)) && pods == old(pods)[p.Key() := pods[p.Key()]]
      ensures ok && !created ==>
                announced == old(announced) && (p.status.phase != Unset ==> pods[p.Key()] == p)
                && (p.status.phase == Unset ==> pods[p.Key()].status.phase == Pending)
      ensures created ==> Awaited(p, pods[p.Key()], now) && announced == old(announced) + [pods[p.Key()]]
    {
      if !credential {
        return false, false;
      }
      if listing.Some? {
        var managed := ListManaged(listing.value);
        if p.Key() in managed && managed[p.Key()].podUID == p.uid {
          AdoptPod(p);
          return true, false;
        }
      }
      if !built {
        return false, false;
      }
      TrackPod(p, now);
      return true, true;
    }

    /** A no-op for the pod already recorded; a create for a new pod that has
        taken over its name. */
    method UpdatePod(p: Pod, deleting: bool, credential: bool, listing: Option<seq<Capsule>>, built: bool, now: int)
      returns (ok: bool)
      requires Valid()
      modifies this
      ensures Valid()
      ensures (p.Key() in old(pods) && old(pods)[p.Key()].uid == p.uid) || deleting ==>
                ok && pods == old(pods) && deleted == old(deleted)
      ensures (p.Key() in old(pods) && old(pods)[p.Key()].uid == p.uid) || deleting ==> announced == old(announced)
      ensures !(p.Key() in old(pods) && old(pods)[p.Key()].uid == p.uid) && !deleting ==>
                && (ok <==> credential && (Shown(p, listing) || built))
                && (ok ==> p.Key() in pods && pods[p.Key()].uid == p.uid && deleted == old(deleted) - {p.Key()}
                           && pods == old(pods)[p.Key() := pods[p.Key()]])
                && (ok && !Shown(p, listing) ==> Awaited(p, pods[p.Key()], now))
                && (ok && Shown(p, listing) && p.status.phase != Unset ==> pods[p.Key()] == p)
                && (!ok ==> pods == old(pods) && deleted == old(deleted) && announced == old(announced))
    {
      if p.Key() in pods && pods[p.Key()].uid == p.uid {
        return true;
      }
      if deleting {
        return true;
      }
      var created;
      ok, created := CreatePod(p, credential, listing, built, now);
    }

    /** Records the end of a pod whose capsule was removed, and says so. */
    method DeletePod(p: Pod, credential: bool, removed: bool, now: int) returns (ok: bool)
      requires Valid()
      modifies this
      ensures Valid()
      ensures ok <==> credential && removed
      ensures !ok ==> pods == old(pods) && deleted == old(deleted) && announced == old(announced)
      ensures ok ==> p.Key() in pods && pods == old(pods)[p.Key() := pods[p.Key()]]
                     && deleted == old(deleted)[p.Key() := pods[p.Key()].uid]
                     && announced == old(announced) + [pods[p.Key()]]
      ensures ok ==> Removed(if p.Key() in old(pods) then old(pods)[p.Key()] else p, pods[p.Key()], now)
    {
      if !credential {
        return false;
      }
      if !removed {
        return false;
      }
      var tracked := if p.Key() in pods then pods[p.Key()] else p;
      var over := tracked.(status := tracked.status.(phase := Succeeded, reason := "Completed",
                                                      conditions := ErrorConditions,
                                                      containers := EndedAll(tracked, now)));
      pods := pods[p.Key() := over];
      deleted := deleted[p.Key() := over.uid];
      announced := announced + [over];
      return true;
    }

    /** Answers with every pod recorded but the ones deleted. */
    method GetPod(key: string) returns (r: Option<Pod>)
      requires Valid()
      ensures r == if key in pods && key !in deleted then Some(pods[key]) else None
    {
      if key !in pods {
        return None;
      }
      if key in deleted && deleted[key] == pods[key].uid {
        return None;
      }
      r := Some(pods[key]);
    }

    /** Applies one verdict. */
    method Settle(key: string, v: Verdict, now: int)
      requires Valid() && key in pods && (Terminal(pods[key]) ==> v.Finished? || v.Forgotten? || v.Unjudged?)
      requires v.Forgotten? ==> Terminal(pods[key])
      modifies this
      ensures Valid()
      ensures v.Forgotten? ==> pods == old(pods) - {key} && deleted == old(deleted) - {key}
      ensures !v.Forgotten? ==> pods == old(pods)[key := Updated(old(pods)[key], v, now)] && deleted == old(deleted)
      ensures announced ==
                old(announced) + if key in pods && pods[key] != old(pods)[key] then [pods[key]] else []
    {
      if v.Forgotten? {
        pods, deleted := pods - {key}, deleted - {key};
        return;
      }
      var p := pods[key];
      var q := Applied(p, v, now);
      if PrintOf(q.status) != PrintOf(p.status) {
        pods := pods[key := q];
        announced := announced + [q];
      }
    }

    /** Judges one pod and settles it; a finished one may give its capsule back. */
    method JudgeOne(key: string, managed: map<string, Capsule>, covered: set<string>,
                    tenantOf: string -> Option<string>, now: int)
      returns (released: set<string>)
      requires Valid() && key in pods
      modifies this
      ensures Valid()
      ensures var v := VerdictOn(old(pods)[key], managed, covered, tenantOf, now);
              && (v.Forgotten? ==> pods == old(pods) - {key})
              && (!v.Forgotten? ==> pods == old(pods)[key := Updated(old(pods)[key], v, now)])
              && (forall u :: u in released <==> Releases(old(pods)[key], v, now, u))
              && deleted == if v.Forgotten? then old(deleted) - {key} else old(deleted)
      ensures announced ==
                old(announced) + if key in pods && pods[key] != old(pods)[key] then [pods[key]] else []
    {
      var p := pods[key];
      var v := VerdictOn(p, managed, covered, tenantOf, now);
      JudgedTerminal(p, managed, covered, tenantOf, now);
      released := {};
      if v.Finished? {
        var finished := FinishedAt(p);
        if finished != 0 && now - finished >= TerminalGrace {
          released := {v.capsule.uuid};
        }
      }
      hide VerdictOn;
      Settle(key, v, now);
    }

    /** One cycle over every pod recorded. `walk` is the tenants visited, in
        order; `tenantOf` the tenant of a namespace. Whatever is announced is a
        pod that changed, as it is now, and every such pod is. */
    method SyncOnce(walk: seq<(string, Answer)>, tenantOf: string -> Option<string>, now: int)
      returns (ok: bool, released: set<string>)
      requires Valid()
      modifies this
      ensures Valid()
      ensures ok <==> AllAnswered(walk)
      ensures !ok ==> pods == old(pods) && deleted == old(deleted) && announced == old(announced) && released == {}
      ensures ok ==> JudgedAll(old(pods), pods, {}, walk, tenantOf, now)
      ensures ok ==> forall k :: k in old(pods) ==>
                Cycled(old(pods)[k], if k in pods then Some(pods[k]) else None, walk, tenantOf, now)
      ensures ok ==> pods.Keys <= old(pods).Keys && deleted == map k | k in old(deleted) && k in pods :: old(deleted)[k]
      ensures ok ==> forall u :: u in released <==>
                exists k :: k in old(pods) && GivenBack(old(pods)[k], walk, tenantOf, now, u)
      ensures ok ==> old(announced) <= announced && Announces(old(pods), pods, announced[|old(announced)|..])
    {
      ok, released := SettleAll(walk, tenantOf, now);
      if ok {
        hide Cycled, Judgement, Updated, JudgedAll, AllReleased, Releases, GivenBack;
        JudgedIsCycled(old(pods), pods, walk, tenantOf, now);
        ReleasedIsGiven(old(pods), released, walk, tenantOf, now);
      }
    }

    /** Every pod judged by the same listings, and settled. */
    method SettleAll(walk: seq<(string, Answer)>, tenantOf: string -> Option<string>, now: int)
      returns (ok: bool, released: set<string>)
      requires Valid()
      modifies this
      ensures Valid()
      ensures ok <==> AllAnswered(walk)
      ensures !ok ==> pods == old(pods) && deleted == old(deleted) && announced == old(announced) && released == {}
      ensures ok ==> JudgedAll(old(pods), pods, {}, walk, tenantOf, now)
      ensures ok ==> AllReleased(old(pods), released, {}, walk, tenantOf, now)
      ensures ok ==> deleted == map k | k in old(deleted) && k in pods :: old(deleted)[k]
      ensures ok ==> old(announced) <= announced && Announces(old(pods), pods, announced[|old(announced)|..])
    {
      hide SoFar, JudgedAll, AllReleased, Announces, VerdictOn, Updated, Releases, Judgement, Terminal, Managed,
           Covered;
      released := {};
      var gathered := Gather(walk);
      if gathered.None? {
        return false, {};
      }
      var (managed, covered) := gathered.value;
      ok := true;
      ghost var was, tombs, told := pods, deleted, announced;
      NothingSoFar(was, tombs, walk, tenantOf, now);
      assert announced[|told|..] == [];
      var rest := pods.Keys;
      while rest != {}
        invariant Valid() && rest <= pods.Keys && told <= announced
        invariant SoFar(was, tombs, pods, deleted, announced[|told|..], released, rest, walk, tenantOf, now)
        decreases rest
      {
        var key :| key in rest;
        ghost var before, shown, said := pods, deleted, announced[|told|..];
        StillAsWas(was, tombs, before, shown, said, released, rest, key, walk, tenantOf, now);
        hide AllAnswered;
        var more := JudgeOne(key, managed, covered, tenantOf, now);
        SoFarNext(was, tombs, before, shown, said, released, pods, deleted, announced[|told|..], more, rest, key, walk,
                  tenantOf, now);
        rest := rest - {key};
        released := released + more;
      }
      SoFarIs(was, tombs, pods, deleted, announced[|told|..], released, rest, walk, tenantOf, now);
    }
  }

  /** The listings of one walk together; nothing when any failed. */
  method Gather(walk: seq<(string, Answer)>) returns (r: Option<(map<string, Capsule>, set<string>)>)
    ensures r.Some? <==> AllAnswered(walk)
    ensures r.Some? ==> r.value == (Managed(walk), Covered(walk))
  {
    var managed: map<string, Capsule> := map[];
    var covered: set<string> := {};
    for i := 0 to |walk|
      invariant AllAnswered(walk[..i])
      invariant managed == Managed(walk[..i]) && covered == Covered(walk[..i])
    {
      assert walk[..i + 1][..i] == walk[..i];
      if walk[i].1.Failing? {
        return None;
      }
      var part := ListManaged(walk[i].1.list);
      covered := covered + {walk[i].0};
      managed := managed + part;
    }
    assert walk[..|walk|] == walk;
    return Some((managed, covered));
  }

  /** Every pod but those still to come has been settled by its verdict, and
      dropped exactly when the verdict is to forget it. */
  ghost predicate JudgedAll(was: map<string, Pod>, now_: map<string, Pod>, rest: set<string>,
                            walk: seq<(string, Answer)>, tenantOf: string -> Option<string>, now: int)
    requires AllAnswered(walk)
  {
    && now_.Keys <= was.Keys
    && (forall k :: k in rest && k in now_ ==> now_[k] == was[k])
    && (forall k :: k in was && k !in rest ==>
          var v := Judgement(was[k], walk, tenantOf, now);
          (k in now_ <==> !v.Forgotten?) && (k in now_ ==> now_[k] == Updated(was[k], v, now)))
  }

  lemma JudgedNext(was: map<string, Pod>, before: map<string, Pod>, after: map<string, Pod>, rest: set<string>,
                   key: string, walk: seq<(string, Answer)>, tenantOf: string -> Option<string>, now: int)
    requires AllAnswered(walk) && JudgedAll(was, before, rest, walk, tenantOf, now) && key in rest && key in before
    requires var v := Judgement(was[key], walk, tenantOf, now);
             after == if v.Forgotten? then before - {key} else before[key := Updated(was[key], v, now)]
    ensures JudgedAll(was, after, rest - {key}, walk, tenantOf, now)
  {
    hide Judgement, Updated;
  }

  /** The capsules given back so far are the finished pods', past the grace
      period. */
  ghost predicate AllReleased(was: map<string, Pod>, released: set<string>, rest: set<string>,
                              walk: seq<(string, Answer)>, tenantOf: string -> Option<string>, now: int)
    requires AllAnswered(walk)
  {
    forall u :: u in released <==>
      exists k :: k in was && k !in rest && Releases(was[k], Judgement(was[k], walk, tenantOf, now), now, u)
  }

  lemma ReleasedNext(was: map<string, Pod>, released: set<string>, more: set<string>, rest: set<string>, key: string,
                     walk: seq<(string, Answer)>, tenantOf: string -> Option<string>, now: int)
    requires AllAnswered(walk) && AllReleased(was, released, rest, walk, tenantOf, now) && key in rest && key in was
    requires forall u :: u in more <==> Releases(was[key], Judgement(was[key], walk, tenantOf, now), now, u)
    ensures AllReleased(was, released + more, rest - {key}, walk, tenantOf, now)
  {
    hide Judgement, Releases;
    forall u ensures u in released + more <==>
                     exists k :: k in was && k !in rest - {key}
                                 && Releases(was[k], Judgement(was[k], walk, tenantOf, now), now, u)
    {
      if u in released {
        var k :| k in was && k !in rest && Releases(was[k], Judgement(was[k], walk, tenantOf, now), now, u);
        assert k !in rest - {key};
      }
    }
  }

  /** What was announced is every pod that changed, as it came to be. */
  ghost predicate Announces(was: map<string, Pod>, pods: map<string, Pod>, said: seq<Pod>) {
    && (forall k :: k in was && k in pods && pods[k] != was[k] ==> pods[k] in said)
    && (forall p :: p in said ==> exists k :: k in was && k in pods && pods[k] == p && pods[k] != was[k])
  }

  /** What one cycle has done so far; rest are the pods still to come. */
  ghost predicate SoFar(was: map<string, Pod>, tombs: map<string, string>, pods: map<string, Pod>,
                        deleted: map<string, string>, said: seq<Pod>, released: set<string>, rest: set<string>,
                        walk: seq<(string, Answer)>, tenantOf: string -> Option<string>, now: int)
    requires AllAnswered(walk)
  {
    && JudgedAll(was, pods, rest, walk, tenantOf, now) && AllReleased(was, released, rest, walk, tenantOf, now)
    && Announces(was, pods, said) && deleted == map k | k in tombs && k in pods :: tombs[k]
  }

  lemma SoFarIs(was: map<string, Pod>, tombs: map<string, string>, pods: map<string, Pod>,
                deleted: map<string, string>, said: seq<Pod>, released: set<string>, rest: set<string>,
                walk: seq<(string, Answer)>, tenantOf: string -> Option<string>, now: int)
    requires AllAnswered(walk) && SoFar(was, tombs, pods, deleted, said, released, rest, walk, tenantOf, now)
    ensures JudgedAll(was, pods, rest, walk, tenantOf, now) && AllReleased(was, released, rest, walk, tenantOf, now)
    ensures Announces(was, pods, said) && deleted == map k | k in tombs && k in pods :: tombs[k]
  {
    hide JudgedAll, AllReleased, Announces;
  }

  lemma NothingSoFar(was: map<string, Pod>, tombs: map<string, string>, walk: seq<(string, Answer)>,
                     tenantOf: string -> Option<string>, now: int)
    requires AllAnswered(walk) && tombs.Keys <= was.Keys
    ensures SoFar(was, tombs, was, tombs, [], {}, was.Keys, walk, tenantOf, now)
  {
    assert tombs == map k | k in tombs && k in was :: tombs[k] by {
      forall k | k in tombs ensures k in was { assert k in tombs.Keys; }
    }
  }

  lemma SoFarNext(was: map<string, Pod>, tombs: map<string, string>, before: map<string, Pod>,
                  shown: map<string, string>, said: seq<Pod>, released: set<string>, after: map<string, Pod>,
                  deleted: map<string, string>, saying: seq<Pod>, more: set<string>, rest: set<string>, key: string,
                  walk: seq<(string, Answer)>, tenantOf: string -> Option<string>, now: int)
    requires AllAnswered(walk) && SoFar(was, tombs, before, shown, said, released, rest, walk, tenantOf, now)
    requires key in rest && key in was && key in before && before[key] == was[key]
    requires var v := Judgement(was[key], walk, tenantOf, now);
             && after == (if v.Forgotten? then before - {key} else before[key := Updated(was[key], v, now)])
             && deleted == (if v.Forgotten? then shown - {key} else shown)
             && forall u :: u in more <==> Releases(was[key], v, now, u)
    requires saying == said + if key in after && after[key] != before[key] then [after[key]] else []
    ensures SoFar(was, tombs, after, deleted, saying, released + more, rest - {key}, walk, tenantOf, now)
  {
    hide JudgedAll, AllReleased, Announces, Judgement, Updated, Releases, AllAnswered;
    JudgedNext(was, before, after, rest, key, walk, tenantOf, now);
    ReleasedNext(was, released, more, rest, key, walk, tenantOf, now);
    AnnouncedNext(was, before, after, key, said, saying);
    TombstonesNext(tombs, shown, deleted, before, after, key);
  }

  lemma StillAsWas(was: map<string, Pod>, tombs: map<string, string>, before: map<string, Pod>,
                   shown: map<string, string>, said: seq<Pod>, released: set<string>, rest: set<string>, key: string,
                   walk: seq<(string, Answer)>, tenantOf: string -> Option<string>, now: int)
    requires AllAnswered(walk) && SoFar(was, tombs, before, shown, said, released, rest, walk, tenantOf, now)
    requires key in rest && key in before
    ensures key in was && before[key] == was[key]
    ensures Judgement(was[key], walk, tenantOf, now) ==
              VerdictOn(was[key], Managed(walk), Covered(walk), tenantOf, now)
  {
    hide VerdictOn, Updated, AllReleased, Announces;
  }

  lemma TombstonesNext(all: map<string, string>, before: map<string, string>, after: map<string, string>,
                       was: map<string, Pod>, pods: map<string, Pod>, key: string)
    requires before == map k | k in all && k in was :: all[k]
    requires (pods.Keys == was.Keys && after == before) || (pods.Keys == was.Keys - {key} && after == before - {key})
    ensures after == map k | k in all && k in pods :: all[k]
  {
    forall k ensures k in pods <==> k in pods.Keys { }
  }

  lemma AnnouncedNext(was: map<string, Pod>, before: map<string, Pod>, after: map<string, Pod>, key: string,
                      said: seq<Pod>, saying: seq<Pod>)
    requires Announces(was, before, said) && key in was && key in before && before[key] == was[key]
    requires after.Keys <= before.Keys && forall k :: k in before && k != key ==> k in after && after[k] == before[k]
    requires saying == said + if key in after && after[key] != before[key] then [after[key]] else []
    ensures Announces(was, after, saying)
  {
    forall p | p in saying ensures exists k :: k in was && k in after && after[k] == p && after[k] != was[k] {
      if p in said {
        var k :| k in was && k in before && before[k] == p && before[k] != was[k];
        assert k in after && after[k] == p;
      } else {
        assert key in after && after[key] == p;
      }
    }
  }

  predicate Releases(p: Pod, v: Verdict, now: int, uuid: string) {
    v.Finished? && v.capsule.uuid == uuid && Reclaimable(p, now)
  }

  function FromSpecs(specs: seq<string>, state: ContainerState): seq<Container> {
    seq(|specs|, i requires 0 <= i < |specs| => Container(specs[i], state, false, 0))
  }

  /** Every container of a deleted pod, ended; one never reported comes from the
      spec. */
  function EndedAll(p: Pod, now: int): seq<Container> {
    var cs := if p.status.containers == [] then FromSpecs(p.specs, NoState) else p.status.containers;
    seq(|cs|, i requires 0 <= i < |cs| => cs[i].(ready := false, state := Ended(0, "Deleted", 0, now)))
  }

  /** The listing shows a capsule of this very pod as the one for its name. */
  predicate Shown(p: Pod, listing: Option<seq<Capsule>>) {
    listing.Some? && p.Key() in Fold(listing.value) && Fold(listing.value)[p.Key()].podUID == p.uid
  }

  /** Shown, of the listing itself: some capsule of ours is listed for the pod's
      name, and the newest such, the first among equals, carries its uid. */
  lemma ShownExactly(p: Pod, list: seq<Capsule>)
    ensures Shown(p, Some(list)) <==>
            exists i :: 0 <= i < |list| && Named(list[i], p) && list[i].podUID == p.uid
                        && forall j :: 0 <= j < |list| && Named(list[j], p) ==>
                             list[j].createdAt < list[i].createdAt || (list[j].createdAt == list[i].createdAt && i <= j)
  {
    var mine := Filter(list, OfPod(p.Key()));
    FoldIs(list, p.Key());
    forall c ensures KeyOf(c) == Some(p.Key()) <==> Named(c, p) { }
    if mine != [] {
      var i := NewestAt(list, OfPod(p.Key()));
      hide Filter, Newest, Fold, KeyOf;
      forall k | 0 <= k < |list| && Named(list[k], p)
                 && forall j :: 0 <= j < |list| && Named(list[j], p) ==>
                      list[j].createdAt < list[k].createdAt || (list[j].createdAt == list[k].createdAt && k <= j)
        ensures k == i
      {
      }
    } else {
      forall i | 0 <= i < |list| ensures !Named(list[i], p) { assert list[i] in list && list[i] !in mine; }
    }
  }

  /** A capsule of ours that says it is of a pod of this name: the key of one that
      leaves either half out is no pod's. */
  predicate Named(c: Capsule, p: Pod) {
    c.managed && c.namespace != "" && c.name != "" && c.namespace + "/" + c.name == p.namespace + "/" + p.name
  }

  /** The tenant must have answered for its namespace to be judged at all. */
  function VerdictOn(p: Pod, managed: map<string, Capsule>, covered: set<string>,
                     tenantOf: string -> Option<string>, now: int): Verdict {
    var t := tenantOf(p.namespace);
    Judge(p, t.Some? && t.value in covered, if p.Key() in managed then Some(managed[p.Key()]) else None, now)
  }

  lemma JudgedTerminal(p: Pod, managed: map<string, Capsule>, covered: set<string>,
                       tenantOf: string -> Option<string>, now: int)
    ensures var v := VerdictOn(p, managed, covered, tenantOf, now);
            (Terminal(p) ==> v.Finished? || v.Forgotten? || v.Unjudged?) && (v.Forgotten? ==> Terminal(p))
  {
  }

  predicate AllAnswered(walk: seq<(string, Answer)>) {
    forall i :: 0 <= i < |walk| ==> walk[i].1.Listing?
  }

  function Managed(walk: seq<(string, Answer)>): map<string, Capsule>
    requires AllAnswered(walk)
  {
    if walk == [] then map[] else Managed(walk[..|walk| - 1]) + Fold(walk[|walk| - 1].1.list)
  }

  function Covered(walk: seq<(string, Answer)>): set<string> {
    if walk == [] then {} else Covered(walk[..|walk| - 1]) + {walk[|walk| - 1].0}
  }

  /** The verdict of a whole cycle on one pod. */
  function Judgement(p: Pod, walk: seq<(string, Answer)>, tenantOf: string -> Option<string>, now: int): Verdict
    requires AllAnswered(walk)
  {
    VerdictOn(p, Managed(walk), Covered(walk), tenantOf, now)
  }

  // ----- what is recorded -----

  /** A pod whose capsule has just been made: pending, and its containers waiting. */
  predicate Awaited(p: Pod, q: Pod, now: int) {
    && q == p.(started := Some(now), status := q.status) && q.status.ip == p.status.ip
    && q.status.phase == Pending && q.status.reason == "Creating"
    && q.status.conditions == [("Ready", false), ("Initialized", false), ("PodScheduled", true)]
    && |q.status.containers| == |p.specs|
    && forall i :: 0 <= i < |p.specs| ==>
         q.status.containers[i] == Container(p.specs[i], Waiting("ContainerCreating"), false, 0)
  }

  /** A pod whose capsule was removed: completed, and every container deleted. */
  predicate Removed(p: Pod, q: Pod, now: int) {
    && q == p.(status := q.status) && q.status.ip == p.status.ip
    && q.status.phase == Succeeded && q.status.reason == "Completed"
    && q.status.conditions == [("Ready", false), ("Initialized", false), ("PodScheduled", true)]
    && |q.status.containers| == (if p.status.containers == [] then |p.specs| else |p.status.containers|)
    && forall i :: 0 <= i < |q.status.containers| ==>
         && q.status.containers[i].state == Ended(0, "Deleted", 0, now) && !q.status.containers[i].ready
         && q.status.containers[i].name ==
              (if p.status.containers == [] then p.specs[i] else p.status.containers[i].name)
         && q.status.containers[i].restarts ==
              (if p.status.containers == [] then 0 else p.status.containers[i].restarts)
  }

  // ----- what a cycle can and cannot do -----

  /** The capsules one listing of the walk has for a pod. */
  function ListedAt(walk: seq<(string, Answer)>, i: nat, key: string): seq<Capsule>
    requires AllAnswered(walk) && i < |walk|
  {
    Filter(walk[i].1.list, OfPod(key))
  }

  /** The listing they are read from: the last that has any. */
  function LastListing(walk: seq<(string, Answer)>, key: string): (r: Option<nat>)
    requires AllAnswered(walk)
    ensures r.Some? ==> r.value < |walk| && ListedAt(walk, r.value, key) != []
    ensures forall j :: (if r.Some? then r.value < j else 0 <= j) && j < |walk| ==> ListedAt(walk, j, key) == []
  {
    if walk == [] then None
    else if ListedAt(walk, |walk| - 1, key) != [] then Some(|walk| - 1)
    else
      assert forall j :: 0 <= j < |walk| - 1 ==> ListedAt(walk, j, key) == ListedAt(walk[..|walk| - 1], j, key);
      LastListing(walk[..|walk| - 1], key)
  }

  /** The capsule of this name the cycle goes by, from the listings as they came. */
  function ReadFrom(walk: seq<(string, Answer)>, key: string): Option<Capsule>
    requires AllAnswered(walk)
  {
    match LastListing(walk, key) case None => None case Some(i) => Some(Newest(ListedAt(walk, i, key)))
  }

  lemma {:induction false} ManagedIs(walk: seq<(string, Answer)>, key: string)
    requires AllAnswered(walk)
    ensures ReadFrom(walk, key) == if key in Managed(walk) then Some(Managed(walk)[key]) else None
  {
    if walk != [] {
      var init := walk[..|walk| - 1];
      ManagedIs(init, key);
      FoldIs(walk[|walk| - 1].1.list, key);
      hide Filter, Newest, Fold;
      assert ListedAt(walk, |walk| - 1, key) == [] ==> ReadFrom(walk, key) == ReadFrom(init, key);
    }
  }

  // ----- a whole cycle on one pod, from the listings as they came -----

  /** A pod failed with a reason: a container that had ended keeps its end, every
      other has ended with it now. */
  predicate FailedFor(p: Pod, q: Pod, reason: string, now: int) {
    && q == p.(status := q.status) && q.status.ip == p.status.ip
    && q.status.phase == Failure && q.status.reason == reason
    && q.status.conditions == [("Ready", false), ("Initialized", false), ("PodScheduled", true)]
    && |q.status.containers| == |p.status.containers|
    && forall i :: 0 <= i < |p.status.containers| ==>
         var c := p.status.containers[i];
         q.status.containers[i] ==
           if c.state.Ended? then c else Container(c.name, Ended(1, reason, 0, now), false, c.restarts)
  }

  /** When a container ended is not told. */
  predicate ContainerReadsSame(x: Container, y: Container) {
    && x.name == y.name && x.ready == y.ready && x.restarts == y.restarts
    && (x.state == y.state
        || (x.state.Ended? && y.state.Ended? && x.state.exitCode == y.state.exitCode
            && x.state.reason == y.state.reason && x.state.begun == y.state.begun))
  }

  /** No difference a reader is told of: all of it but when a container ended. */
  predicate ReadsSame(a: Status, b: Status) {
    && a.phase == b.phase && a.reason == b.reason && a.ip == b.ip && a.conditions == b.conditions
    && |a.containers| == |b.containers|
    && forall i :: 0 <= i < |a.containers| ==> ContainerReadsSame(a.containers[i], b.containers[i])
  }

  /** A pod that takes over what its capsule shows - but for an address not known
      yet - when a reader could tell. */
  predicate TakesOver(p: Pod, q: Pod, shows: Status) {
    var s := Status(shows.phase, shows.reason, if shows.ip == "" then p.status.ip else shows.ip, shows.containers,
                    shows.conditions);
    q == if ReadsSame(s, p.status) then p else p.(status := s)
  }

  /** The tenant of the pod's namespace is among those that answered. */
  ghost predicate TenantAnswered(p: Pod, walk: seq<(string, Answer)>, tenantOf: string -> Option<string>) {
    tenantOf(p.namespace).Some? && exists i :: 0 <= i < |walk| && walk[i].0 == tenantOf(p.namespace).value
  }

  /** The capsule the pod is judged by: the newest listed, unless it is another
      pod's. */
  function JudgedBy(p: Pod, walk: seq<(string, Answer)>): Option<Capsule>
    requires AllAnswered(walk)
  {
    var c := ReadFrom(walk, p.Key());
    if c.Some? && c.value.podUID in {"", p.uid} then c else None
  }

  /** Everything a cycle does with one pod. left is what is recorded of it after. */
  ghost predicate Cycled(p: Pod, left: Option<Pod>, walk: seq<(string, Answer)>, tenantOf: string -> Option<string>,
                         now: int)
    requires AllAnswered(walk)
  {
    var c, over := JudgedBy(p, walk), p.status.phase == Succeeded || p.status.phase == Failure;
    var awaited := p.started.Some? && now - p.started.value < 30;
    && (!TenantAnswered(p, walk, tenantOf) ==> left == Some(p))
    && (TenantAnswered(p, walk, tenantOf) ==>
          && (over ==> left == if c.Some? then Some(p) else None)
          && (!over && c.None? && !awaited && (p.status.phase == Pending || p.status.phase == Running) ==>
                left.Some? && FailedFor(p, left.value, "ContainerStatusUnknown", now))
          && (!over && c.None? && (awaited || p.status.phase == Unset) ==> left == Some(p))
          && (!over && c.Some? ==>
                && left.Some?
                && (if c.value.state == "Creating" && c.value.createdAt != 0 && now - c.value.createdAt > 600
                    then FailedFor(p, left.value, "FailedCreatePodSandBox", now)
                    else TakesOver(p, left.value, c.value.shows))))
  }

  /** A finished pod's capsule is given back once an hour has passed since. */
  ghost predicate GivenBack(p: Pod, walk: seq<(string, Answer)>, tenantOf: string -> Option<string>, now: int,
                            uuid: string)
    requires AllAnswered(walk)
  {
    && TenantAnswered(p, walk, tenantOf) && (p.status.phase == Succeeded || p.status.phase == Failure)
    && JudgedBy(p, walk).Some? && JudgedBy(p, walk).value.uuid == uuid
    && FinishTime(p) != 0 && now - FinishTime(p) >= 3600
  }

  lemma PrintsReadSame(x: Container, y: Container)
    ensures (x.name, KeyOfState(x.state), x.ready, x.restarts) == (y.name, KeyOfState(y.state), y.ready, y.restarts)
       <==> ContainerReadsSame(x, y)
  {
  }

  /** The fingerprint tells exactly what a reader could. */
  lemma PrintReadsSame(a: Status, b: Status)
    ensures PrintOf(a) == PrintOf(b) <==> ReadsSame(a, b)
  {
    var x, y := PrintOf(a).containers, PrintOf(b).containers;
    if |a.containers| == |b.containers| {
      forall i | 0 <= i < |x| ensures x[i] == y[i] <==> ContainerReadsSame(a.containers[i], b.containers[i]) {
        PrintsReadSame(a.containers[i], b.containers[i]);
      }
      hide KeyOfState, ContainerReadsSame;
      assert x == y <==> forall i :: 0 <= i < |x| ==> ContainerReadsSame(a.containers[i], b.containers[i]);
    }
  }

  lemma UpdatedFailing(p: Pod, v: Verdict, reason: string, now: int)
    requires !Terminal(p)
    requires (v.Lost? && reason == "ContainerStatusUnknown") || (v.Stuck? && reason == "FailedCreatePodSandBox")
    ensures FailedFor(p, Updated(p, v, now), reason, now)
  {
    assert PrintOf(Applied(p, v, now).status).phase != PrintOf(p.status).phase;
  }

  lemma UpdatedReported(p: Pod, c: Capsule, now: int)
    ensures TakesOver(p, Updated(p, Reported(c), now), c.shows)
  {
    PrintReadsSame(ReportedStatus(p.status, c.shows), p.status);
    hide PrintOf, ReadsSame;
  }

  lemma CycledIs(p: Pod, walk: seq<(string, Answer)>, tenantOf: string -> Option<string>, now: int)
    requires AllAnswered(walk)
    ensures var v := Judgement(p, walk, tenantOf, now);
            Cycled(p, if v.Forgotten? then None else Some(Updated(p, v, now)), walk, tenantOf, now)
    ensures forall u :: Releases(p, Judgement(p, walk, tenantOf, now), now, u) <==>
                        GivenBack(p, walk, tenantOf, now, u)
  {
    hide Filter, Newest, Managed, Covered, ReadFrom, FailedFor, TakesOver, Updated, FinishTime;
    var v := Judgement(p, walk, tenantOf, now);
    ManagedIs(walk, p.Key());
    CoveredIs(walk);
    if v.Lost? { UpdatedFailing(p, v, "ContainerStatusUnknown", now); }
    if v.Stuck? { UpdatedFailing(p, v, "FailedCreatePodSandBox", now); }
    if v.Reported? { UpdatedReported(p, v.capsule, now); }
    if !v.Lost? && !v.Stuck? && !v.Reported? { UpdatedNothing(p, v, now); }
  }

  lemma UpdatedNothing(p: Pod, v: Verdict, now: int)
    requires !v.Lost? && !v.Stuck? && !v.Reported?
    ensures Updated(p, v, now) == p
  {
  }

  lemma JudgedIsCycled(was: map<string, Pod>, pods: map<string, Pod>, walk: seq<(string, Answer)>,
                       tenantOf: string -> Option<string>, now: int)
    requires AllAnswered(walk) && JudgedAll(was, pods, {}, walk, tenantOf, now)
    ensures pods.Keys <= was.Keys
    ensures forall k :: k in was ==>
              Cycled(was[k], if k in pods then Some(pods[k]) else None, walk, tenantOf, now)
  {
    hide Cycled, Judgement, Updated;
    forall k | k in was { CycledIs(was[k], walk, tenantOf, now); }
  }

  lemma ReleasedIsGiven(was: map<string, Pod>, released: set<string>, walk: seq<(string, Answer)>,
                        tenantOf: string -> Option<string>, now: int)
    requires AllAnswered(walk) && AllReleased(was, released, {}, walk, tenantOf, now)
    ensures forall u :: u in released <==> exists k :: k in was && GivenBack(was[k], walk, tenantOf, now, u)
  {
    hide Cycled, Judgement, Updated, Releases, GivenBack;
    forall k | k in was { CycledIs(was[k], walk, tenantOf, now); }
  }

  /** A cycle whose listings all came fails a pod for a missing capsule exactly
      when the pod's tenant was among them, the pod was expected to run and is
      past the grace period, and no capsule is listed for its name or the newest
      one listed carries another pod's uid. */
  lemma FailedExactlyWhenGone(p: Pod, walk: seq<(string, Answer)>, tenantOf: string -> Option<string>, now: int)
    requires AllAnswered(walk) && !Terminal(p)
    ensures Judgement(p, walk, tenantOf, now).Lost?
       <==> && tenantOf(p.namespace).Some? && (exists i :: 0 <= i < |walk| && walk[i].0 == tenantOf(p.namespace).value)
            && (p.status.phase.Pending? || p.status.phase.Running?)
            && (p.started.None? || now - p.started.value >= AppearGrace)
            && (ReadFrom(walk, p.Key()).None? || !Claimable(ReadFrom(walk, p.Key()).value, p.uid))
    ensures ReadFrom(walk, p.Key()).None? <==>
              forall i, c :: 0 <= i < |walk| && c in walk[i].1.list ==> KeyOf(c) != Some(p.Key())
    ensures Judgement(p, walk, tenantOf, now).Lost? ==> Terminal(Updated(p, Judgement(p, walk, tenantOf, now), now))
  {
    hide Filter, Newest, Managed, Covered, ReadFrom, Updated;
    ManagedIs(walk, p.Key());
    CoveredIs(walk);
    NoneListed(walk, p.Key());
    LostEnds(p, now);
  }

  lemma LostEnds(p: Pod, now: int)
    requires !Terminal(p)
    ensures Terminal(Updated(p, Lost, now))
  {
    assert PrintOf(Applied(p, Lost, now).status).phase != PrintOf(p.status).phase;
  }

  lemma NoneListed(walk: seq<(string, Answer)>, key: string)
    requires AllAnswered(walk)
    ensures ReadFrom(walk, key).None? <==>
              forall i, c :: 0 <= i < |walk| && c in walk[i].1.list ==> KeyOf(c) != Some(key)
  {
    if ReadFrom(walk, key).None? {
      forall i, c | 0 <= i < |walk| && c in walk[i].1.list ensures KeyOf(c) != Some(key) {
        assert ListedAt(walk, i, key) == [];
        assert c !in Filter(walk[i].1.list, OfPod(key));
      }
    } else {
      var i := LastListing(walk, key).value;
      var c := ListedAt(walk, i, key)[0];
      assert c in walk[i].1.list && KeyOf(c) == Some(key);
    }
  }

  lemma {:induction false} CoveredIs(walk: seq<(string, Answer)>)
    ensures forall t :: t in Covered(walk) <==> exists i :: 0 <= i < |walk| && walk[i].0 == t
  {
    if walk != [] {
      var n := |walk| - 1;
      CoveredIs(walk[..n]);
      forall t ensures t in Covered(walk) <==> exists i :: 0 <= i < |walk| && walk[i].0 == t {
        if t in Covered(walk[..n]) {
          var i :| 0 <= i < n && walk[..n][i].0 == t;
          assert walk[i].0 == t;
        }
        if i :| 0 <= i < |walk| && walk[i].0 == t {
          if i < n { assert walk[..n][i].0 == t; }
        }
      }
    }
  }

  /** So a pod whose own capsule is listed is failed all the same exactly when
      the newest one listed for its name carries another pod's uid. */
  lemma FailedThoughListed(p: Pod, walk: seq<(string, Answer)>, tenantOf: string -> Option<string>, now: int, i: nat,
                           c: Capsule)
    requires AllAnswered(walk) && p.status.phase.Running? && (p.started.None? || now - p.started.value >= AppearGrace)
    requires i < |walk| && tenantOf(p.namespace) == Some(walk[i].0)
    requires c in walk[i].1.list && KeyOf(c) == Some(p.Key()) && c.podUID == p.uid
    ensures Judgement(p, walk, tenantOf, now).Lost?
       <==> ReadFrom(walk, p.Key()).Some? && ReadFrom(walk, p.Key()).value.podUID !in {"", p.uid}
  {
    FailedExactlyWhenGone(p, walk, tenantOf, now);
    hide Judgement, ReadFrom;
  }

  /** While the sweep, looking at every capsule of the node, spares one of the
      pod's own. */
  lemma SweepSparesOwn(p: Pod, capsules: seq<Capsule>, node: string, c: Capsule)
    requires c in capsules && c.podUID == p.uid && c.node == node
    ensures Kept(capsules, node, Found(p.uid)).Some? && Claimable(Kept(capsules, node, Found(p.uid)).value, p.uid)
  {
    var candidates := Filter(Filter(capsules, Mine(node)), ClaimableBy(p.uid));
    assert c in candidates;
    var at := NewestIs(candidates);
    assert candidates[at] in candidates;
  }

  /** A terminal pod is never touched; it can only be dropped. */
  lemma TerminalUntouched(p: Pod, walk: seq<(string, Answer)>, tenantOf: string -> Option<string>, now: int)
    requires Terminal(p) && AllAnswered(walk)
    ensures Updated(p, Judgement(p, walk, tenantOf, now), now) == p
  {
  }

  /** A steady reading is announced once: read again, nothing changes. */
  lemma SecondReadingSilent(p: Pod, c: Capsule, now: int, later: int)
    ensures Updated(Updated(p, Reported(c), now), Reported(c), later) == Updated(p, Reported(c), now)
  {
    var s := p.status;
    assert ReportedStatus(ReportedStatus(s, c.shows), c.shows) == ReportedStatus(s, c.shows);
  }

  datatype Cycle = Cycle(walk: seq<(string, Answer)>, tenantOf: string -> Option<string>, now: int)

  /** A cycle that heard every tenant has dealt with every pod; any other with
      none. */
  ghost predicate CycleDone(was: map<string, Pod>, pods: map<string, Pod>, c: Cycle) {
    if AllAnswered(c.walk) then
      pods.Keys <= was.Keys
      && forall k :: k in was ==>
           Cycled(was[k], if k in pods then Some(pods[k]) else None, c.walk, c.tenantOf, c.now)
    else pods == was
  }

  /** Over any sequence of cycles a finished pod stays finished, as it was. past
      holds what was recorded before and after each. */
  method Cycles(p: Provider, cycles: seq<Cycle>) returns (ghost past: seq<map<string, Pod>>)
    requires p.Valid()
    modifies p
    ensures |past| == |cycles| + 1 && past[0] == old(p.pods) && past[|cycles|] == p.pods
    ensures forall i :: 0 <= i < |cycles| ==> CycleDone(past[i], past[i + 1], cycles[i])
    ensures p.Valid() && p.pods.Keys <= old(p.pods).Keys
    ensures forall k :: k in p.pods && Terminal(old(p.pods)[k]) ==> p.pods[k] == old(p.pods)[k]
  {
    past := [p.pods];
    for i := 0 to |cycles|
      invariant p.Valid() && p.pods.Keys <= old(p.pods).Keys
      invariant |past| == i + 1 && past[0] == old(p.pods) && past[i] == p.pods
      invariant forall j :: 0 <= j < i ==> CycleDone(past[j], past[j + 1], cycles[j])
      invariant forall k :: k in p.pods && Terminal(old(p.pods)[k]) ==> p.pods[k] == old(p.pods)[k]
    {
      ghost var was := p.pods;
      var c := cycles[i];
      hide Cycled;
      var ok, released := p.SyncOnce(c.walk, c.tenantOf, c.now);
      if ok {
        forall k | k in p.pods && Terminal(was[k]) ensures p.pods[k] == was[k] {
          TerminalUntouched(was[k], c.walk, c.tenantOf, c.now);
        }
      }
      assert CycleDone(was, p.pods, c);
      past := past + [p.pods];
    }
  }
}
