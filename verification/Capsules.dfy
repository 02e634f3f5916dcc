/** Which capsule is a pod's: the listing of pkg/zun/capsule.go folded newest
    first, and the orphan sweep of pkg/provider/orphans.go, which must agree. */
module Capsules {
  import opened Wrappers

  datatype Phase = Unset | Pending | Running | Succeeded | Failure

  datatype ContainerState =
    | Waiting(reason: string)
    | Started(at: int)
    | Ended(exitCode: int, reason: string, begun: int, finished: int)
    | NoState

  datatype Container = Container(name: string, state: ContainerState, ready: bool, restarts: int)

  datatype Status = Status(
    phase: Phase,
    reason: string,
    ip: string,
    containers: seq<Container>,
    conditions: seq<(string, bool)>)

  /** What a capsule's labels and record say: createdAt is 0 when unreadable,
      shows is the pod status its state renders to, with no address while none
      is known. */
  datatype Capsule = Capsule(
    uuid: string,
    managed: bool,
    namespace: string,
    name: string,
    podUID: string,
    node: string,
    createdAt: nat,
    state: string,
    shows: Status)

  function KeyOf(c: Capsule): Option<string> {
    if c.managed && c.namespace != "" && c.name != "" then Some(c.namespace + "/" + c.name) else None
  }

  function Filter(s: seq<Capsule>, keep: Capsule -> bool): (r: seq<Capsule>)
    ensures forall x :: x in r <==> x in s && keep(x)
    ensures |r| <= |s|
  {
    if s == [] then []
    else
      assert s == s[..|s| - 1] + [s[|s| - 1]];
      var before := Filter(s[..|s| - 1], keep);
      if keep(s[|s| - 1]) then before + [s[|s| - 1]] else before
  }

  lemma FilterNext(s: seq<Capsule>, i: nat, keep: Capsule -> bool)
    requires i < |s|
    ensures Filter(s[..i + 1], keep) == if keep(s[i]) then Filter(s[..i], keep) + [s[i]] else Filter(s[..i], keep)
  {
    assert s[..i + 1][..i] == s[..i];
  }

  function OfPod(key: string): Capsule -> bool {
    (c: Capsule) => KeyOf(c) == Some(key)
  }

  /** Every capsule of ours, by pod, in listing order. */
  method ListManagedAll(list: seq<Capsule>) returns (out: map<string, seq<Capsule>>)
    ensures forall k :: k in out <==> Filter(list, OfPod(k)) != []
    ensures forall k :: k in out ==> out[k] == Filter(list, OfPod(k))
    ensures forall k, c :: k in out && c in out[k] <==>
              c in list && c.managed && c.namespace != "" && c.name != "" && k == c.namespace + "/" + c.name
  {
    out := map[];
    for i := 0 to |list|
      invariant forall k :: k in out <==> Filter(list[..i], OfPod(k)) != []
      invariant forall k :: k in out ==> out[k] == Filter(list[..i], OfPod(k))
    {
      assert list[..i + 1][..i] == list[..i];
      var key := KeyOf(list[i]);
      if key.None? {
        continue;
      }
      out := out[key.value := (if key.value in out then out[key.value] else []) + [list[i]]];
    }
    assert list[..|list|] == list;
  }

  /** The newest, and the first listed among equals. */
  function Newest(s: seq<Capsule>): Capsule
    requires s != []
  {
    if |s| == 1 then s[0]
    else
      var best, last := Newest(s[..|s| - 1]), s[|s| - 1];
      if last.createdAt > best.createdAt then last else best
  }

  method NewestOf(s: seq<Capsule>) returns (newest: Capsule)
    requires s != []
    ensures newest == Newest(s)
  {
    newest := s[0];
    assert s[..1] == [s[0]];
    for i := 1 to |s|
      invariant newest == Newest(s[..i])
    {
      assert s[..i + 1][..i] == s[..i];
      if s[i].createdAt > newest.createdAt {
        newest := s[i];
      }
    }
    assert s[..|s|] == s;
  }

  function Keys(list: seq<Capsule>): set<string> {
    set c | c in list && KeyOf(c).Some? :: KeyOf(c).value
  }

  /** One capsule per pod: the newest. */
  function Fold(list: seq<Capsule>): map<string, Capsule> {
    map k | k in Keys(list) && Filter(list, OfPod(k)) != [] :: Newest(Filter(list, OfPod(k)))
  }

  lemma FoldIs(list: seq<Capsule>, k: string)
    ensures k in Fold(list) <==> Filter(list, OfPod(k)) != []
    ensures k in Fold(list) ==> Fold(list)[k] == Newest(Filter(list, OfPod(k)))
  {
    if Filter(list, OfPod(k)) != [] {
      var c := Filter(list, OfPod(k))[0];
      assert c in list && KeyOf(c) == Some(k);
    }
  }

  /** One capsule per pod: the one its status is read from. */
  method ListManaged(list: seq<Capsule>) returns (out: map<string, Capsule>)
    ensures forall k :: k in out <==> Filter(list, OfPod(k)) != []
    ensures forall k :: k in out ==> out[k] == Newest(Filter(list, OfPod(k)))
    ensures out == Fold(list)
  {
    hide Filter, Newest, KeyOf, Fold;
    var all := ListManagedAll(list);
    out := map[];
    var rest := all.Keys;
    while rest != {}
      invariant rest <= all.Keys
      invariant out.Keys == all.Keys - rest
      invariant forall k :: k in out ==> out[k] == Newest(all[k])
      decreases rest
    {
      var k :| k in rest;
      rest := rest - {k};
      var newest := NewestOf(all[k]);
      out := out[k := newest];
    }
    FoldUnique(list, out);
  }

  lemma FoldUnique(list: seq<Capsule>, out: map<string, Capsule>)
    requires forall k :: k in out <==> Filter(list, OfPod(k)) != []
    requires forall k :: k in out ==> out[k] == Newest(Filter(list, OfPod(k)))
    ensures out == Fold(list)
  {
    forall k ensures k in out <==> k in Fold(list) { FoldIs(list, k); }
    forall k | k in out ensures out[k] == Fold(list)[k] { FoldIs(list, k); }
  }

  // ----- what the newest is -----

  lemma {:induction false} NewestIs(s: seq<Capsule>) returns (at: nat)
    requires s != []
    ensures at < |s| && s[at] == Newest(s)
    ensures forall i :: 0 <= i < |s| ==> s[i].createdAt <= Newest(s).createdAt
    ensures forall i :: 0 <= i < at ==> s[i].createdAt < Newest(s).createdAt
  {
    if |s| == 1 {
      at := 0;
    } else {
      var init := s[..|s| - 1];
      at := NewestIs(init);
      if s[|s| - 1].createdAt > Newest(init).createdAt {
        at := |s| - 1;
      }
    }
  }

  lemma NewestPush(s: seq<Capsule>, c: Capsule)
    ensures Newest(s + [c]) == if s == [] || c.createdAt > Newest(s).createdAt then c else Newest(s)
  {
    if s != [] { assert (s + [c])[..|s|] == s; }
  }

  /** Leaving others out does not change which is newest. */
  lemma {:induction false} NewestOfFilter(s: seq<Capsule>, keep: Capsule -> bool)
    requires s != [] && keep(Newest(s))
    ensures Filter(s, keep) != [] && Newest(Filter(s, keep)) == Newest(s)
  {
    if |s| > 1 {
      var init, last := s[..|s| - 1], s[|s| - 1];
      if last.createdAt > Newest(init).createdAt {
        NewestIsLast(Filter(init, keep), init, last);
      } else {
        NewestOfFilter(init, keep);
        if keep(last) {
          assert Filter(s, keep) == Filter(init, keep) + [last];
          NewestPush(Filter(init, keep), last);
        }
      }
    } else {
      assert Filter(s[..0], keep) == [];
    }
  }

  lemma NewestIsLast(part: seq<Capsule>, init: seq<Capsule>, last: Capsule)
    requires init != [] && last.createdAt > Newest(init).createdAt && forall c :: c in part ==> c in init
    ensures Newest(part + [last]) == last
  {
    if part != [] {
      var at := NewestIs(part);
      var most := NewestIs(init);
      assert Newest(part) in part;
      assert (part + [last])[..|part|] == part;
    }
  }

  /** Where the newest of those kept stands in the whole listing: before any as
      new, and after none newer. */
  ghost predicate StandsNewest(s: seq<Capsule>, keep: Capsule -> bool, i: nat) {
    && i < |s| && keep(s[i])
    && forall j :: 0 <= j < |s| && keep(s[j]) ==>
         s[j].createdAt < s[i].createdAt || (s[j].createdAt == s[i].createdAt && i <= j)
  }

  lemma {:induction false} NewestAt(s: seq<Capsule>, keep: Capsule -> bool) returns (i: nat)
    requires Filter(s, keep) != []
    ensures StandsNewest(s, keep, i) && s[i] == Newest(Filter(s, keep))
  {
    var n := |s| - 1;
    var init, last := s[..n], s[n];
    assert s[..n + 1] == s;
    FilterNext(s, n, keep);
    if Filter(init, keep) == [] {
      i := n;
      forall j | 0 <= j < n ensures !keep(s[j]) { assert s[j] == init[j] && init[j] in init; }
      NewestOne(last);
    } else {
      i := NewestAt(init, keep);
      hide Filter, Newest;
      NewestPush(Filter(init, keep), last);
      StandsNext(s, keep, i);
      if keep(last) && last.createdAt > s[i].createdAt { i := n; }
    }
  }

  lemma NewestOne(c: Capsule)
    ensures Newest([c]) == c
  {
  }

  lemma StandsNext(s: seq<Capsule>, keep: Capsule -> bool, i: nat)
    requires s != [] && StandsNewest(s[..|s| - 1], keep, i)
    ensures var last := s[|s| - 1];
            StandsNewest(s, keep, if keep(last) && last.createdAt > s[i].createdAt then |s| - 1 else i)
  {
    var init := s[..|s| - 1];
    assert forall j :: 0 <= j < |init| ==> s[j] == init[j];
  }

  // ----- the orphan sweep -----

  const OrphanGrace: nat := 300

  /** What the pod cache says about the pod of this name. */
  datatype Lookup = Found(uid: string) | NotFound | Failed

  predicate Claimable(c: Capsule, uid: string) {
    c.podUID == "" || c.podUID == uid
  }

  predicate Young(c: Capsule, now: int) {
    c.createdAt != 0 && now - c.createdAt < OrphanGrace
  }

  function Mine(node: string): Capsule -> bool {
    (c: Capsule) => c.node == node
  }

  function ClaimableBy(uid: string): Capsule -> bool {
    (c: Capsule) => Claimable(c, uid)
  }

  /** The newest of those that can be the pod's. */
  function Spared(mine: seq<Capsule>, uid: string): Option<Capsule> {
    var candidates := Filter(mine, ClaimableBy(uid));
    if candidates == [] then None else Some(Newest(candidates))
  }

  /** The capsule the sweep spares for a live pod. */
  function Kept(capsules: seq<Capsule>, node: string, lookup: Lookup): Option<Capsule> {
    if !lookup.Found? then None else Spared(Filter(capsules, Mine(node)), lookup.uid)
  }

  function Dispensable(kept: Option<Capsule>, now: int): Capsule -> bool {
    (c: Capsule) => Some(c) != kept && !Young(c, now)
  }

  /** The capsules of one pod that this node may delete. */
  function Orphans(capsules: seq<Capsule>, node: string, serves: bool, lookup: Lookup, now: int): seq<Capsule> {
    if !serves || lookup.Failed? then []
    else Filter(Filter(capsules, Mine(node)), Dispensable(Kept(capsules, node, lookup), now))
  }

  lemma SparedNext(mine: seq<Capsule>, i: nat, uid: string)
    requires i < |mine|
    ensures var before, c := Spared(mine[..i], uid), mine[i];
            Spared(mine[..i + 1], uid) ==
              if !Claimable(c, uid) then before
              else if before.None? || c.createdAt > before.value.createdAt then Some(c) else before
  {
    hide Filter, Newest;
    FilterNext(mine, i, ClaimableBy(uid));
    NewestPush(Filter(mine[..i], ClaimableBy(uid)), mine[i]);
  }

  lemma SparedNone(uid: string)
    ensures Spared([], uid) == None
  {
  }

  method Sparing(mine: seq<Capsule>, uid: string) returns (keep: Option<Capsule>)
    ensures keep == Spared(mine, uid)
  {
    hide Spared;
    keep := None;
    SparedNone(uid);
    for i := 0 to |mine|
      invariant keep == Spared(mine[..i], uid)
    {
      SparedNext(mine, i, uid);
      var c := mine[i];
      if c.podUID != "" && c.podUID != uid {
        continue;
      }
      if keep.None? || c.createdAt > keep.value.createdAt {
        keep := Some(c);
      }
    }
    assert mine[..|mine|] == mine;
  }

  method OrphansAmong(capsules: seq<Capsule>, node: string, serves: bool, lookup: Lookup, now: int)
    returns (orphans: seq<Capsule>)
    ensures orphans == Orphans(capsules, node, serves, lookup, now)
  {
    if !serves {
      return [];
    }
    var mine := Own(capsules, node);
    if |mine| == 0 || lookup.Failed? {
      return [];
    }
    var keep: Option<Capsule> := None;
    if lookup.Found? {
      keep := Sparing(mine, lookup.uid);
    }
    orphans := Rest(mine, keep, now);
  }

  method Own(capsules: seq<Capsule>, node: string) returns (mine: seq<Capsule>)
    ensures mine == Filter(capsules, Mine(node))
  {
    mine := [];
    for i := 0 to |capsules|
      invariant mine == Filter(capsules[..i], Mine(node))
    {
      assert capsules[..i + 1][..i] == capsules[..i];
      if capsules[i].node == node {
        mine := mine + [capsules[i]];
      }
    }
    assert capsules[..|capsules|] == capsules;
  }

  method Rest(mine: seq<Capsule>, keep: Option<Capsule>, now: int) returns (orphans: seq<Capsule>)
    ensures orphans == Filter(mine, Dispensable(keep, now))
  {
    orphans := [];
    for i := 0 to |mine|
      invariant orphans == Filter(mine[..i], Dispensable(keep, now))
    {
      assert mine[..i + 1][..i] == mine[..i];
      var c := mine[i];
      if Some(c) == keep {
        continue;
      }
      if c.createdAt != 0 && now - c.createdAt < OrphanGrace {
        continue;
      }
      orphans := orphans + [c];
    }
    assert mine[..|mine|] == mine;
  }

  // ----- the two folds agree -----

  /** The sweep spares the very capsule the pod's status is read from exactly
      when that capsule is on this node and carries the pod's uid, or none. */
  lemma FoldsAgree(capsules: seq<Capsule>, node: string, uid: string)
    requires capsules != []
    ensures Kept(capsules, node, Found(uid)) == Some(Newest(capsules))
       <==> Newest(capsules).node == node && Claimable(Newest(capsules), uid)
  {
    var mine := Filter(capsules, Mine(node));
    var candidates := Filter(mine, ClaimableBy(uid));
    if Newest(capsules).node == node && Claimable(Newest(capsules), uid) {
      NewestOfFilter(capsules, Mine(node));
      NewestOfFilter(mine, ClaimableBy(uid));
    }
    if candidates != [] {
      var at := NewestIs(candidates);
      assert candidates[at] in candidates;
    }
  }

  /** Of the node's own capsules of a pod, every one but the one spared and the
      young ones goes, and nothing else does. */
  lemma OrphansAre(capsules: seq<Capsule>, node: string, lookup: Lookup, now: int, c: Capsule)
    requires !lookup.Failed?
    ensures c in Orphans(capsules, node, true, lookup, now)
       <==> c in capsules && c.node == node && Some(c) != Kept(capsules, node, lookup) && !Young(c, now)
  {
  }

  /** The capsule a live pod may have: of this node, carrying its uid or none, as
      new as any such and before any as new. */
  ghost predicate ForPod(capsules: seq<Capsule>, node: string, uid: string, i: nat) {
    && i < |capsules| && capsules[i].node == node && capsules[i].podUID in {"", uid}
    && forall j :: 0 <= j < |capsules| && capsules[j].node == node && capsules[j].podUID in {"", uid} ==>
         capsules[j].createdAt < capsules[i].createdAt
         || (capsules[j].createdAt == capsules[i].createdAt && i <= j)
  }

  lemma {:induction false} FilterTwice(s: seq<Capsule>, a: Capsule -> bool, b: Capsule -> bool, both: Capsule -> bool)
    requires forall c :: both(c) <==> a(c) && b(c)
    ensures Filter(Filter(s, a), b) == Filter(s, both)
  {
    if s != [] {
      var n := |s| - 1;
      assert s[..n + 1] == s;
      FilterTwice(s[..n], a, b, both);
      FilterNext(s, n, a);
      FilterNext(s, n, both);
      if a(s[n]) {
        var before := Filter(s[..n], a);
        FilterNext(before + [s[n]], |before|, b);
        assert (before + [s[n]])[..|before|] == before && (before + [s[n]])[..|before| + 1] == before + [s[n]];
      }
    }
  }

  lemma KeptExactly(capsules: seq<Capsule>, node: string, lookup: Lookup, c: Capsule)
    ensures Kept(capsules, node, lookup) == Some(c) <==>
            && lookup.Found?
            && exists i :: 0 <= i < |capsules| && ForPod(capsules, node, lookup.uid, i) && capsules[i] == c
  {
    if lookup.Found? {
      var both := (c: Capsule) => c.node == node && c.podUID in {"", lookup.uid};
      FilterTwice(capsules, Mine(node), ClaimableBy(lookup.uid), both);
      hide Filter, Newest;
      if Filter(capsules, both) != [] {
        var i := NewestAt(capsules, both);
        assert ForPod(capsules, node, lookup.uid, i);
        forall k | 0 <= k < |capsules| && ForPod(capsules, node, lookup.uid, k) ensures k == i { }
      } else {
        forall k | 0 <= k < |capsules| ensures !ForPod(capsules, node, lookup.uid, k) {
          assert capsules[k] in capsules && capsules[k] !in Filter(capsules, both);
        }
      }
    }
  }

  /** What the sweep of a node takes, whatever it serves and is answered, from the
      listing itself. */
  lemma OrphansExactly(capsules: seq<Capsule>, node: string, serves: bool, lookup: Lookup, now: int, c: Capsule)
    ensures c in Orphans(capsules, node, serves, lookup, now) <==>
            && serves && !lookup.Failed? && c in capsules && c.node == node
            && (c.createdAt == 0 || now - c.createdAt >= 300)
            && !(lookup.Found? && exists i :: 0 <= i < |capsules| && ForPod(capsules, node, lookup.uid, i)
                                              && capsules[i] == c)
  {
    KeptExactly(capsules, node, lookup, c);
    if serves && !lookup.Failed? { OrphansAre(capsules, node, lookup, now, c); }
    hide Kept, ForPod;
  }

  /** Two nodes never choose the same capsule. */
  lemma NodesDisjoint(capsules: seq<Capsule>, a: string, b: string, lookupA: Lookup, lookupB: Lookup,
                      nowA: int, nowB: int, c: Capsule)
    requires a != b && c in Orphans(capsules, a, true, lookupA, nowA)
    ensures c !in Orphans(capsules, b, true, lookupB, nowB)
  {
    if !lookupA.Failed? && !lookupB.Failed? {
      OrphansAre(capsules, a, lookupA, nowA, c);
      OrphansAre(capsules, b, lookupB, nowB, c);
    }
  }

  // ----- any sequence of sweeps -----

  /** One node's sweep of one pod's capsules; `deleted` are the ones whose
      deletion went through. */
  datatype Sweep = Sweep(node: string, serves: bool, lookup: Lookup, now: int, deleted: set<string>)

  function Left(capsules: seq<Capsule>, s: Sweep): seq<Capsule> {
    Filter(capsules, Survives(capsules, s))
  }

  function Survives(capsules: seq<Capsule>, s: Sweep): Capsule -> bool {
    (c: Capsule) => !(c in Orphans(capsules, s.node, s.serves, s.lookup, s.now) && c.uuid in s.deleted)
  }

  function AfterSweeps(capsules: seq<Capsule>, sweeps: seq<Sweep>): seq<Capsule> {
    if sweeps == [] then capsules
    else Left(AfterSweeps(capsules, sweeps[..|sweeps| - 1]), sweeps[|sweeps| - 1])
  }

  /** The pod lives on `home` with this uid: its own node's cache, once it
      answers, finds it. Other nodes cannot see it at all. */
  predicate Sees(s: Sweep, home: string, uid: string) {
    s.node == home ==> s.lookup == Found(uid) || s.lookup.Failed?
  }

  /** Whatever nodes sweep, however often and with whatever deletions failing:
      the capsule a live pod's status is read from stays, and stays the one it is
      read from. */
  lemma {:induction false} LiveCapsuleStays(capsules: seq<Capsule>, sweeps: seq<Sweep>, home: string, uid: string)
    requires capsules != [] && Newest(capsules).node == home && Claimable(Newest(capsules), uid)
    requires forall s :: s in sweeps ==> Sees(s, home, uid)
    ensures AfterSweeps(capsules, sweeps) != []
    ensures Newest(AfterSweeps(capsules, sweeps)) == Newest(capsules)
  {
    if sweeps != [] {
      LiveCapsuleStays(capsules, sweeps[..|sweeps| - 1], home, uid);
      var before, s := AfterSweeps(capsules, sweeps[..|sweeps| - 1]), sweeps[|sweeps| - 1];
      assert Sees(s, home, uid);
      NotChosen(before, s, home, uid);
      NewestOfFilter(before, Survives(before, s));
    }
  }

  lemma NotChosen(capsules: seq<Capsule>, s: Sweep, home: string, uid: string)
    requires capsules != [] && Newest(capsules).node == home && Claimable(Newest(capsules), uid) && Sees(s, home, uid)
    ensures Newest(capsules) !in Orphans(capsules, s.node, s.serves, s.lookup, s.now)
  {
    if s.serves && !s.lookup.Failed? {
      OrphansAre(capsules, s.node, s.lookup, s.now, Newest(capsules));
      if s.node == home {
        FoldsAgree(capsules, home, uid);
      }
    }
  }
}
