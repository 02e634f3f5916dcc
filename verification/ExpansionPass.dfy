/** A whole expansion pass, and runs of passes: what is recorded is never ahead of
    what is there, and a pass that succeeds is finished. */
module ExpansionPass {
  import opened Wrappers
  import opened Expansion

  /** What is true of every state an expanding pass goes through, from state s.
      The undertaking comes before the storage is touched; the claim's size comes
      after the volume's and, for a block device, after every filesystem; and the
      undertaking is never lowered but to the request, when that is enough. */
  ghost predicate Passing(s: State, t: State, want: int, grows: bool, pods: seq<PodUse>) {
    && Ordered(t) && Grows(s, t)
    && (t.backing != s.backing ==> t.claim.allocation.Some? && t.claim.allocation.value >= want)
    && t.claim.capacity >= s.claim.capacity
    && (t.claim.capacity != s.claim.capacity ==>
          t.claim.capacity == t.pv.capacity
          && exists size: nat :: t.claim.capacity == size * GiB && (grows ==> AllGrown(pods, t.filesystems, size)))
    && (s.claim.allocation.Some? ==>
          t.claim.allocation.Some?
          && (t.claim.allocation.value >= s.claim.allocation.value
              || (t.claim.allocation == t.claim.request && t.claim.allocation.value >= t.claim.capacity)))
  }

  ghost predicate AllPassing(states: seq<State>, k: nat, s: State, want: int, grows: bool, pods: seq<PodUse>) {
    forall i :: k <= i < |states| ==> Passing(s, states[i], want, grows, pods)
  }

  lemma PassingAtFirst(s: State, want: int, grows: bool, pods: seq<PodUse>)
    requires Ordered(s)
    ensures Passing(s, s, want, grows, pods)
  {
  }

  lemma UndertakenIs(c: Claim, size: int, now: ResizeState)
    ensures var u := Undertaken(c, size, now);
            && u.request == c.request && u.capacity == c.capacity
            && u.allocation.Some? && u.allocation.value >= size
            && (c.allocation.Some? ==> u.allocation.value >= c.allocation.value)
  {
  }

  lemma AllocationPasses(s: State, t: State, u: State, want: int, size: int, now: ResizeState, grows: bool,
                         pods: seq<PodUse>)
    requires Passing(s, t, want, grows, pods)
    requires u == t.(claim := u.claim)
    requires var c := Asking(t.claim, u.claim.request); u.claim in {c, Undertaken(c, size, now)}
    requires t.claim.capacity == s.claim.capacity
    requires s.claim.allocation.Some? ==>
               t.claim.allocation.Some? && t.claim.allocation.value >= s.claim.allocation.value
    ensures Passing(s, u, want, grows, pods)
  {
    UndertakenIs(Asking(t.claim, u.claim.request), size, now);
  }

  /** Everything recorded so far is still the claim it started from, but for the
      undertaking. */
  ghost predicate Undertaking(s: State, t: State, want: int) {
    && t.claim.capacity == s.claim.capacity
    && t.claim.allocation.Some? && t.claim.allocation.value >= want
    && (s.claim.allocation.Some? ==> t.claim.allocation.value >= s.claim.allocation.value)
  }

  lemma BackingPasses(s: State, t: State, u: State, want: int, grows: bool, pods: seq<PodUse>)
    requires Passing(s, t, want, grows, pods) && Undertaking(s, t, want) && OnlyBacking(t, u)
    ensures Passing(s, u, want, grows, pods) && Undertaking(s, u, want)
  {
  }

  lemma VolumePasses(s: State, t: State, u: State, want: int, grows: bool, pods: seq<PodUse>)
    requires Passing(s, t, want, grows, pods) && Undertaking(s, t, want) && OnlyVolume(t, u)
    ensures Passing(s, u, want, grows, pods) && Undertaking(s, u, want)
  {
  }

  lemma FilesystemsPass(s: State, t: State, u: State, want: int, grows: bool, pods: seq<PodUse>)
    requires Passing(s, t, want, grows, pods) && Undertaking(s, t, want) && OnlyFilesystems(t, u)
    ensures Passing(s, u, want, grows, pods) && Undertaking(s, u, want)
  {
  }

  lemma SizePasses(s: State, t: State, u: State, want: int, grows: bool, pods: seq<PodUse>, size: nat)
    requires Passing(s, t, want, grows, pods) && Undertaking(s, t, want)
    requires u == t.(claim := u.claim)
    requires var c := Asking(t.claim, u.claim.request); u.claim in {c, Sized(c, size * GiB)}
    requires t.pv.capacity == size * GiB >= want && (grows ==> AllGrown(pods, t.filesystems, size))
    ensures Passing(s, u, want, grows, pods)
  {
    assert t.claim.capacity <= size * GiB;
  }

  /** The smallest whole number of GiB that holds want bytes. */
  function RoundUp(want: int): nat
    requires want > 0
  {
    (want + GiB - 1) / GiB
  }

  lemma RoundUpHolds(want: int, got: nat)
    requires want > 0
    ensures got >= RoundUp(want) <==> got * GiB >= want
  {
  }

  lemma SizedIs(c: Claim, size: nat)
    ensures var d := Sized(c, size);
            d.capacity == size && d.resizing.None? && d.request == c.request && (Satisfied(d) <==> Covered(d))
  {
  }

  /** The second step of a block volume: say so, then grow every filesystem. */
  method GrowNode(st: Storage, want: int, got: nat, agent: bool, pods: seq<PodUse>, ghost s: State)
    returns (ok: bool)
    requires st.Valid() && Passing(s, st.state, want, agent, pods) && Undertaking(s, st.state, want)
    modifies st
    ensures st.Valid() && old(st.trace) <= st.trace
    ensures Passing(s, st.state, want, agent, pods) && Undertaking(s, st.state, want)
    ensures AllPassing(st.trace, |old(st.trace)|, s, want, agent, pods)
    ensures st.state.pv == old(st.state).pv && st.state.backing == old(st.state).backing
    ensures ok && agent ==> AllGrown(pods, st.state.filesystems, got)
    ensures !agent ==> st.state.filesystems == old(st.state).filesystems
    ensures st.asked == old(st.asked) && (old(st.Healthy()) ==> ok && st.Healthy())
  {
    ghost var u := st.state;
    ok := RecordAllocation(st, want, NodeInProgress);
    UndertakenIs(Asking(u.claim, st.state.claim.request), want, NodeInProgress);
    AllocationPasses(s, u, st.state, want, want, NodeInProgress, agent, pods);
    if !ok {
      return;
    }
    hide Passing, Undertaken;
    ghost var v := st.state;
    ghost var k := |st.trace|;
    ok := GrowFilesystems(st, agent, pods, got);
    FilesystemsPass(s, v, st.state, want, agent, pods);
    forall i | k <= i < |st.trace| ensures Passing(s, st.trace[i], want, agent, pods) {
      FilesystemsPass(s, v, st.trace[i], want, agent, pods);
    }
  }

  /** The write half of a pass, once the storage is known to be big enough. */
  method RecordSizes(st: Storage, seenPV: PV, want: int, got: nat, agent: bool, pods: seq<PodUse>, ghost s: State)
    returns (ok: bool)
    requires st.Valid() && Earlier(seenPV, st.state.pv) && want > 0 && got == st.state.backing.size && got * GiB >= want
    requires Passing(s, st.state, want, seenPV.kind.Block? && agent, pods) && Undertaking(s, st.state, want)
    modifies st
    ensures st.Valid() && old(st.trace) <= st.trace
    ensures Passing(s, st.state, want, seenPV.kind.Block? && agent, pods)
    ensures AllPassing(st.trace, |old(st.trace)|, s, want, seenPV.kind.Block? && agent, pods)
    ensures ok ==> st.state.claim.capacity == got * GiB == st.state.pv.capacity && st.state.claim.resizing.None?
                   && st.state.backing.size == got && (Satisfied(st.state.claim) <==> Covered(st.state.claim))
    ensures !agent ==> st.state.filesystems == old(st.state).filesystems
    ensures st.asked == old(st.asked)
    ensures old(st.Healthy()) && seenPV.version == old(st.state).pv.version ==> ok && st.Healthy()
  {
    hide Passing, Undertaking, Undertaken, Sized, Settles, AllGrown;
    ghost var grows := seenPV.kind.Block? && agent;
    ghost var t := st.state;
    ok := RecordVolumeSize(st, seenPV, got * GiB);
    VolumePasses(s, t, st.state, want, grows, pods);
    if !ok {
      return;
    }
    if seenPV.kind.Block? {
      ok := GrowNode(st, want, got, agent, pods, s);
      if !ok {
        return;
      }
    }
    ghost var w := st.state;
    ok := RecordClaimSize(st, got * GiB);
    SizePasses(s, w, st.state, want, grows, pods, got);
    SizedIs(Asking(w.claim, st.state.claim.request), got * GiB);
  }

  /** Undertaken, and found not to be possible. */
  predicate Refused(c: Claim, want: int) {
    c.resizing == Some(ControllerInfeasible) && c.allocation.Some? && c.allocation.value >= want
  }

  /** What a failed attempt does to the undertaking. */
  method RecordFailure(st: Storage, want: int, ghost s: State, ghost grows: bool, ghost pods: seq<PodUse>)
    requires st.Valid() && Passing(s, st.state, want, grows, pods) && Undertaking(s, st.state, want)
    modifies st
    ensures st.Valid() && old(st.trace) <= st.trace
    ensures Passing(s, st.state, want, grows, pods) && AllPassing(st.trace, |old(st.trace)|, s, want, grows, pods)
    ensures st.state == old(st.state).(claim := st.state.claim) && st.asked == old(st.asked)
    ensures old(st.Healthy()) ==> st.Healthy() && Refused(st.state.claim, want)
  {
    ghost var t := st.state;
    UndertakenExactly(Asking(t.claim, t.claim.request), want, ControllerInfeasible);
    var _ := RecordAllocation(st, want, ControllerInfeasible);
    UndertakenExactly(Asking(t.claim, st.state.claim.request), want, ControllerInfeasible);
    AllocationPasses(s, t, st.state, want, want, ControllerInfeasible, grows, pods);
  }

  /** At most one request of the service, for the smallest whole number of GiB
      that holds what is wanted. */
  predicate AsksFor(before: seq<nat>, after: seq<nat>, want: int) {
    after == before || (|after| == |before| + 1 && before <= after && Holds(after[|before|], want))
  }

  predicate Holds(size: nat, want: int) {
    (size - 1) * GiB < want <= size * GiB
  }

  /** The growing half of expandIfAsked. */
  method GrowTo(st: Storage, seenPV: PV, want: int, endpoint: bool, agent: bool, pods: seq<PodUse>, polls: nat)
    returns (ok: bool)
    requires st.Valid() && Earlier(seenPV, st.state.pv) && want > 0
    modifies st
    ensures st.Valid() && old(st.trace) <= st.trace
    ensures Passing(old(st.state), st.state, want, seenPV.kind.Block? && agent, pods)
    ensures AllPassing(st.trace, |old(st.trace)|, old(st.state), want, seenPV.kind.Block? && agent, pods)
    ensures ok ==> Finished(st.state, want)
    ensures !agent ==> st.state.filesystems == old(st.state).filesystems
    ensures ok ==> (Satisfied(st.state.claim) <==> Covered(st.state.claim))
    ensures AsksFor(old(st.asked), st.asked, want)
    // With no call failing and the volume object seen as it is: exactly when the
    // service can be brought to it; and when it cannot, the claim says so.
    ensures old(st.Healthy()) && seenPV.version == old(st.state).pv.version ==>
              && (ok <==> Expandable(old(st.state).backing, old(st.weather), seenPV.kind, endpoint, RoundUp(want),
                                    polls))
              && (!ok ==> Refused(st.state.claim, want))
  {
    hide Expandable, Undertaken;
    ghost var s, grows := st.state, seenPV.kind.Block? && agent;
    PassingAtFirst(s, want, grows, pods);
    ok := RecordAllocation(st, want, ControllerInProgress);
    AllocationPasses(s, s, st.state, want, want, ControllerInProgress, grows, pods);
    if !ok {
      return;
    }
    UndertakenIs(Asking(s.claim, st.state.claim.request), want, ControllerInProgress);
    ghost var t, k := st.state, |st.trace|;
    var got := Expand(st, seenPV.kind, endpoint, RoundUp(want), polls);
    BackingPasses(s, t, st.state, want, grows, pods);
    forall i | k <= i < |st.trace| ensures Passing(s, st.trace[i], want, grows, pods) {
      BackingPasses(s, t, st.trace[i], want, grows, pods);
    }
    if got.None? {
      RecordFailure(st, want, s, grows, pods);
      return false;
    }
    RoundUpHolds(want, got.value);
    ok := RecordSizes(st, seenPV, want, got.value, agent, pods, s);
  }

  /** Every size says the same, and it is enough. */
  predicate Finished(s: State, want: int) {
    s.claim.capacity == s.pv.capacity == s.backing.size * GiB >= want && s.claim.resizing.None?
  }

  /** The claim has all it asks for. */
  predicate Covered(c: Claim) {
    c.request.None? || c.request.value <= c.capacity
  }

  /** A claim nothing more will be written for. */
  predicate Satisfied(c: Claim) {
    c.request.None? || (c.request.value <= c.capacity && !Settles(c, c.request.value))
  }

  /** The size that holds what is asked for can be had. */
  ghost predicate CanGrow(b: Backing, weather: seq<Backing>, kind: Kind, endpoint: bool, want: int, polls: nat) {
    exists size: nat :: Holds(size, want) && Expandable(b, weather, kind, endpoint, size, polls)
  }

  /** expandIfAsked: seen and seenPV come from caches. Where the cached claim
      shows less than it asks for, the storage is grown; otherwise what an
      abandoned expansion left behind is settled. */
  method ExpandIfAsked(st: Storage, seen: Claim, seenPV: Option<PV>, endpoint: bool, agent: bool,
                       pods: seq<PodUse>, polls: nat)
    returns (ok: bool)
    requires st.Valid() && (seenPV.Some? ==> Earlier(seenPV.value, st.state.pv))
    modifies st
    ensures st.Valid() && old(st.trace) <= st.trace
    ensures forall i :: |old(st.trace)| <= i < |st.trace| ==> Ordered(st.trace[i]) && Grows(old(st.state), st.trace[i])
    ensures Grows(old(st.state), st.state) && st.state.claim.capacity >= old(st.state).claim.capacity
    ensures Asks(seen) && seenPV.Some? ==>
              Passing(old(st.state), st.state, seen.request.value, seenPV.value.kind.Block? && agent, pods)
    ensures Asks(seen) && seenPV.Some? ==>
              AllPassing(st.trace, |old(st.trace)|, old(st.state), seen.request.value,
                         seenPV.value.kind.Block? && agent, pods)
    ensures Asks(seen) && seenPV.Some? && seenPV.value.ours && ok ==>
              Finished(st.state, seen.request.value) && (Satisfied(st.state.claim) <==> Covered(st.state.claim))
    // With no call failing: a claim that asks for more than it has, of a volume
    // made here and seen as it is, gets it exactly when the service can be
    // brought to it; and when it cannot, the claim says so.
    ensures old(st.Healthy()) && seen.request.Some? && seen.request.value > seen.capacity
            && seenPV == Some(old(st.state).pv) && seenPV.value.ours && seenPV.value.id != "" ==>
              && (ok <==> CanGrow(old(st.state).backing, old(st.weather), seenPV.value.kind, endpoint,
                                  seen.request.value, polls))
              && (!ok ==> Refused(st.state.claim, seen.request.value))
    ensures seen.request.Some? && seen.request.value > seen.capacity && seenPV.Some? && seenPV.value.ours
            && seenPV.value.id == "" ==>
              !ok && st.state == old(st.state) && st.trace == old(st.trace)
    ensures if seen.request.Some? then AsksFor(old(st.asked), st.asked, seen.request.value)
            else st.asked == old(st.asked)
    ensures !Asks(seen) ==> st.asked == old(st.asked)
    // With nothing to reach capsules by, a success is recorded all the same and
    // no filesystem has grown.
    ensures !agent ==> st.state.filesystems == old(st.state).filesystems
    ensures !Asks(seen) ==> AllSettling(st.trace, |old(st.trace)|, old(st.state), seen)
    ensures !Asks(seen) ==> Settling(old(st.state), st.state, seen)
    ensures Asks(seen) && (seenPV.None? || !seenPV.value.ours) ==>
              ok && st.state == old(st.state) && st.trace == old(st.trace)
    ensures !Asks(seen) && (seen.request.None? || !Settles(seen, seen.request.value)) ==>
              ok && st.state == old(st.state) && st.trace == old(st.trace)
  {
    if seen.request.None? {
      return true;
    }
    var want, have := seen.request.value, seen.capacity;
    if want <= have {
      ok := SettleAllocation(st, seen, want);
      return;
    }
    if seenPV.None? {
      return true;
    }
    if !seenPV.value.ours {
      return true;
    }
    if seenPV.value.id == "" {
      return false;
    }
    RoundUpHolds(want, RoundUp(want));
    SmallestOnly(old(st.state).backing, old(st.weather), seenPV.value.kind, endpoint, want, polls);
    ok := GrowTo(st, seenPV.value, want, endpoint, agent, pods, polls);
  }

  lemma SmallestOnly(b: Backing, weather: seq<Backing>, kind: Kind, endpoint: bool, want: int, polls: nat)
    requires want > 0
    ensures Holds(RoundUp(want), want)
    ensures CanGrow(b, weather, kind, endpoint, want, polls) <==>
            Expandable(b, weather, kind, endpoint, RoundUp(want), polls)
  {
    hide Expandable;
    forall size: nat | Holds(size, want) ensures size == RoundUp(want) { }
  }

  predicate Asks(c: Claim) {
    c.request.Some? && c.request.value > c.capacity
  }

  /** What settling may have done: the undertaking brought to the request as
      cached, which undercuts the claim exactly when the claim has outgrown it. */
  ghost predicate Settling(s: State, t: State, seen: Claim) {
    var c := Asking(s.claim, t.claim.request);
    && Ordered(t) && t == s.(claim := t.claim) && t.claim in {c, c.(allocation := seen.request)}
    && (t.claim.allocation != s.claim.allocation ==>
          && seen.request.Some? && Settles(seen, seen.request.value)
          && (Undercut(t.claim) <==> !(s.claim.capacity <= seen.request.value)))
  }

  ghost predicate AllSettling(states: seq<State>, k: nat, s: State, seen: Claim) {
    forall i :: k <= i < |states| ==> Settling(s, states[i], seen)
  }

  /** A pass that grew the storage is finished: once the cache shows what it
      left, and the tenant asks for no more than that, a further pass makes no
      call at all - whatever was read and whatever would fail. */
  method ExpandTwice(st: Storage, seen: Claim, seenPV: PV, endpoint: bool, agent: bool, pods: seq<PodUse>, polls: nat,
                     endpoint': bool, agent': bool, pods': seq<PodUse>, polls': nat)
    returns (first: bool, second: bool, ghost left: State, ghost between: seq<State>)
    requires st.Valid() && Earlier(seenPV, st.state.pv) && Asks(seen) && seenPV.ours
    modifies st
    ensures st.Valid() && old(st.trace) <= between <= st.trace
    ensures first ==> Finished(left, seen.request.value)
    ensures first && Covered(left.claim) ==> second && st.state == left && st.trace == between
  {
    first := ExpandIfAsked(st, seen, Some(seenPV), endpoint, agent, pods, polls);
    left, between := st.state, st.trace;
    second := ExpandIfAsked(st, st.state.claim, Some(st.state.pv), endpoint', agent', pods', polls');
  }

  // ----- runs -----

  /** The tenant edits the request, or a pass runs on whatever the caches held;
      edits may land between the calls of a pass as well. */
  datatype Event =
    | Ask(request: Option<int>)
    | Pass(seen: Claim, seenPV: Option<PV>, endpoint: bool, agent: bool, pods: seq<PodUse>, polls: nat)

  /** What one event may have done by the time the state is t. */
  ghost predicate Does(ev: Event, s: State, t: State) {
    match ev
    case Ask(request) => t == s.(claim := Asking(s.claim, request))
    case Pass(seen, seenPV, _, agent, pods, _) =>
      if !Asks(seen) then Settling(s, t, seen)
      else if seenPV.None? || !Earlier(seenPV.value, s.pv) then t == s
      else Passing(s, t, seen.request.value, seenPV.value.kind.Block? && agent, pods)
  }

  lemma DoesInOrder(ev: Event, s: State, t: State)
    requires Ordered(s) && Does(ev, s, t)
    ensures Ordered(t) && t.claim.capacity >= s.claim.capacity
    ensures t.pv.capacity >= s.pv.capacity && t.backing.size >= s.backing.size
  {
  }

  ghost predicate AllDo(ev: Event, s: State, states: seq<State>, from: nat, to: nat)
    requires from <= to <= |states|
  {
    forall i :: from <= i < to ==> Does(ev, s, states[i])
  }

  /** Where each event began, in state and in the trace. */
  datatype Start = Start(state: State, mark: nat)

  /** The events, one after another, account for every state from the first
      start on. */
  ghost predicate Accounts(events: seq<Event>, starts: seq<Start>, states: seq<State>, now: State) {
    && |starts| == |events| + 1 && starts[|events|] == Start(now, |states|)
    && forall k :: 0 <= k < |events| ==> Accounted(events[k], starts[k], starts[k + 1], states)
  }

  ghost predicate Accounted(ev: Event, start: Start, end: Start, states: seq<State>) {
    && start.mark <= end.mark <= |states| && Does(ev, start.state, end.state)
    && AllDo(ev, start.state, states, start.mark, end.mark)
  }

  lemma AccountsNext(events: seq<Event>, ev: Event, starts: seq<Start>, states: seq<State>, states': seq<State>,
                     now: State, now': State)
    requires Accounts(events, starts, states, now) && states <= states' && Does(ev, now, now')
    requires AllDo(ev, now, states', |states|, |states'|)
    ensures Accounts(events + [ev], starts + [Start(now', |states'|)], states', now')
  {
    hide Does;
    var all, more := events + [ev], starts + [Start(now', |states'|)];
    forall k | 0 <= k < |all| ensures Accounted(all[k], more[k], more[k + 1], states') {
      if k < |events| {
        assert all[k] == events[k] && more[k] == starts[k] && more[k + 1] == starts[k + 1];
        assert Accounted(events[k], starts[k], starts[k + 1], states);
      }
    }
  }

  /** One event. */
  method Step(st: Storage, ev: Event)
    requires st.Valid()
    modifies st
    ensures st.Valid() && old(st.trace) <= st.trace
    ensures Does(ev, old(st.state), st.state) && AllDo(ev, old(st.state), st.trace, |old(st.trace)|, |st.trace|)
    // And a pass that can do what it is there for does it.
    ensures ev.Pass? && old(st.Healthy()) && Asks(ev.seen) && ev.seenPV == Some(old(st.state).pv)
            && ev.seenPV.value.ours && ev.seenPV.value.id != ""
            && CanGrow(old(st.state).backing, old(st.weather), ev.seenPV.value.kind, ev.endpoint, ev.seen.request.value,
                       ev.polls) ==>
              Finished(st.state, ev.seen.request.value)
  {
    match ev {
      case Ask(request) =>
        st.state := st.state.(claim := Asking(st.state.claim, request));
        st.trace := st.trace + [st.state];
      case Pass(seen, seenPV, endpoint, agent, pods, polls) =>
        if seenPV.None? || Earlier(seenPV.value, st.state.pv) {
          var _ := ExpandIfAsked(st, seen, seenPV, endpoint, agent, pods, polls);
        } else if !Asks(seen) {
          var _ := ExpandIfAsked(st, seen, None, endpoint, agent, pods, polls);
        }
    }
  }

  /** Over any run of edits and passes, on caches however old, with edits landing
      between calls and any call failing: every state is accounted for by what
      its event may do - the undertaking first, the claim's size last and only
      with every filesystem grown, the undertaking lowered only to the request -
      and in every state the claim's size is at most the volume's and the
      volume's at most what is there; none of the three ever shrinks. */
  method Run(st: Storage, events: seq<Event>) returns (ghost starts: seq<Start>)
    requires st.Valid()
    modifies st
    ensures st.Valid() && old(st.trace) <= st.trace
    ensures Accounts(events, starts, st.trace, st.state) && starts[0] == Start(old(st.state), |old(st.trace)|)
    ensures forall i :: |old(st.trace)| <= i < |st.trace| ==> Ordered(st.trace[i])
    ensures st.state.claim.capacity >= old(st.state).claim.capacity
    ensures st.state.pv.capacity >= old(st.state).pv.capacity && st.state.backing.size >= old(st.state).backing.size
  {
    hide Does, Accounts, Ordered;
    starts := [Start(st.state, |st.trace|)];
    NothingYet(starts, st.trace, st.state);
    for i := 0 to |events|
      invariant st.Valid() && old(st.trace) <= st.trace
      invariant Accounts(events[..i], starts, st.trace, st.state) && |starts| == i + 1
      invariant starts[0] == Start(old(st.state), |old(st.trace)|)
      invariant forall i :: |old(st.trace)| <= i < |st.trace| ==> Ordered(st.trace[i])
      invariant st.state.claim.capacity >= old(st.state).claim.capacity
      invariant st.state.pv.capacity >= old(st.state).pv.capacity && st.state.backing.size >= old(st.state).backing.size
    {
      ghost var s, states := st.state, st.trace;
      Step(st, events[i]);
      AccountsNext(events[..i], events[i], starts, states, st.trace, s, st.state);
      assert events[..i + 1] == events[..i] + [events[i]];
      starts := starts + [Start(st.state, |st.trace|)];
      DoesInOrder(events[i], s, st.state);
      forall j | |old(st.trace)| <= j < |st.trace| ensures Ordered(st.trace[j]) {
        if j >= |states| {
          DoesInOrder(events[i], s, st.trace[j]);
        } else {
          assert st.trace[j] == states[j];
        }
      }
    }
    assert events[..|events|] == events;
  }

  lemma NothingYet(starts: seq<Start>, states: seq<State>, now: State)
    requires starts == [Start(now, |states|)]
    ensures Accounts([], starts, states, now)
  {
  }

  // ----- where the code and what it says differ -----

  /** An attempt that failed is not walked back to "in progress" by the next
      pass for the same target - exactly when the undertaking is that target. A
      larger undertaking left by an earlier, larger request defeats the guard. */
  lemma WalkedBack(c: Claim, want: int)
    requires c.allocation.Some? && c.allocation.value >= want && c.resizing == Some(ControllerInfeasible)
    ensures Undertaken(c, want, ControllerInProgress).resizing == Some(ControllerInProgress)
            <==> c.allocation.value != want
    ensures Undertaken(c, want, ControllerInfeasible) == c
  {
  }

  /** So a claim raised to 30 GiB, refused, and lowered to 20 flips between the
      two on every failing pass. */
  lemma FlipsForEver()
    ensures var c := Claim(Some(20 * GiB), 10 * GiB, Some(30 * GiB), Some(ControllerInfeasible));
            var started := Undertaken(c, 20 * GiB, ControllerInProgress);
            && started.resizing == Some(ControllerInProgress)
            && Undertaken(started, 20 * GiB, ControllerInfeasible) == c
  {
    WalkedBack(Claim(Some(20 * GiB), 10 * GiB, Some(30 * GiB), Some(ControllerInfeasible)), 20 * GiB);
  }

  // ----- settling on a copy that is behind -----

  /** Then what is written can be below what the claim has: an expansion finished
      after the copy was taken. */
  lemma StaleSettleUndercuts()
    ensures var seen := Claim(Some(10 * GiB), 10 * GiB, Some(30 * GiB), None);
            var now := Claim(Some(30 * GiB), 30 * GiB, Some(30 * GiB), None);
            Settles(seen, 10 * GiB) && Undercut(now.(allocation := Some(10 * GiB)))
  {
  }
}
