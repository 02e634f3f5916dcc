/** Growing the storage behind a bound claim: pkg/volume/expand.go and the
    expansion half of pkg/volume/reconciler.go, one call at a time. Any call may
    fail, with or without having taken effect, and what was read from a cache
    may be out of date. */
module Expansion {
  import opened Wrappers
  import opened Faults

  const GiB := 0x4000_0000

  datatype Kind = Block | Shared | Unknown

  datatype ResizeState = ControllerInProgress | ControllerInfeasible | NodeInProgress | OtherState(name: string)

  /** A claim: what is asked for, and its status. A capacity never written is 0. */
  datatype Claim = Claim(request: Option<int>, capacity: nat, allocation: Option<int>, resizing: Option<ResizeState>)

  /** version is what the API server refuses a stale write by. */
  datatype PV = PV(capacity: int, version: nat, ours: bool, kind: Kind, id: string)

  /** The volume or share itself, as its service reports it, in GiB. */
  datatype Backing = Backing(size: nat, status: string)

  datatype PodUse = PodUse(uid: string, uses: bool)

  datatype State = State(claim: Claim, pv: PV, backing: Backing, filesystems: map<string, nat>)

  /** What the claim says is there was recorded on its volume first, and what the
      volume says is there really is. */
  predicate Ordered(s: State) {
    s.claim.capacity <= s.pv.capacity <= s.backing.size * GiB
  }

  /** The same claim, but for what the tenant asks for. */
  function Asking(c: Claim, request: Option<int>): Claim {
    c.(request := request)
  }

  /** Only the tenant did anything. */
  ghost predicate OnlyAsked(s: State, t: State) {
    t == s.(claim := Asking(s.claim, t.claim.request))
  }

  /** What a pass never takes back: sizes only grow. */
  ghost predicate Grows(s: State, t: State) {
    && t.pv.(capacity := s.pv.capacity, version := s.pv.version) == s.pv
    && t.pv.capacity >= s.pv.capacity && t.backing.size >= s.backing.size
    && forall u :: u in s.filesystems ==> u in t.filesystems
  }

  // ----- what the service reports -----

  /** A size that would be a shrink is read as no change. */
  function Clamped(now: Backing, size: nat): Backing {
    if now.size < size then now.(size := size) else now
  }

  /** The n-th reading to come: what the weather brings, and then no change. */
  function Reading(b: Backing, weather: seq<Backing>, n: nat): Backing {
    if n == 0 then b
    else
      var before := Reading(b, weather, n - 1);
      if n <= |weather| then Clamped(weather[n - 1], before.size) else before
  }

  function Rest(weather: seq<Backing>): seq<Backing> {
    if weather == [] then [] else weather[1..]
  }

  lemma {:induction false} ReadingNext(b: Backing, weather: seq<Backing>, n: nat)
    ensures Reading(Reading(b, weather, 1), Rest(weather), n) == Reading(b, weather, n + 1)
  {
    assert Reading(b, weather, 0) == b;
    if n > 0 { ReadingNext(b, weather, n - 1); }
  }

  class Storage {
    var state: State
    var faults: seq<Fault>
    /** What the storage service will report at the polls to come; a size that
        would be a shrink is read as no change. */
    var weather: seq<Backing>
    /** What the tenant asks for next, edit by edit; one may land before any
        call, None leaving things as they are. */
    var edits: seq<Option<Option<int>>>
    /** The sizes the service was asked to extend to, one by one. */
    var asked: seq<nat>
    ghost var trace: seq<State>

    ghost predicate Valid()
      reads this
    {
      Ordered(state)
    }

    /** No call is going to fail. */
    predicate Healthy()
      reads this
    {
      forall f :: f in faults ==> f.NoFault?
    }

    constructor (s: State, faults: seq<Fault>, weather: seq<Backing>, edits: seq<Option<Option<int>>>)
      requires Ordered(s)
      ensures Valid() && state == s && trace == [s]
      ensures this.faults == faults && this.weather == weather && this.edits == edits && asked == []
    {
      state, this.faults, this.weather, this.edits, asked, trace := s, faults, weather, edits, [], [s];
    }

    /** The tenant's turn. */
    method Edit()
      modifies this`state, this`edits
      ensures OnlyAsked(old(state), state)
    {
      if edits != [] {
        if edits[0].Some? {
          state := state.(claim := Asking(state.claim, edits[0].value));
        }
        edits := edits[1..];
      }
      assert state.claim == Asking(old(state).claim, state.claim.request);
    }

    /** Reads the claim as it is now. */
    method Get() returns (ok: bool)
      modifies this`state, this`edits, this`faults
      ensures OnlyAsked(old(state), state)
      ensures old(Healthy()) ==> ok && Healthy()
    {
      Edit();
      var f := NextFault();
      ok := f.NoFault?;
    }

    method NextFault() returns (f: Fault)
      modifies this`faults
      ensures old(Healthy()) ==> f.NoFault? && Healthy()
    {
      f := NoFault;
      if faults != [] {
        f, faults := faults[0], faults[1..];
      }
    }

    /** UpdateStatus on a claim just read; an edit in between is a conflict, which
        fails without effect. */
    method WriteClaim(c: Claim) returns (ok: bool)
      requires c.capacity <= state.pv.capacity <= state.backing.size * GiB
      modifies this
      ensures trace == old(trace) + [state]
      ensures state == old(state) || state == old(state).(claim := c)
      ensures ok ==> state == old(state).(claim := c)
      ensures weather == old(weather) && asked == old(asked)
      ensures old(Healthy()) ==> ok && Healthy()
    {
      var f := NextFault();
      if !f.Before? {
        state := state.(claim := c);
      }
      trace := trace + [state];
      ok := f.NoFault?;
    }

    /** Update on the volume object; refused when the copy is out of date. */
    method WriteVolume(seen: PV, size: int) returns (ok: bool)
      requires state.pv.capacity <= size <= state.backing.size * GiB && Ordered(state)
      modifies this
      ensures trace == old(trace) + [state] && Ordered(state)
      ensures OnlyAsked(old(state), state.(pv := old(state).pv))
      ensures state.pv in {old(state).pv, old(state).pv.(capacity := size, version := old(state).pv.version + 1)}
      ensures ok ==> state.pv.capacity == size
      ensures weather == old(weather) && asked == old(asked)
      ensures old(Healthy()) ==> Healthy() && (ok <==> seen.version == old(state).pv.version)
    {
      Edit();
      var f := NextFault();
      if f.Before? || seen.version != state.pv.version {
        trace := trace + [state];
        return false;
      }
      state := state.(pv := state.pv.(capacity := size, version := state.pv.version + 1));
      trace := trace + [state];
      return f.NoFault?;
    }

    /** One read of the volume or share: time has passed since the last one. */
    method Poll() returns (r: Option<Backing>)
      requires Ordered(state)
      modifies this
      ensures trace == old(trace) + [state] && Ordered(state)
      ensures OnlyBacking(old(state), state)
      ensures r.Some? ==> r.value == state.backing
      ensures state.backing == Reading(old(state).backing, old(weather), 1) && weather == Rest(old(weather))
      ensures asked == old(asked) && (old(Healthy()) ==> r.Some? && Healthy())
    {
      Edit();
      assert Reading(state.backing, weather, 0) == state.backing;
      if weather != [] {
        var now := weather[0];
        weather := weather[1..];
        state := state.(backing := if now.size < state.backing.size then now.(size := state.backing.size) else now);
      }
      trace := trace + [state];
      var f := NextFault();
      r := if f.NoFault? then Some(state.backing) else None;
    }

    /** Asking for a bigger size; the work is done afterwards. */
    method Extend(size: nat) returns (ok: bool)
      requires Ordered(state)
      modifies this
      ensures trace == old(trace) + [state] && OnlyBacking(old(state), state)
      ensures asked == old(asked) + [size] && weather == old(weather)
      ensures ok ==> state.backing == old(state).backing.(status := "extending")
      ensures old(Healthy()) ==> ok && Healthy()
    {
      Edit();
      asked := asked + [size];
      var f := NextFault();
      if !f.Before? {
        state := state.(backing := state.backing.(status := "extending"));
      }
      trace := trace + [state];
      ok := f.NoFault?;
    }

    /** ExtendVolume on one capsule. */
    method GrowFilesystem(uid: string, size: nat) returns (ok: bool)
      requires Ordered(state)
      modifies this
      ensures trace == old(trace) + [state] && Ordered(state)
      ensures OnlyAsked(old(state), state.(filesystems := old(state).filesystems))
      ensures state.filesystems in {old(state).filesystems, old(state).filesystems[uid := size]}
      ensures ok ==> state.filesystems == old(state).filesystems[uid := size]
      ensures weather == old(weather) && asked == old(asked)
      ensures old(Healthy()) ==> ok && Healthy()
    {
      Edit();
      var f := NextFault();
      if !f.Before? {
        state := state.(filesystems := state.filesystems[uid := size]);
      }
      trace := trace + [state];
      ok := f.NoFault?;
    }
  }

  // ----- growing the backing -----

  ghost predicate OnlyBacking(s: State, t: State) {
    OnlyAsked(s, t.(backing := s.backing)) && t.backing.size >= s.backing.size && Ordered(t)
  }

  ghost predicate BackingMoves(states: seq<State>, k: nat, s: State) {
    forall i :: k <= i < |states| ==> OnlyBacking(s, states[i])
  }

  function FailedStatus(kind: Kind): string {
    if kind.Shared? then "extending_error" else "error_extending"
  }

  /** The service is done at the n-th reading, and not before. */
  predicate DoneAt(b: Backing, weather: seq<Backing>, n: nat) {
    && 1 <= n && Reading(b, weather, n).status != "extending"
    && forall m :: 1 <= m < n ==> Reading(b, weather, m).status == "extending"
  }

  /** Within so many readings it is done, and well, and with enough. */
  ghost predicate Reaches(b: Backing, weather: seq<Backing>, kind: Kind, want: nat, polls: nat) {
    exists n ::
      && 1 <= n <= polls && DoneAt(b, weather, n) && Reading(b, weather, n).size >= want
      && Reading(b, weather, n).status != (if kind.Shared? then "extending_error" else "error_extending")
  }

  lemma DoneOnce(b: Backing, weather: seq<Backing>, m: nat, n: nat)
    requires DoneAt(b, weather, m) && DoneAt(b, weather, n)
    ensures m == n
  {
    hide Reading;
  }

  /** Waits for the service to settle, for as many polls as fit before the
      deadline, and reports the size it settled at - if that is enough. */
  method AwaitSize(st: Storage, kind: Kind, want: nat, polls: nat) returns (r: Option<nat>)
    requires st.Valid()
    modifies st
    ensures st.Valid() && old(st.trace) <= st.trace
    ensures OnlyBacking(old(st.state), st.state) && BackingMoves(st.trace, |old(st.trace)|, old(st.state))
    ensures r.Some? ==> r.value == st.state.backing.size >= want
    ensures r.Some? ==> st.state.backing.status !in {"extending", FailedStatus(kind)}
    ensures st.asked == old(st.asked)
    // With no call failing: exactly when the service gets there in time.
    ensures old(st.Healthy()) ==>
              st.Healthy() && (r.Some? <==> Reaches(old(st.state).backing, old(st.weather), kind, want, polls))
  {
    ghost var s, b, weather := st.state, st.state.backing, st.weather;
    assert Reading(b, weather, 0) == b;
    for i := 0 to polls
      invariant st.Valid() && old(st.trace) <= st.trace && st.asked == old(st.asked)
      invariant OnlyBacking(s, st.state) && BackingMoves(st.trace, |old(st.trace)|, s)
      invariant old(st.Healthy()) ==> st.Healthy()
      invariant st.state.backing == Reading(b, weather, i) && st.weather == Dropped(weather, i)
      invariant forall m :: 1 <= m <= i ==> Reading(b, weather, m).status == "extending"
    {
      DroppedNext(b, weather, i);
      hide Reading, Rest, Dropped;
      var now := st.Poll();
      if now.None? {
        return None;
      }
      if now.value.status == "extending" {
        continue;
      }
      if now.value.status == FailedStatus(kind) {
        return None;
      }
      return if now.value.size >= want then Some(now.value.size) else None;
    }
    return None;
  }

  /** What is left of the weather after i readings. */
  function Dropped(weather: seq<Backing>, i: nat): seq<Backing> {
    if i <= |weather| then weather[i..] else []
  }

  lemma DroppedNext(b: Backing, weather: seq<Backing>, i: nat)
    ensures Rest(Dropped(weather, i)) == Dropped(weather, i + 1)
    ensures Reading(Reading(b, weather, i), Dropped(weather, i), 1) == Reading(b, weather, i + 1)
  {
    assert Reading(Reading(b, weather, i), Dropped(weather, i), 0) == Reading(b, weather, i);
  }

  /** The storage has enough at the first reading, or gets there in time once it
      is asked to. */
  ghost predicate Expandable(b: Backing, weather: seq<Backing>, kind: Kind, endpoint: bool, want: nat, polls: nat) {
    var now := Reading(b, weather, 1);
    && !kind.Unknown? && endpoint
    && (now.size >= want || Reaches(now.(status := "extending"), Rest(weather), kind, want, polls))
  }

  /** Grows the storage to at least want, and says what it really has: a success
      is a size read back, never one assumed. */
  method Expand(st: Storage, kind: Kind, endpoint: bool, want: nat, polls: nat) returns (r: Option<nat>)
    requires st.Valid()
    modifies st
    ensures st.Valid() && old(st.trace) <= st.trace
    ensures OnlyBacking(old(st.state), st.state) && BackingMoves(st.trace, |old(st.trace)|, old(st.state))
    ensures r.Some? ==> r.value == st.state.backing.size >= want
    // It asks for what is wanted, and only when that is not there already.
    ensures st.asked in {old(st.asked), old(st.asked) + [want]}
    ensures st.asked != old(st.asked) ==> Reading(old(st.state).backing, old(st.weather), 1).size < want
    // With no call failing: exactly when the service can be brought there.
    ensures old(st.Healthy()) ==> st.Healthy()
    ensures old(st.Healthy()) ==>
              (r.Some? <==> Expandable(old(st.state).backing, old(st.weather), kind, endpoint, want, polls))
  {
    hide Reaches, Reading;
    if kind.Unknown? || !endpoint {
      return None;
    }
    var current := st.Poll();
    if current.None? {
      return None;
    }
    if current.value.size >= want {
      return Some(current.value.size);
    }
    var accepted := st.Extend(want);
    if !accepted {
      return None;
    }
    r := AwaitSize(st, kind, want, polls);
  }

  // ----- what is recorded on the claim -----

  /** recordAllocation: raise the undertaking, say how far it has got. */
  function Undertaken(c: Claim, size: int, now: ResizeState): Claim {
    if c.allocation.Some? && c.allocation.value >= size && c.resizing == Some(now) then c
    else if c.allocation == Some(size) && c.resizing == Some(ControllerInfeasible) && now == ControllerInProgress then c
    else
      c.(allocation := if c.allocation.Some? && c.allocation.value >= size then c.allocation else Some(size),
         resizing := Some(now))
  }

  /** recordClaimSize: finished; the allocation comes back down to the request
      when it was above it and the volume is no larger. */
  function Sized(c: Claim, size: nat): Claim {
    var lower := c.request.Some? && c.allocation.Some? && c.allocation.value > c.request.value
                 && size <= c.request.value;
    c.(capacity := size, allocation := if lower then c.request else c.allocation, resizing := None)
  }

  /** What an undertaking is, said of the fields: never below the size, never
      lower than it was, and said to be as far as it is - but that an attempt at
      this very size that failed is not walked back. */
  lemma UndertakenExactly(c: Claim, size: int, now: ResizeState)
    ensures var u := Undertaken(c, size, now);
            && u == c.(allocation := u.allocation, resizing := u.resizing)
            && u.allocation ==
                 (if c.allocation.Some? && c.allocation.value > size then c.allocation else Some(size))
            && u.resizing ==
                 Some(if c.allocation == Some(size) && c.resizing == Some(ControllerInfeasible)
                         && now == ControllerInProgress then ControllerInfeasible else now)
  {
  }

  lemma SizedExactly(c: Claim, size: nat)
    ensures var d := Sized(c, size);
            && d == Claim(c.request, size, d.allocation, None)
            && (c.allocation.None? || c.request.None? ==> d.allocation == c.allocation)
            && (c.allocation.Some? && c.request.Some? ==>
                  d.allocation == Some(if c.allocation.value > c.request.value >= size then c.request.value
                                       else c.allocation.value))
  {
  }

  /** Whether settleAllocation, judging by the cached claim, means to write. */
  predicate Settles(seen: Claim, want: int) {
    && seen.allocation.Some? && seen.allocation.value > want
    && seen.resizing.None?
    && seen.capacity <= want
  }

  method RecordAllocation(st: Storage, size: int, now: ResizeState) returns (ok: bool)
    requires st.Valid()
    modifies st
    ensures st.Valid() && old(st.trace) <= st.trace
    ensures var c := Asking(old(st.state).claim, st.state.claim.request);
            st.state.claim in {c, Undertaken(c, size, now)} && (ok ==> st.state.claim == Undertaken(c, size, now))
    ensures st.state == old(st.state).(claim := st.state.claim)
    ensures forall i :: |old(st.trace)| <= i < |st.trace| ==> st.trace[i] == st.state
    ensures st.weather == old(st.weather) && st.asked == old(st.asked)
    ensures old(st.Healthy()) ==> ok && st.Healthy()
  {
    var read := st.Get();
    if !read {
      return false;
    }
    var latest := st.state.claim;
    if latest.allocation.Some? && latest.allocation.value >= size && latest.resizing == Some(now) {
      return true;
    }
    if latest.allocation == Some(size) && latest.resizing == Some(ControllerInfeasible) && now == ControllerInProgress {
      return true;
    }
    if latest.allocation.None? || latest.allocation.value < size {
      latest := latest.(allocation := Some(size));
    }
    latest := latest.(resizing := Some(now));
    ok := st.WriteClaim(latest);
  }

  method RecordClaimSize(st: Storage, size: nat) returns (ok: bool)
    requires st.Valid() && size <= st.state.pv.capacity
    modifies st
    ensures st.Valid() && old(st.trace) <= st.trace
    ensures var c := Asking(old(st.state).claim, st.state.claim.request);
            st.state.claim in {c, Sized(c, size)} && (ok ==> st.state.claim == Sized(c, size))
    ensures st.state == old(st.state).(claim := st.state.claim)
    ensures forall i :: |old(st.trace)| <= i < |st.trace| ==> st.trace[i] == st.state
    ensures st.asked == old(st.asked)
    ensures old(st.Healthy()) ==> ok && st.Healthy()
  {
    var read := st.Get();
    if !read {
      return false;
    }
    var latest := st.state.claim.(capacity := size);
    if latest.request.Some? {
      if latest.allocation.Some? && latest.allocation.value > latest.request.value && size <= latest.request.value {
        latest := latest.(allocation := latest.request);
      }
    }
    latest := latest.(resizing := None);
    ok := st.WriteClaim(latest);
  }

  /** The undertaking is below what the claim has already. */
  predicate Undercut(c: Claim) {
    c.allocation.Some? && c.allocation.value < c.capacity
  }

  /** Lowers what an expansion that never happened left behind, judging by the
      cached claim and writing to the current one. What it writes undercuts the
      claim exactly when the guard it used fails on the current one, and is the
      request exactly when that has not moved. */
  method SettleAllocation(st: Storage, seen: Claim, want: int) returns (ok: bool)
    requires st.Valid()
    modifies st
    ensures st.Valid() && old(st.trace) <= st.trace
    ensures var c := Asking(old(st.state).claim, st.state.claim.request);
            st.state.claim in {c, c.(allocation := Some(want))}
    ensures st.state == old(st.state).(claim := st.state.claim)
    ensures forall i :: |old(st.trace)| <= i < |st.trace| ==> st.trace[i] == st.state
    ensures !(seen.allocation.Some? && seen.allocation.value > want && seen.resizing.None? && seen.capacity <= want) ==>
              ok && st.trace == old(st.trace) && st.state == old(st.state)
    ensures st.asked == old(st.asked)
    ensures old(st.Healthy())
            && seen.allocation.Some? && seen.allocation.value > want && seen.resizing.None? && seen.capacity <= want ==>
              st.Healthy() && (ok <==> old(st.state).claim.allocation.Some?)
              && (ok ==> st.state.claim.allocation == Some(want))
    ensures ok && Settles(seen, want) ==>
              && (Undercut(st.state.claim) <==> !(old(st.state).claim.capacity <= want))
              && (st.state.claim.allocation == st.state.claim.request <==> st.state.claim.request == Some(want))
    ensures st.state.claim.allocation != old(st.state).claim.allocation ==>
              (Undercut(st.state.claim) <==> !(old(st.state).claim.capacity <= want))
  {
    if seen.allocation.None? || seen.allocation.value <= want {
      return true;
    }
    if seen.resizing.Some? {
      return true;
    }
    if seen.capacity > want {
      return true;
    }
    var read := st.Get();
    if !read || st.state.claim.allocation.None? {
      // An allocation that vanished meanwhile is a write into a nil map.
      return false;
    }
    ok := st.WriteClaim(st.state.claim.(allocation := Some(want)));
  }

  // ----- the volume object and the filesystems -----

  /** A copy of the volume object from some earlier moment. */
  predicate Earlier(seen: PV, now: PV) {
    && seen.capacity <= now.capacity && seen.version <= now.version
    && (seen.version == now.version ==> seen == now)
    && seen.ours == now.ours && seen.kind == now.kind && seen.id == now.id
  }

  /** Only the volume object's size moved, and only up to what is there. */
  ghost predicate OnlyVolume(s: State, t: State) {
    OnlyAsked(s, t.(pv := s.pv)) && Earlier(s.pv, t.pv) && Ordered(t)
  }

  method RecordVolumeSize(st: Storage, seen: PV, size: nat) returns (ok: bool)
    requires st.Valid() && Earlier(seen, st.state.pv) && size == st.state.backing.size * GiB
    modifies st
    ensures st.Valid() && old(st.trace) <= st.trace
    ensures OnlyVolume(old(st.state), st.state)
    ensures forall i :: |old(st.trace)| <= i < |st.trace| ==> st.trace[i] == st.state
    ensures ok ==> st.state.pv.capacity == size
    ensures st.asked == old(st.asked)
    ensures old(st.Healthy()) ==>
              st.Healthy() && (ok <==> seen.capacity == size || seen.version == old(st.state).pv.version)
  {
    if seen.capacity == size {
      return true;
    }
    ok := st.WriteVolume(seen, size);
  }

  ghost predicate AllGrown(pods: seq<PodUse>, fs: map<string, nat>, size: nat) {
    forall p :: p in pods && p.uses ==> p.uid in fs && fs[p.uid] == size
  }

  ghost predicate OnlyFilesystems(s: State, t: State) {
    OnlyAsked(s, t.(filesystems := s.filesystems)) && forall u :: u in s.filesystems ==> u in t.filesystems
  }

  /** Grows the filesystem in every capsule using the volume. One that fails is
      reported after the rest were tried; with nothing to reach capsules by, it
      is left undone and reported as done. */
  method GrowFilesystems(st: Storage, agent: bool, pods: seq<PodUse>, size: nat) returns (ok: bool)
    requires st.Valid()
    modifies st
    ensures st.Valid() && old(st.trace) <= st.trace
    ensures OnlyFilesystems(old(st.state), st.state)
    ensures forall i :: |old(st.trace)| <= i < |st.trace| ==> OnlyFilesystems(old(st.state), st.trace[i])
    ensures ok && agent ==> AllGrown(pods, st.state.filesystems, size)
    ensures !agent ==> ok && st.state == old(st.state) && st.trace == old(st.trace)
    // Nothing else is grown.
    ensures forall u :: u in st.state.filesystems && (forall p :: p in pods && p.uses ==> p.uid != u) ==>
              u in old(st.state).filesystems && st.state.filesystems[u] == old(st.state).filesystems[u]
    ensures st.asked == old(st.asked)
    ensures old(st.Healthy()) ==> ok && st.Healthy()
  {
    if !agent {
      return true;
    }
    var f := st.NextFault();
    if !f.NoFault? {
      return false;
    }
    ghost var s := st.state;
    ok := true;
    for i := 0 to |pods|
      invariant st.Valid() && old(st.trace) <= st.trace && OnlyFilesystems(s, st.state)
      invariant forall k :: |old(st.trace)| <= k < |st.trace| ==> OnlyFilesystems(s, st.trace[k])
      invariant st.asked == old(st.asked) && (old(st.Healthy()) ==> ok && st.Healthy())
      invariant forall u :: u in st.state.filesystems && (forall p :: p in pods && p.uses ==> p.uid != u) ==>
        u in s.filesystems && st.state.filesystems[u] == s.filesystems[u]
      invariant ok ==> forall j :: 0 <= j < i && pods[j].uses ==>
        pods[j].uid in st.state.filesystems && st.state.filesystems[pods[j].uid] == size
    {
      if pods[i].uses {
        var grown := st.GrowFilesystem(pods[i].uid, size);
        if !grown {
          ok := false;
        }
      }
    }
  }
}
