/** pkg/netpol/migrate.go: moving a tenant's capsule ports off the project's
    default group in two phases, and why nothing stops talking on the way. */
module Conversion {
  import opened Wrappers
  import opened NeutronStore
  import opened NeutronClient
  import opened AddressSync
  import Ordering

  datatype Phase = Attach | Detach

  /** What a port should carry after a phase, as a set. */
  function Desired(phase: Phase, current: set<string>, baseline: set<string>, default: string): set<string> {
    match phase
    case Attach => current + baseline
    case Detach => (current - {default}) + baseline
  }

  method DesiredGroups(phase: Phase, current: seq<string>, baseline: seq<string>, default: string)
    returns (out: seq<string>)
    ensures Members(out) == Desired(phase, Members(current), Members(baseline), default)
    ensures forall g :: g in out <==> g in baseline || (g in current && !(phase == Detach && g == default))
    ensures Ordering.SortedBy(out, Ordering.StrLe) && Ordering.NoRepeats(out)
  {
    var keep := Members(current);
    match phase {
      case Attach =>
        keep := keep + Members(baseline);
      case Detach =>
        keep := keep - {default};
        keep := keep + Members(baseline);
    }
    out := Listing(keep);
  }

  // ----- the run of one phase -----

  /** What one phase may have done to the ports by now: each listed one carries
      what it did, or what it should; nothing else changed. */
  ghost predicate Converting(s: Store, t: Store, phase: Phase, list: set<string>, baseline: set<string>,
                             default: string) {
    && t == s.(ports := t.ports)
    && t.ports.Keys == s.ports.Keys
    && forall p :: p in s.ports ==>
         || t.ports[p] == s.ports[p]
         || (p in list && Members(t.ports[p]) == Desired(phase, Members(s.ports[p]), baseline, default))
  }

  ghost predicate AllConverting(states: seq<Store>, k: nat, s: Store, phase: Phase, list: set<string>,
                                baseline: set<string>, default: string) {
    forall i :: k <= i < |states| ==> Converting(s, states[i], phase, list, baseline, default)
  }

  ghost predicate Converted(s: Store, p: string, phase: Phase, baseline: set<string>, default: string) {
    p in s.ports && Members(s.ports[p]) == Desired(phase, Members(s.ports[p]), baseline, default)
  }

  lemma DesiredIsFixed(phase: Phase, current: set<string>, baseline: set<string>, default: string)
    ensures var d := Desired(phase, current, baseline, default); Desired(phase, d, baseline, default) == d
  {
  }

  /** Replaces one port's list. */
  method UpdateOne(n: Neutron, p: string, want: seq<string>, ghost s: Store, phase: Phase, ghost list: set<string>,
                   ghost baseline: set<string>, default: string)
    returns (ok: bool)
    requires n.Valid() && p in list && p in n.store.ports && Converting(s, n.store, phase, list, baseline, default)
    requires Members(want) == Desired(phase, Members(n.store.ports[p]), baseline, default)
    modifies n
    ensures n.Valid() && old(n.trace) <= n.trace
    ensures Converting(s, n.store, phase, list, baseline, default)
    ensures AllConverting(n.trace, |old(n.trace)|, s, phase, list, baseline, default)
    ensures ok ==> n.store.ports[p] == want
    ensures forall q :: q in old(n.store).ports && q != p ==> n.store.ports[q] == old(n.store).ports[q]
    ensures old(n.Healthy()) && (forall g :: g in want ==> g in old(n.store).groups) ==> ok
    ensures old(n.Healthy()) ==> n.Healthy()
  {
    UpdatedConverts(s, n.store, p, want, phase, list, baseline, default);
    hide ValidStore, Desired, Converting;
    var f := n.NextFault();
    OtherCallsValid(n.store, p, "", {}, want);
    var (t, answer) := UpdatePort(n.store, p, want);
    if !f.Before? {
      n.store := t;
    }
    n.trace := n.trace + [n.store];
    ok := f.NoFault? && answer.Done?;
  }

  lemma UpdatedConverts(s: Store, t: Store, p: string, want: seq<string>, phase: Phase, list: set<string>,
                        baseline: set<string>, default: string)
    requires p in list && p in t.ports && Converting(s, t, phase, list, baseline, default)
    requires Members(want) == Desired(phase, Members(t.ports[p]), baseline, default)
    ensures Converting(s, UpdatePort(t, p, want).0, phase, list, baseline, default)
  {
    DesiredIsFixed(phase, Members(s.ports[p]), baseline, default);
    hide Desired;
    var u := UpdatePort(t, p, want).0;
    assert u == s.(ports := u.ports);
  }

  /** Every group a port carries exists, and every baseline group does. */
  ghost predicate GroupsThere(s: Store, baseline: set<string>) {
    (forall g :: g in baseline ==> g in s.groups) && forall p, g :: p in s.ports && g in s.ports[p] ==> g in s.groups
  }

  lemma StillThere(s: Store, t: Store, phase: Phase, list: set<string>, baseline: set<string>, default: string)
    requires Converting(s, t, phase, list, baseline, default) && GroupsThere(s, baseline)
    ensures GroupsThere(t, baseline)
  {
    forall p, g | p in t.ports && g in t.ports[p] ensures g in t.groups {
      if t.ports[p] != s.ports[p] { assert g in Members(t.ports[p]); }
    }
  }

  /** What every listed port carries in the end, group by group. */
  ghost predicate AllAsWanted(s: Store, t: Store, phase: Phase, list: seq<string>, baseline: seq<string>,
                              default: string) {
    forall p, g :: p in list && p in s.ports && p in t.ports ==>
      (g in t.ports[p] <==> g in baseline || (g in s.ports[p] && !(phase == Detach && g == default)))
  }

  lemma FinishedIsWanted(s: Store, t: Store, phase: Phase, list: seq<string>, baseline: seq<string>, default: string)
    requires Converting(s, t, phase, Members(list), Members(baseline), default)
    requires forall p :: p in list ==> Finished(t, p, phase, Members(baseline), default)
    ensures AllAsWanted(s, t, phase, list, baseline, default)
  {
    forall p, g | p in list && p in s.ports && p in t.ports
      ensures g in t.ports[p] <==> g in baseline || (g in s.ports[p] && !(phase == Detach && g == default))
    {
      assert Finished(t, p, phase, Members(baseline), default);
      assert g in t.ports[p] <==> g in Members(t.ports[p]);
      assert g in s.ports[p] <==> g in Members(s.ports[p]);
    }
  }

  /** A port that already carries what it should, each group once. */
  ghost predicate Finished(s: Store, p: string, phase: Phase, baseline: set<string>, default: string) {
    Converted(s, p, phase, baseline, default) && Ordering.NoRepeats(s.ports[p])
  }

  /** One port: compared as a set, written as a whole list. */
  method ConvertOne(n: Neutron, p: string, ghost s: Store, phase: Phase, ghost list: set<string>,
                    baseline: seq<string>, default: string, dryRun: bool)
    returns (ok: bool, changed: bool)
    requires n.Valid() && p in list && p in n.store.ports
    requires Converting(s, n.store, phase, list, Members(baseline), default)
    modifies n
    ensures n.Valid() && old(n.trace) <= n.trace
    ensures Converting(s, n.store, phase, list, Members(baseline), default)
    ensures AllConverting(n.trace, |old(n.trace)|, s, phase, list, Members(baseline), default)
    ensures dryRun || Finished(old(n.store), p, phase, Members(baseline), default) ==>
              ok && n.store == old(n.store) && n.trace == old(n.trace)
    ensures changed <==> !Finished(old(n.store), p, phase, Members(baseline), default)
    ensures ok && !dryRun ==> Finished(n.store, p, phase, Members(baseline), default)
    ensures forall q :: q in old(n.store).ports && q != p ==> n.store.ports[q] == old(n.store).ports[q]
    ensures old(n.Healthy()) ==> n.Healthy()
    ensures old(n.Healthy()) && GroupsThere(old(n.store), Members(baseline)) ==> ok
  {
    var want := DesiredGroups(phase, n.store.ports[p], baseline, default);
    AlreadyConverted(n.store.ports[p], want);
    if Ordering.SortStrings(n.store.ports[p]) == want {
      SortedHas(n.store.ports[p], want);
      return true, false;
    }
    if dryRun {
      return true, true;
    }
    DesiredIsFixed(phase, Members(n.store.ports[p]), Members(baseline), default);
    ok := UpdateOne(n, p, want, s, phase, list, Members(baseline), default);
    changed := true;
  }

  lemma ConvertingAtFirst(s: Store, phase: Phase, list: set<string>, baseline: set<string>, default: string)
    ensures Converting(s, s, phase, list, baseline, default)
  {
    assert s == s.(ports := s.ports);
  }

  /** The ports one by one; the first failure ends it. */
  method ConvertEach(n: Neutron, phase: Phase, baseline: seq<string>, default: string, list: seq<string>, dryRun: bool)
    returns (ok: bool, count: nat)
    requires n.Valid() && forall p :: p in list ==> p in n.store.ports
    modifies n
    ensures n.Valid() && old(n.trace) <= n.trace
    ensures Converting(old(n.store), n.store, phase, Members(list), Members(baseline), default)
    ensures AllConverting(n.trace, |old(n.trace)|, old(n.store), phase, Members(list), Members(baseline), default)
    ensures dryRun ==> n.store == old(n.store)
    ensures ok && !dryRun ==> forall p :: p in list ==> Finished(n.store, p, phase, Members(baseline), default)
    ensures (forall p :: p in list ==> Finished(old(n.store), p, phase, Members(baseline), default)) ==>
              n.store == old(n.store) && count == 0
    ensures old(n.Healthy()) ==> n.Healthy() && (GroupsThere(old(n.store), Members(baseline)) ==> ok)
  {
    ghost var s, k, all, given := n.store, |n.trace|, Members(list), Members(baseline);
    ConvertingAtFirst(s, phase, all, given, default);
    hide Converting, Finished, ValidStore, Desired, GroupsThere;
    count := 0;
    for i := 0 to |list|
      invariant n.Valid() && old(n.trace) <= n.trace && forall p :: p in list ==> p in n.store.ports
      invariant Converting(s, n.store, phase, all, given, default)
      invariant AllConverting(n.trace, k, s, phase, all, given, default)
      invariant dryRun ==> n.store == s
      invariant !dryRun ==> forall j :: 0 <= j < i ==> Finished(n.store, list[j], phase, given, default)
      invariant (forall p :: p in list ==> Finished(s, p, phase, given, default)) ==> n.store == s && count == 0
      invariant old(n.Healthy()) ==> n.Healthy()
    {
      var p := list[i];
      assert p in list && p in all;
      ghost var t := n.store;
      var changed;
      ok, changed := ConvertOne(n, p, s, phase, all, baseline, default, dryRun);
      if changed {
        count := count + 1;
      }
      if !ok {
        if GroupsThere(s, given) { StillThere(s, t, phase, all, given, default); }
        return;
      }
      KeepsTheirPorts(s, t, n.store, phase, all, given, default);
      forall j | 0 <= j < i && !dryRun ensures Finished(n.store, list[j], phase, given, default) {
        OthersStayFinished(t, n.store, p, list[j], phase, given, default);
      }
    }
    ok := true;
  }

  /** One phase over the capsule ports. Whatever fails, every state on the way
      has each listed port either as it was or as wanted. A run that finishes
      leaves all of them converted, and then a further run changes nothing. */
  method Convert(n: Neutron, phase: Phase, baseline: seq<string>, default: string, list: seq<string>, dryRun: bool)
    returns (r: Result<(nat, nat), ()>)
    requires n.Valid() && forall p :: p in list ==> p in n.store.ports
    modifies n
    ensures n.Valid() && old(n.trace) <= n.trace
    ensures Converting(old(n.store), n.store, phase, Members(list), Members(baseline), default)
    ensures AllConverting(n.trace, |old(n.trace)|, old(n.store), phase, Members(list), Members(baseline), default)
    ensures baseline == [] || (phase == Detach && default == "") ==> r.Err? && n.store == old(n.store)
    ensures dryRun ==> n.store == old(n.store)
    ensures r.Ok? ==> r.value.1 == |list|
    ensures r.Ok? && !dryRun ==> forall p :: p in list ==> Finished(n.store, p, phase, Members(baseline), default)
    ensures r.Ok? && !dryRun ==> AllAsWanted(old(n.store), n.store, phase, list, baseline, default)
    ensures (forall p :: p in list ==> Finished(old(n.store), p, phase, Members(baseline), default)) ==>
              n.store == old(n.store) && (r.Ok? ==> r.value.0 == 0)
    ensures old(n.Healthy()) ==> n.Healthy()
    // With no call failing, and every group there.
    ensures old(n.Healthy()) && GroupsThere(old(n.store), Members(baseline)) ==>
              (r.Ok? <==> baseline != [] && !(phase == Detach && default == ""))
  {
    ghost var s := n.store;
    ConvertingAtFirst(s, phase, Members(list), Members(baseline), default);
    hide Converting, Finished, ValidStore, Desired, GroupsThere, AllAsWanted;
    if baseline == [] || (phase == Detach && default == "") {
      return Err(());
    }
    var f := n.NextFault();
    if !f.NoFault? {
      return Err(());
    }
    var ok, count := ConvertEach(n, phase, baseline, default, list, dryRun);
    if !ok {
      return Err(());
    }
    if !dryRun { FinishedIsWanted(s, n.store, phase, list, baseline, default); }
    return Ok((count, |list|));
  }

  lemma KeepsTheirPorts(s: Store, t: Store, u: Store, phase: Phase, list: set<string>, baseline: set<string>,
                        default: string)
    requires Converting(s, t, phase, list, baseline, default) && Converting(s, u, phase, list, baseline, default)
    ensures u.ports.Keys == t.ports.Keys
  {
  }

  lemma OthersStayFinished(t: Store, u: Store, p: string, q: string, phase: Phase, baseline: set<string>,
                           default: string)
    requires Finished(t, q, phase, baseline, default) && q in u.ports
    requires if q == p then Finished(u, p, phase, baseline, default) else u.ports[q] == t.ports[q]
    ensures Finished(u, q, phase, baseline, default)
  {
  }

  lemma AlreadyConverted(have: seq<string>, want: seq<string>)
    requires Ordering.SortedBy(want, Ordering.StrLe) && Ordering.NoRepeats(want)
    ensures Ordering.NoRepeats(have) && Members(have) == Members(want) ==> Ordering.SortStrings(have) == want
  {
    if Ordering.NoRepeats(have) && Members(have) == Members(want) {
      Ordering.SortIdempotent(have);
      Ordering.SortMembers(have, Ordering.StrLe);
      Ordering.PermutationNoRepeats(have, Ordering.SortStrings(have));
      forall x ensures x in Ordering.SortStrings(have) <==> x in want {
        assert x in Members(have) <==> x in Members(want);
      }
      Ordering.AscendingSetUnique(Ordering.SortStrings(have), want);
    }
  }

  lemma SortedHas(have: seq<string>, want: seq<string>)
    requires Ordering.SortStrings(have) == want && Ordering.NoRepeats(want)
    ensures Members(have) == Members(want) && Ordering.NoRepeats(have)
  {
    Ordering.SortMembers(have, Ordering.StrLe);
    Ordering.PermutationNoRepeats(want, have);
  }
}
