/** The conversion as an operator runs it: either phase as often as wanted, any
    run failing part way, detaching only once an attaching run has finished. */
module ConversionRuns {
  import opened Wrappers
  import opened NetworkPolicy
  import opened NeutronStore
  import opened NeutronClient
  import opened Baseline
  import opened AddressSync
  import opened Conversion
  import opened ConversionReach

  datatype Run = Run(phase: Phase, dryRun: bool)

  /** A run picks up wherever an earlier run of its phase stopped. */
  lemma ConvertingGoesOn(s: Store, t: Store, u: Store, phase: Phase, list: set<string>, baseline: set<string>,
                         default: string)
    requires Converting(s, t, phase, list, baseline, default) && Converting(t, u, phase, list, baseline, default)
    ensures Converting(s, u, phase, list, baseline, default)
  {
    forall p | p in s.ports { DesiredIsFixed(phase, Members(s.ports[p]), baseline, default); }
    hide Desired;
    assert u == s.(ports := u.ports);
  }

  /** Any two of the listed ports that could talk can talk. */
  ghost predicate StillTalking(e: Env, at: string -> string, s: Store, t: Store, list: set<string>) {
    forall a, b, w :: a in list && b in list && CanTalk(e, s, at, a, b, w) ==> CanTalk(e, t, at, a, b, w)
  }

  ghost predicate AllTalking(e: Env, at: string -> string, s: Store, states: seq<Store>, k: nat, list: set<string>) {
    forall i :: k <= i < |states| ==> StillTalking(e, at, s, states[i], list)
  }

  /** Every listed port carries the baseline groups. */
  ghost predicate Carried(s: Store, list: set<string>, baseline: set<string>) {
    forall p :: p in list ==> p in s.ports && baseline <= Members(s.ports[p])
  }

  lemma AttachedTalk(e: Env, at: string -> string, s: Store, t: Store, list: set<string>, baseline: set<string>,
                     default: string)
    requires Converting(s, t, Attach, list, baseline, default)
    ensures StillTalking(e, at, s, t, list)
  {
    hide CanTalk, Converting;
    forall a, b, w | a in list && b in list && CanTalk(e, s, at, a, b, w) ensures CanTalk(e, t, at, a, b, w) {
      AttachKeepsTalking(e, s, t, list, baseline, default, at, a, b, w);
    }
  }

  /** Once they carry the opening groups, neither phase comes between them. */
  lemma CarriedTalk(e: Env, at: string -> string, s: Store, t: Store, list: set<string>, ids: BaselineIds,
                    baseline: set<string>)
    requires Faithful(e) && BaselineHolds(t, ids) && {ids.ingress, ids.egress} <= baseline && Carried(t, list, baseline)
    ensures StillTalking(e, at, s, t, list)
  {
    hide CanTalk, BaselineHolds;
    forall a, b, w | a in list && b in list && CanTalk(e, s, at, a, b, w) ensures CanTalk(e, t, at, a, b, w) {
      ConvertingAtFirst(t, Detach, list, baseline, "");
      DetachKeepsTalking(e, t, t, list, ids, baseline, "", at, a, b, w);
    }
  }

  lemma StillCarried(s: Store, t: Store, phase: Phase, list: set<string>, baseline: set<string>, default: string)
    requires Carried(s, list, baseline) && Converting(s, t, phase, list, baseline, default)
    ensures Carried(t, list, baseline)
  {
  }

  lemma AttachedCarry(s: Store, list: set<string>, baseline: set<string>, default: string)
    requires forall p :: p in list ==> Finished(s, p, Attach, baseline, default)
    ensures Carried(s, list, baseline)
  {
  }

  lemma BaselineUntouched(s: Store, t: Store, ids: BaselineIds, phase: Phase, list: set<string>, baseline: set<string>,
                          default: string)
    requires BaselineHolds(s, ids) && Converting(s, t, phase, list, baseline, default)
    ensures BaselineHolds(t, ids) && t.ports.Keys == s.ports.Keys
  {
  }

  /** One run, in either half of the conversion. */
  lemma RunTalks(e: Env, at: string -> string, s: Store, t: Store, u: Store, ids: BaselineIds, phase: Phase,
                 list: set<string>, baseline: set<string>, default: string, carried: bool)
    requires Faithful(e) && BaselineHolds(t, ids) && {ids.ingress, ids.egress} <= baseline
    requires Converting(t, u, phase, list, baseline, default)
    requires if carried then Carried(t, list, baseline)
             else phase.Attach? && Converting(s, t, Attach, list, baseline, default)
    ensures StillTalking(e, at, s, u, list)
  {
    hide StillTalking, Converting, BaselineHolds, Carried;
    if carried {
      BaselineUntouched(t, u, ids, phase, list, baseline, default);
      StillCarried(t, u, phase, list, baseline, default);
      CarriedTalk(e, at, s, u, list, ids, baseline);
    } else {
      ConvertingGoesOn(s, t, u, Attach, list, baseline, default);
      AttachedTalk(e, at, s, u, list, baseline, default);
    }
  }

  /** How far a conversion has come: nowhere, attached, or detached as well. */
  ghost predicate Along(s: Store, t: Store, far: nat, list: seq<string>, baseline: seq<string>, default: string) {
    && t.ports.Keys == s.ports.Keys && (far == 0 ==> t == s)
    && (far == 1 ==> AllAsWanted(s, t, Attach, list, baseline, default))
    && (far == 2 ==> AllAsWanted(s, t, Detach, list, baseline, default))
  }

  function Further(far: nat, run: Run): nat {
    if run.dryRun then far
    else if run.phase.Attach? then (if far == 0 then 1 else far)
    else if far == 1 then 2 else far
  }

  lemma AlongNext(s: Store, t: Store, u: Store, far: nat, run: Run, list: seq<string>, baseline: seq<string>,
                  default: string)
    requires far <= 2 && Along(s, t, far, list, baseline, default) && t.ports.Keys == u.ports.Keys
    requires if run.dryRun then u == t else AllAsWanted(t, u, run.phase, list, baseline, default)
    requires far == 0 ==> run.phase.Attach?
    ensures Along(s, u, Further(far, run), list, baseline, default)
  {
    if !run.dryRun {
      if far == 0 || (far == 1 && run.phase.Attach?) {
        WantedAgain(s, t, u, if far == 0 then None else Some(Attach), Attach, Attach, list, baseline, default);
      } else {
        WantedAgain(s, t, u, Some(if far == 1 then Attach else Detach), run.phase, Detach, list, baseline, default);
      }
    }
  }

  /** One phase after what was done before comes to one phase from the start. */
  lemma WantedAgain(s: Store, t: Store, u: Store, before: Option<Phase>, phase: Phase, all: Phase, list: seq<string>,
                    baseline: seq<string>, default: string)
    requires s.ports.Keys == t.ports.Keys == u.ports.Keys && AllAsWanted(t, u, phase, list, baseline, default)
    requires match before case None => t == s case Some(b) => AllAsWanted(s, t, b, list, baseline, default)
    requires all == if before == Some(Detach) || phase.Detach? then Detach else Attach
    ensures AllAsWanted(s, u, all, list, baseline, default)
  {
    forall p, g | p in list && p in s.ports && p in u.ports
      ensures g in u.ports[p] <==> g in baseline || (g in s.ports[p] && !(all == Detach && g == default))
    {
      assert p in t.ports;
      assert g in u.ports[p] <==> g in baseline || (g in t.ports[p] && !(phase == Detach && g == default));
    }
  }

  /** Any runs in any order, a detaching one only once an attaching one has
      finished: in every state on the way, any two listed ports that could talk
      at the start can talk. */
  method ConvertTenant(n: Neutron, runs: seq<Run>, baseline: seq<string>, default: string, list: seq<string>,
                       ghost e: Env, ghost at: string -> string, ghost ids: BaselineIds)
    requires n.Valid() && forall p :: p in list ==> p in n.store.ports
    requires Faithful(e) && BaselineHolds(n.store, ids) && {ids.ingress, ids.egress} <= Members(baseline)
    modifies n
    ensures n.Valid() && old(n.trace) <= n.trace
    ensures AllTalking(e, at, old(n.store), n.trace, |old(n.trace)|, Members(list))
    ensures StillTalking(e, at, old(n.store), n.store, Members(list))
    // With no call failing, once one of each has really been run the tenant is
    // converted, whatever else is run.
    ensures old(n.Healthy()) && GroupsThere(old(n.store), Members(baseline)) && baseline != [] && default != ""
            && (exists i, j ::
                  0 <= i < j < |runs| && runs[i] == Run(Attach, false) && runs[j] == Run(Detach, false)) ==>
              AllAsWanted(old(n.store), n.store, Detach, list, baseline, default)
  {
    hide AllAsWanted, GroupsThere;
    hide Converting, Carried, BaselineHolds, StillTalking, ValidStore, Finished;
    ghost var s, all, base := n.store, Members(list), Members(baseline);
    ConvertingAtFirst(s, Attach, all, base, default);
    AttachedTalk(e, at, s, s, all, base, default);
    var attached := false;
    ghost var sure, far := n.Healthy() && GroupsThere(s, base) && baseline != [] && default != "", 0;
    for i := 0 to |runs|
      invariant sure ==> n.Healthy() && GroupsThere(n.store, base) && (attached <==> far >= 1)
      invariant far <= 2 && (sure ==> Along(s, n.store, far, list, baseline, default))
      invariant sure ==> forall j :: 0 <= j < i && runs[j] == Run(Attach, false) ==> far >= 1
      invariant sure ==>
        forall j, k :: 0 <= j < k < i && runs[j] == Run(Attach, false) && runs[k] == Run(Detach, false) ==> far == 2
      invariant n.Valid() && old(n.trace) <= n.trace && BaselineHolds(n.store, ids)
      invariant forall p :: p in list ==> p in n.store.ports
      invariant if attached then Carried(n.store, all, base) else Converting(s, n.store, Attach, all, base, default)
      invariant AllTalking(e, at, s, n.trace, |old(n.trace)|, all)
      invariant StillTalking(e, at, s, n.store, all)
    {
      var run := runs[i];
      if run.phase.Detach? && !attached {
        continue;
      }
      ghost var t, states := n.store, n.trace;
      var r := Convert(n, run.phase, baseline, default, list, run.dryRun);
      BaselineUntouched(t, n.store, ids, run.phase, all, base, default);
      RunTalks(e, at, s, t, n.store, ids, run.phase, all, base, default, attached);
      forall j | |old(n.trace)| <= j < |n.trace| ensures StillTalking(e, at, s, n.trace[j], all) {
        if j < |states| {
          assert n.trace[j] == states[j];
        } else {
          RunTalks(e, at, s, t, n.trace[j], ids, run.phase, all, base, default, attached);
        }
      }
      if sure { StillThere(t, n.store, run.phase, all, base, default); }
      ghost var next := Further(far, run);
      if sure { AlongNext(s, t, n.store, far, run, list, baseline, default); }
      far := next;
      if attached {
        StillCarried(t, n.store, run.phase, all, base, default);
      } else {
        ConvertingGoesOn(s, t, n.store, Attach, all, base, default);
      }
      if run.phase.Attach? && r.Ok? && !run.dryRun {
        AttachedCarry(n.store, all, base, default);
        attached := true;
      }
    }
  }
}
