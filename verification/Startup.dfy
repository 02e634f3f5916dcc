/** How a controller starts (Run of pkg/netpol/controller.go), and that what the
    other modules ask of a start and of the libraries can be had. */
module Startup {
  import opened Wrappers
  import opened Text
  import opened NetworkPolicy
  import opened NeutronStore
  import opened NeutronClient
  import opened RuleSync
  import opened Baseline
  import opened AddressSync
  import opened NeutronMeaning
  import opened Sweeping
  import opened PolicySync
  import opened Protocol
  import opened Interleaving
  import opened InterleavingSafety
  import opened InterleavingRuns
  import Controllers

  /** A store as the controller may find it. */
  ghost predicate Presentable(h: string -> string, s: Store) {
    ValidStore(s) && StoredForms(s) && Honest(h, s) && OneGroupEach(h, s) && OneSetEach(h, s, {})
  }

  lemma BaselineLeaves(h: string -> string, s: Store, t: Store)
    requires Presentable(h, s) && ValidStore(t) && Untouched(s, t, {AllowIngress, AllowEgress, DenyAll})
    ensures Presentable(h, t)
  {
    BaselineNamesApart(h, "");
    hide ValidStore;
    forall x ensures OneNamed(t, GroupName(h, x)) {
      BaselineNamesApart(h, x);
      assert OneNamed(s, GroupName(h, x));
    }
    forall x ensures OneSet(t, SetName(h, x)) { assert OneSet(s, SetName(h, x)); }
    forall g | g in t.groups && HasPrefix(t.groups[g].name, PolicyPrefix)
      ensures g in s.groups && t.groups[g] == s.groups[g]
    {
    }
  }

  /** The baseline first, then the workers, all idle. From there both the
      controller and the system of single calls are in order. */
  method Start(n: Neutron, e: Env, h: string -> string, w: World, workers: nat)
    returns (c: Option<Controllers.Controller>, ghost x: System)
    requires n.Valid() && Presentable(h, n.store) && WellFormed(w) && Faithful(e) && HostRoutes(e) && Injective(h)
    modifies n
    ensures old(n.Healthy()) ==> c.Some?
    ensures c.Some? ==> c.value.Valid() && c.value.neutron == n && c.value.world == w
    ensures c.Some? ==> Safe(h, x) && Quiet(x) && x.store == n.store && x.world == w && |x.tasks| == workers
  {
    hide Faithful, HostRoutes, WellFormed, Presentable, Injective, ValidStore, BaselineHolds, Untouched;
    ghost var s := n.store;
    var b := EnsureBaseline(n);
    BaselineLeaves(h, s, n.store);
    var ids := if b.Some? then b.value else BaselineIds("", "", "");
    x := System(n.store, w, ids, map[], {}, {}, {}, seq(workers, _ => Idle));
    if b.None? {
      return None, x;
    }
    PresentableIsGood(h, n.store, b.value);
    StartSafe(h, x);
    var controller := new Controllers.Controller(e, h, n, w, b.value);
    c := Some(controller);
  }

  lemma PresentableIsGood(h: string -> string, s: Store, b: BaselineIds)
    requires Presentable(h, s) && BaselineHolds(s, b)
    ensures StoreGood(h, s, b, {}) && StoreSafe(h, s, b)
  {
    hide ValidStore, StoredForms, Honest, OneNamed, OneSet, BaselineHolds;
  }

  /** A project with nothing in it is presentable. */
  lemma EmptyIsPresentable(h: string -> string)
    ensures Presentable(h, Store(map[], map[], map[], 0))
  {
  }

  // ----- the libraries -----

  /** Address matching as the assumptions have it: whole families, and single
      addresses in stored form. */
  ghost predicate In(cidr: string, a: string) {
    || (cidr == AnyIPv4 && FamilyOf(a) == "IPv4") || (cidr == AnyIPv6 && FamilyOf(a) == "IPv6")
    || (Plain(a) && cidr == Normalize(a))
  }

  lemma ColonKept(a: string)
    requires Plain(a)
    ensures FamilyOf(Normalize(a)) == FamilyOf(a) && Normalize(a) != AnyIPv4 && Normalize(a) != AnyIPv6
  {
    PlainNormalizes(a);
    var n := Normalize(a);
    if HasChar(a, ':') {
      var i :| 0 <= i < |a| && a[i] == ':';
      assert n[i] == ':';
    } else {
      assert forall i :: 0 <= i < |n| ==> n[i] != ':';
    }
    assert n[|n| - 1] == '8' || n[|n| - 1] == '2';
    assert AnyIPv4[|AnyIPv4| - 1] == '0' && AnyIPv6[|AnyIPv6| - 1] == '0';
  }

  /** Nothing asked of the libraries contradicts the rest. */
  lemma LibrariesCanBeHad()
    ensures exists e: Env, h: string -> string :: Faithful(e) && HostRoutes(e) && Injective(h)
  {
    ghost var inside: (string, string) -> bool := (c, a) => In(c, a);
    var e := Env(_ => true, _ => "x", (_, _) => true, inside, (_, _) => false);
    var h: string -> string := s => s;
    assert AnyIPv6[0] == ':';
    assert forall i :: 0 <= i < |AnyIPv4| ==> AnyIPv4[i] != ':';
    forall cidr, a | inside(cidr, a) ensures FamilyOf(cidr) == FamilyOf(a) {
      if Plain(a) && cidr == Normalize(a) { ColonKept(a); }
    }
    forall a ensures inside(AnyIPv4, a) <==> FamilyOf(a) == "IPv4" {
      if Plain(a) { ColonKept(a); }
    }
    forall a ensures inside(AnyIPv6, a) <==> FamilyOf(a) == "IPv6" {
      if Plain(a) { ColonKept(a); }
    }
    forall a, b | Plain(a) ensures inside(Normalize(a), b) <==> a == b {
      ColonKept(a);
      if Plain(b) && Normalize(a) == Normalize(b) { NormalizeInjective(a, b); }
    }
    assert Faithful(e);
    assert HostRoutes(e);
    assert Injective(h);
  }
}
