/** Keeping a listener's policies what they should be: existingSignature,
    syncL7Policies and gcStalePools of pkg/ingress/l7.go. */
module RoutingSync {
  import opened Faults
  import opened Text
  import opened Routing
  import Ordering

  /** One policy as the load balancer holds it; the list is in position order. */
  datatype Policy = Policy(name: string, pool: string, rules: seq<L7Rule>)

  /** A policy as it is compared. */
  datatype Desired = Desired(name: string, pool: string, host: string, path: string, pathType: string)

  function Signature(d: Desired): string {
    d.name + "|" + (d.pool + "|" + (d.host + "|" + (d.path + "|" + d.pathType)))
  }

  /** Only the path may hold the separator. */
  predicate Separable(d: Desired) {
    !HasChar(d.name, '|') && !HasChar(d.pool, '|') && !HasChar(d.host, '|') && !HasChar(d.pathType, '|')
  }

  /** Equal signatures are equal policies. */
  lemma SignatureInjective(a: Desired, b: Desired)
    requires Separable(a) && Separable(b) && Signature(a) == Signature(b)
    ensures a == b
  {
    var a3, b3 := a.path + "|" + a.pathType, b.path + "|" + b.pathType;
    var a2, b2 := a.host + "|" + a3, b.host + "|" + b3;
    FirstFieldUnique(a.name, a.pool + "|" + a2, b.name, b.pool + "|" + b2, '|');
    FirstFieldUnique(a.pool, a2, b.pool, b2, '|');
    FirstFieldUnique(a.host, a3, b.host, b3, '|');
    LastFieldUnique(a.path, a.pathType, b.path, b.pathType, '|');
  }

  // ----- rendering and reading back -----

  function Rendered(d: Desired): Policy {
    Policy(d.name, d.pool, RulesFor(Route(0, d.pool, d.host, d.path, d.pathType)))
  }

  function Noted(d: Desired, l: L7Rule): Desired {
    match l
    case OnHost(_, v, _) => d.(host := v)
    case OnPath(c, v, _) => d.(path := v, pathType := if c.EqualTo? then "Exact" else "Prefix")
    case Unread(_) => d
  }

  function ReadRules(d: Desired, rules: seq<L7Rule>): Desired {
    if rules == [] then d else Noted(ReadRules(d, rules[..|rules| - 1]), rules[|rules| - 1])
  }

  function ReadBack(p: Policy): Desired {
    ReadRules(Desired(p.name, p.pool, "", "", ""), p.rules)
  }

  method ExistingSignature(p: Policy) returns (r: string)
    ensures r == Signature(ReadBack(p))
  {
    var got := Desired(p.name, p.pool, "", "", "");
    for i := 0 to |p.rules|
      invariant got == ReadRules(Desired(p.name, p.pool, "", "", ""), p.rules[..i])
    {
      assert p.rules[..i + 1][..i] == p.rules[..i];
      match p.rules[i]
      case OnHost(_, v, _) => got := got.(host := v);
      case OnPath(c, v, _) =>
        got := got.(path := v, pathType := "Prefix");
        if c.EqualTo? {
          got := got.(pathType := "Exact");
        }
      case Unread(_) =>
    }
    assert p.rules[..|p.rules|] == p.rules;
    r := Signature(got);
  }

  /** A policy the load balancer can hold: its path type survives being rendered
      as a rule. */
  predicate Expressible(d: Desired) {
    if d.path == "" then d.pathType == "" else d.pathType in {"Prefix", "Exact"}
  }

  lemma ReadOne(d: Desired, x: L7Rule)
    ensures ReadRules(d, [x]) == Noted(d, x)
  {
    assert [x][..0] == [];
  }

  lemma ReadTwo(d: Desired, x: L7Rule, y: L7Rule)
    ensures ReadRules(d, [x, y]) == Noted(Noted(d, x), y)
  {
    assert [x, y][..1] == [x];
    ReadOne(d, x);
  }

  function PathRule(d: Desired): L7Rule {
    if d.pathType == "Exact" then PathIs(d.path) else PathStarts(d.path)
  }

  lemma ReadRendered(d: Desired)
    ensures ReadBack(Rendered(d)) ==
              Desired(d.name, d.pool, d.host, d.path,
                      if d.path == "" then "" else if d.pathType == "Exact" then "Exact" else "Prefix")
  {
    var none, rules := Desired(d.name, d.pool, "", "", ""), Rendered(d).rules;
    if d.host != "" && d.path != "" {
      assert rules == [HostIs(d.host), PathRule(d)];
      ReadTwo(none, HostIs(d.host), PathRule(d));
    } else if d.host != "" {
      assert rules == [HostIs(d.host)];
      ReadOne(none, HostIs(d.host));
    } else if d.path != "" {
      assert rules == [PathRule(d)];
      ReadOne(none, PathRule(d));
    }
  }

  /** Reading back inverts rendering exactly for these. */
  lemma RoundTrip(d: Desired)
    ensures ReadBack(Rendered(d)) == d <==> Expressible(d)
    ensures Separable(d) ==> Separable(ReadBack(Rendered(d)))
  {
    hide ReadBack, Rendered;
    ReadRendered(d);
  }

  /** In whatever order the two rules are listed. */
  lemma RoundTripSwapped(d: Desired)
    requires Expressible(d) && d.host != "" && d.path != ""
    ensures Rendered(d).rules == [HostIs(d.host), PathRule(d)]
    ensures ReadBack(Rendered(d).(rules := [PathRule(d), HostIs(d.host)])) == d
  {
    ReadTwo(Desired(d.name, d.pool, "", "", ""), PathRule(d), HostIs(d.host));
  }

  // ----- the desired list -----

  function NameOf(lbname: string, i: nat): string {
    lbname + "_l7_" + Decimal(i)
  }

  function Named(lbname: string, routes: seq<Route>): (r: seq<Desired>)
    ensures |r| == |routes|
  {
    seq(|routes|, i requires 0 <= i < |routes| =>
      Desired(NameOf(lbname, i), routes[i].pool, routes[i].host, routes[i].path, routes[i].pathType))
  }

  predicate Ours(lbname: string, name: string) {
    HasPrefix(name, lbname + "_l7_")
  }

  lemma OursNamed(lbname: string, i: nat)
    ensures Ours(lbname, NameOf(lbname, i))
  {
  }

  // ----- the listener -----

  function Foreign(lbname: string, list: seq<Policy>): (r: seq<Policy>)
    ensures forall p :: p in r <==> p in list && !Ours(lbname, p.name)
    ensures forall p :: p in r <==> p in list && !(lbname + "_l7_" <= p.name)
  {
    if list == [] then []
    else
      var before, last := Foreign(lbname, list[..|list| - 1]), list[|list| - 1];
      assert list == list[..|list| - 1] + [last];
      if Ours(lbname, last.name) then before else before + [last]
  }

  lemma {:induction false} ForeignConcat(lbname: string, a: seq<Policy>, b: seq<Policy>)
    ensures Foreign(lbname, a + b) == Foreign(lbname, a) + Foreign(lbname, b)
  {
    if b == [] {
      assert a + b == a;
    } else {
      assert (a + b)[..|a + b| - 1] == a + b[..|b| - 1];
      ForeignConcat(lbname, a, b[..|b| - 1]);
    }
  }

  lemma {:induction false} ForeignNone(lbname: string, a: seq<Policy>)
    requires forall p :: p in a ==> Ours(lbname, p.name)
    ensures Foreign(lbname, a) == []
  {
    if a != [] { ForeignNone(lbname, a[..|a| - 1]); }
  }

  lemma {:induction false} ForeignFixed(lbname: string, a: seq<Policy>)
    requires forall p :: p in a ==> !Ours(lbname, p.name)
    ensures Foreign(lbname, a) == a
  {
    if a != [] {
      assert a == a[..|a| - 1] + [a[|a| - 1]];
      ForeignFixed(lbname, a[..|a| - 1]);
    }
  }

  function Cut(list: seq<Policy>, at: nat): seq<Policy>
    requires at < |list|
  {
    list[..at] + list[at + 1..]
  }

  function Put(list: seq<Policy>, at: nat, p: Policy): seq<Policy>
    requires at <= |list|
  {
    list[..at] + [p] + list[at..]
  }

  class Listener {
    var list: seq<Policy>
    var faults: seq<Fault>
    var writes: nat
    ghost var trace: seq<seq<Policy>>

    constructor (list: seq<Policy>, faults: seq<Fault>)
      ensures this.list == list && this.faults == faults && trace == [list] && writes == 0
    {
      this.list, this.faults, trace, writes := list, faults, [list], 0;
    }

    /** No call is going to fail. */
    predicate Healthy()
      reads this
    {
      forall f :: f in faults ==> f.NoFault?
    }

    method NextFault() returns (f: Fault)
      modifies this`faults
      ensures old(Healthy()) ==> f.NoFault? && Healthy()
    {
      f := NoFault;
      if faults != [] {
        f, faults := faults[0], faults[1..];
      }
    }

    /** Deletes the policy at a place; the ones behind it move up. */
    method Delete(at: nat) returns (ok: bool)
      requires at < |list|
      modifies this
      ensures trace == old(trace) + [list] && writes == old(writes) + 1
      ensures list == old(list) || list == Cut(old(list), at)
      ensures ok ==> list == Cut(old(list), at)
      ensures old(Healthy()) ==> ok && Healthy()
    {
      var f := NextFault();
      if !f.Before? {
        list := Cut(list, at);
      }
      trace, writes := trace + [list], writes + 1;
      ok := f.NoFault?;
    }

    /** Puts a policy, with no rules yet, at a place; the ones from there on move
        down. */
    method Create(at: nat, name: string, pool: string) returns (ok: bool)
      requires at <= |list|
      modifies this
      ensures trace == old(trace) + [list] && writes == old(writes) + 1
      ensures list == old(list) || list == Put(old(list), at, Policy(name, pool, []))
      ensures ok ==> list == Put(old(list), at, Policy(name, pool, []))
      ensures old(Healthy()) ==> ok && Healthy()
    {
      var f := NextFault();
      if !f.Before? {
        list := Put(list, at, Policy(name, pool, []));
      }
      trace, writes := trace + [list], writes + 1;
      ok := f.NoFault?;
    }

    /** Adds one rule to the policy at a place. */
    method AddRule(at: nat, l: L7Rule) returns (ok: bool)
      requires at < |list|
      modifies this
      ensures trace == old(trace) + [list] && writes == old(writes) + 1
      ensures list == old(list) || list == old(list)[at := old(list)[at].(rules := old(list)[at].rules + [l])]
      ensures ok ==> list == old(list)[at := old(list)[at].(rules := old(list)[at].rules + [l])]
      ensures old(Healthy()) ==> ok && Healthy()
    {
      var f := NextFault();
      if !f.Before? {
        list := list[at := list[at].(rules := list[at].rules + [l])];
      }
      trace, writes := trace + [list], writes + 1;
      ok := f.NoFault?;
    }
  }

  /** What was made out-of-band is there, in its order, in every state. */
  ghost predicate ForeignKept(lbname: string, states: seq<seq<Policy>>, k: nat, foreign: seq<Policy>) {
    forall i :: k <= i < |states| ==> Foreign(lbname, states[i]) == foreign
  }

  ghost predicate AllOurs(lbname: string, s: seq<Policy>) {
    forall p :: p in s ==> Ours(lbname, p.name)
  }

  ghost predicate NoneOurs(lbname: string, s: seq<Policy>) {
    forall p :: p in s ==> !Ours(lbname, p.name)
  }

  /** The list once the policies of ours among the first i are gone. */
  function Partly(lbname: string, was: seq<Policy>, i: nat): seq<Policy>
    requires i <= |was|
  {
    Foreign(lbname, was[..i]) + was[i..]
  }

  function KeptSoFar(lbname: string, was: seq<Policy>, i: nat): nat
    requires i <= |was|
  {
    |Foreign(lbname, was[..i])|
  }

  lemma PartlyForeign(lbname: string, was: seq<Policy>, i: nat)
    requires i <= |was|
    ensures Foreign(lbname, Partly(lbname, was, i)) == Foreign(lbname, was)
  {
    assert was == was[..i] + was[i..];
    ForeignConcat(lbname, was[..i], was[i..]);
    ForeignConcat(lbname, Foreign(lbname, was[..i]), was[i..]);
    ForeignFixed(lbname, Foreign(lbname, was[..i]));
  }

  lemma PartlyNext(lbname: string, was: seq<Policy>, i: nat)
    requires i < |was|
    ensures KeptSoFar(lbname, was, i) < |Partly(lbname, was, i)|
    ensures Ours(lbname, was[i].name) ==>
              Partly(lbname, was, i + 1) == Cut(Partly(lbname, was, i), KeptSoFar(lbname, was, i))
              && KeptSoFar(lbname, was, i + 1) == KeptSoFar(lbname, was, i)
    ensures !Ours(lbname, was[i].name) ==>
              Partly(lbname, was, i + 1) == Partly(lbname, was, i)
              && KeptSoFar(lbname, was, i + 1) == KeptSoFar(lbname, was, i) + 1
  {
    var kept := Foreign(lbname, was[..i]);
    assert was[..i + 1][..i] == was[..i];
    assert was[i..] == [was[i]] + was[i + 1..];
    if Ours(lbname, was[i].name) {
      CutBetween(kept, was[i], was[i + 1..]);
    } else {
      assert kept + ([was[i]] + was[i + 1..]) == (kept + [was[i]]) + was[i + 1..];
    }
  }

  lemma PartlyEnds(lbname: string, was: seq<Policy>)
    ensures Partly(lbname, was, 0) == was && KeptSoFar(lbname, was, 0) == 0
    ensures Partly(lbname, was, |was|) == Foreign(lbname, was)
  {
    assert was[..|was|] == was && was[|was|..] == [];
    assert was[..0] == [] && was[0..] == was;
  }

  lemma CutBetween(a: seq<Policy>, x: Policy, b: seq<Policy>)
    ensures Cut(a + ([x] + b), |a|) == a + b
  {
  }

  /** Takes out every policy of ours. */
  method DeleteOurs(l: Listener, lbname: string) returns (ok: bool)
    modifies l
    ensures old(l.trace) <= l.trace
    ensures Foreign(lbname, l.list) == Foreign(lbname, old(l.list))
    ensures ForeignKept(lbname, l.trace, |old(l.trace)|, Foreign(lbname, old(l.list)))
    ensures ok ==> l.list == Foreign(lbname, old(l.list))
    ensures old(l.Healthy()) ==> ok && l.Healthy()
  {
    hide Foreign, Ours, Partly, KeptSoFar, Cut;
    var existing := l.list;
    var kept := 0;
    PartlyEnds(lbname, existing);
    for i := 0 to |existing|
      invariant old(l.trace) <= l.trace
      invariant l.list == Partly(lbname, existing, i) && kept == KeptSoFar(lbname, existing, i)
      invariant Foreign(lbname, l.list) == Foreign(lbname, existing)
      invariant ForeignKept(lbname, l.trace, |old(l.trace)|, Foreign(lbname, existing))
      invariant old(l.Healthy()) ==> l.Healthy()
    {
      PartlyNext(lbname, existing, i);
      PartlyForeign(lbname, existing, i);
      PartlyForeign(lbname, existing, i + 1);
      if !Ours(lbname, existing[i].name) {
        kept := kept + 1;
        continue;
      }
      ok := l.Delete(kept);
      if !ok {
        return;
      }
    }
    ok := true;
  }

  function AllRendered(ds: seq<Desired>): (r: seq<Policy>)
    ensures |r| == |ds|
    ensures forall i :: 0 <= i < |ds| ==> r[i] == Rendered(ds[i])
  {
    seq(|ds|, i requires 0 <= i < |ds| => Rendered(ds[i]))
  }

  lemma OursInFront(lbname: string, made: seq<Policy>, foreign: seq<Policy>)
    requires AllOurs(lbname, made) && NoneOurs(lbname, foreign)
    ensures Foreign(lbname, made + foreign) == foreign
  {
    ForeignConcat(lbname, made, foreign);
    ForeignNone(lbname, made);
    ForeignFixed(lbname, foreign);
  }

  lemma OneMore(lbname: string, made: seq<Policy>, p: Policy, foreign: seq<Policy>)
    requires AllOurs(lbname, made) && NoneOurs(lbname, foreign) && Ours(lbname, p.name)
    ensures Foreign(lbname, made + [p] + foreign) == foreign
    ensures Put(made + foreign, |made|, p) == made + [p] + foreign
  {
    OursInFront(lbname, made + [p], foreign);
  }

  lemma RuleAdded(made: seq<Policy>, p: Policy, q: Policy, foreign: seq<Policy>)
    ensures (made + [p] + foreign)[|made|] == p
    ensures (made + [p] + foreign)[|made| := q] == made + [q] + foreign
  {
  }

  lemma RenderedIs(d: Desired)
    ensures Rendered(d) == Policy(d.name, d.pool, Rendered(d).rules)
  {
  }

  /** Makes one policy and its rules, behind the ones made so far. */
  method CreateOne(l: Listener, lbname: string, d: Desired, ghost made: seq<Policy>, ghost foreign: seq<Policy>,
                   at: nat)
    returns (ok: bool)
    requires at == |made| && l.list == made + foreign && Ours(lbname, d.name)
    requires AllOurs(lbname, made) && NoneOurs(lbname, foreign)
    modifies l
    ensures old(l.trace) <= l.trace
    ensures Foreign(lbname, l.list) == foreign && ForeignKept(lbname, l.trace, |old(l.trace)|, foreign)
    ensures ok ==> l.list == made + [Rendered(d)] + foreign
    ensures old(l.Healthy()) ==> ok && l.Healthy()
  {
    hide Foreign, Rendered, Ours, Put, AllOurs, NoneOurs, RulesFor;
    OursInFront(lbname, made, foreign);
    OneMore(lbname, made, Policy(d.name, d.pool, []), foreign);
    var rules := Rendered(d).rules;
    RenderedIs(d);
    ok := l.Create(at, d.name, d.pool);
    if !ok {
      return;
    }
    ok := AddRules(l, lbname, d.name, d.pool, rules, made, foreign, at);
  }

  /** Adds a policy's rules one by one. */
  method AddRules(l: Listener, lbname: string, name: string, pool: string, rules: seq<L7Rule>,
                  ghost made: seq<Policy>, ghost foreign: seq<Policy>, at: nat)
    returns (ok: bool)
    requires at == |made| && l.list == made + [Policy(name, pool, [])] + foreign && Ours(lbname, name)
    requires AllOurs(lbname, made) && NoneOurs(lbname, foreign)
    modifies l
    ensures old(l.trace) <= l.trace
    ensures Foreign(lbname, l.list) == foreign && ForeignKept(lbname, l.trace, |old(l.trace)|, foreign)
    ensures ok ==> l.list == made + [Policy(name, pool, rules)] + foreign
    ensures old(l.Healthy()) ==> ok && l.Healthy()
  {
    hide Foreign, Ours, AllOurs, NoneOurs;
    OneMore(lbname, made, Policy(name, pool, []), foreign);
    assert rules[..0] == [];
    for j := 0 to |rules|
      invariant old(l.trace) <= l.trace && l.list == made + [Policy(name, pool, rules[..j])] + foreign
      invariant old(l.Healthy()) ==> l.Healthy()
      invariant Foreign(lbname, l.list) == foreign && ForeignKept(lbname, l.trace, |old(l.trace)|, foreign)
    {
      assert rules[..j + 1] == rules[..j] + [rules[j]];
      OneMore(lbname, made, Policy(name, pool, rules[..j + 1]), foreign);
      RuleAdded(made, Policy(name, pool, rules[..j]), Policy(name, pool, rules[..j + 1]), foreign);
      ok := l.AddRule(at, rules[j]);
      if !ok {
        return;
      }
    }
    assert rules[..|rules|] == rules;
    ok := true;
  }

  /** Whether the listener already reads as the desired list. */
  method InStep(list: seq<Policy>, desired: seq<Desired>) returns (r: bool)
    ensures r <==> Agrees(list, desired)
  {
    if |list| != |desired| {
      return false;
    }
    for i := 0 to |list|
      invariant forall j :: 0 <= j < i ==> Signature(ReadBack(list[j])) == Signature(desired[j])
    {
      var got := ExistingSignature(list[i]);
      if got != Signature(desired[i]) {
        return false;
      }
    }
    return true;
  }

  predicate Agrees(list: seq<Policy>, desired: seq<Desired>) {
    |list| == |desired| && forall j :: 0 <= j < |list| ==> Signature(ReadBack(list[j])) == Signature(desired[j])
  }

  /** Brings the listener's policies to the desired list, in order, in front of
      whatever else is there. Whatever fails, what was made out-of-band is never
      touched. A listener that already agrees is not written to. */
  method SyncPolicies(l: Listener, lbname: string, desired: seq<Desired>) returns (ok: bool)
    requires forall i :: 0 <= i < |desired| ==> Ours(lbname, desired[i].name)
    modifies l
    ensures old(l.trace) <= l.trace
    ensures Foreign(lbname, l.list) == Foreign(lbname, old(l.list))
    ensures ForeignKept(lbname, l.trace, |old(l.trace)|, Foreign(lbname, old(l.list)))
    ensures Agrees(old(l.list), desired) ==> l.list == old(l.list) && l.trace == old(l.trace)
                                             && l.writes == old(l.writes)
    ensures ok && !Agrees(old(l.list), desired) ==> l.list == AllRendered(desired) + Foreign(lbname, old(l.list))
    ensures old(l.Healthy()) ==> ok && l.Healthy()
  {
    var f := l.NextFault();
    if f != NoFault {
      return false;
    }
    var match' := InStep(l.list, desired);
    if match' {
      return true;
    }
    ghost var foreign := Foreign(lbname, l.list);
    assert NoneOurs(lbname, foreign);
    ok := DeleteOurs(l, lbname);
    if !ok {
      return;
    }
    ok := CreateAll(l, lbname, desired, foreign);
  }

  /** The desired policies made so far, in front of the rest. */
  function SoFar(desired: seq<Desired>, i: nat): seq<Policy>
    requires i <= |desired|
  {
    AllRendered(desired)[..i]
  }

  lemma SoFarNext(desired: seq<Desired>, i: nat, foreign: seq<Policy>)
    requires i < |desired|
    ensures |SoFar(desired, i)| == i && SoFar(desired, i) + [Rendered(desired[i])] == SoFar(desired, i + 1)
  {
  }

  lemma SoFarEnds(desired: seq<Desired>, foreign: seq<Policy>)
    ensures SoFar(desired, 0) + foreign == foreign && SoFar(desired, |desired|) == AllRendered(desired)
  {
  }

  lemma NoneForeign(lbname: string, foreign: seq<Policy>)
    requires NoneOurs(lbname, foreign)
    ensures Foreign(lbname, foreign) == foreign
  {
    ForeignFixed(lbname, foreign);
  }

  /** Makes them all, in order. */
  method CreateAll(l: Listener, lbname: string, desired: seq<Desired>, ghost foreign: seq<Policy>) returns (ok: bool)
    requires l.list == foreign && NoneOurs(lbname, foreign)
    requires forall i :: 0 <= i < |desired| ==> Ours(lbname, desired[i].name)
    modifies l
    ensures old(l.trace) <= l.trace
    ensures Foreign(lbname, l.list) == foreign && ForeignKept(lbname, l.trace, |old(l.trace)|, foreign)
    ensures ok ==> l.list == AllRendered(desired) + foreign
    ensures old(l.Healthy()) ==> ok && l.Healthy()
  {
    hide Foreign, Rendered, Ours, SoFar, NoneOurs, AllOurs, AllRendered;
    NoneForeign(lbname, foreign);
    SoFarEnds(desired, foreign);
    for i := 0 to |desired|
      invariant old(l.trace) <= l.trace && l.list == SoFar(desired, i) + foreign
      invariant old(l.Healthy()) ==> l.Healthy()
      invariant Foreign(lbname, l.list) == foreign && ForeignKept(lbname, l.trace, |old(l.trace)|, foreign)
    {
      RenderedOurs(lbname, desired, i);
      SoFarNext(desired, i, foreign);
      ok := CreateOne(l, lbname, desired[i], SoFar(desired, i), foreign, i);
      if !ok {
        return;
      }
    }
    ok := true;
  }

  lemma RenderedOurs(lbname: string, desired: seq<Desired>, i: nat)
    requires i <= |desired| && forall j :: 0 <= j < |desired| ==> Ours(lbname, desired[j].name)
    ensures AllOurs(lbname, SoFar(desired, i))
  {
  }

  /** Once in step, a further run writes nothing exactly when nothing is there
      but our policies and each of them can be read back. Otherwise the whole
      list is torn down and made again, every time. */
  lemma SecondRunSilent(lbname: string, desired: seq<Desired>, foreign: seq<Policy>)
    requires forall i :: 0 <= i < |desired| ==> Separable(desired[i])
    ensures Agrees(AllRendered(desired) + foreign, desired)
       <==> foreign == [] && forall i :: 0 <= i < |desired| ==> Expressible(desired[i])
  {
    var list := AllRendered(desired) + foreign;
    forall i | 0 <= i < |desired|
      ensures Signature(ReadBack(list[i])) == Signature(desired[i]) <==> Expressible(desired[i])
    {
      RoundTrip(desired[i]);
      assert list[i] == Rendered(desired[i]);
      if Signature(ReadBack(list[i])) == Signature(desired[i]) {
        SignatureInjective(ReadBack(list[i]), desired[i]);
      }
    }
  }

  /** A route left with its path type as written never settles when that type is
      one the load balancer has no word for. */
  lemma ImplementationSpecificNeverSettles(lbname: string, routes: seq<Route>, i: nat)
    requires i < |routes| && routes[i].pathType == "ImplementationSpecific"
    requires forall j :: 0 <= j < |routes| ==> Separable(Named(lbname, routes)[j])
    ensures !Agrees(AllRendered(Named(lbname, routes)), Named(lbname, routes))
  {
    var desired := Named(lbname, routes);
    SecondRunSilent(lbname, desired, []);
    assert AllRendered(desired) + [] == AllRendered(desired);
    assert !Expressible(desired[i]);
  }

  // ----- collecting pools -----

  datatype Pool = Pool(id: string, name: string)

  predicate Stale(p: Pool, lbname: string, keep: set<string>, default: string) {
    HasPrefix(p.name, lbname + "_") && p.id !in keep && p.id != default
  }

  /** Collecting after the policies are in step never takes a pool one of them
      points at. */
  lemma TargetsNotStale(spec: IngressSpec, lbname: string, pools: map<string, string>, keep: set<string>,
                        default: string, routes: seq<Route>, i: nat, p: Pool)
    requires pools.Values <= keep && routes == Ordering.Sort(Manifest(spec.rules, lbname, pools), LongerFirst)
    requires i < |routes| && p.id == AllRendered(Named(lbname, routes))[i].pool
    ensures !Stale(p, lbname, keep, default)
  {
    ManifestPools(spec.rules, lbname, pools);
    Ordering.SortMembers(Manifest(spec.rules, lbname, pools), LongerFirst);
    assert routes[i] in routes;
  }

  /** Removes the pools of ours that nothing refers to; `refuses` are the ones
      the load balancer will not let go. */
  method GcStalePools(all: seq<Pool>, lbname: string, keep: set<string>, default: string, refuses: set<string>)
    returns (ok: bool, left: seq<Pool>)
    ensures forall p :: p in all && !(lbname + "_" <= p.name && p.id !in keep && p.id != default) ==> p in left
    ensures forall p :: p in left ==> p in all
    ensures ok ==> forall p :: p in left ==> !(lbname + "_" <= p.name && p.id !in keep && p.id != default)
    ensures ok <==> forall p :: p in all && lbname + "_" <= p.name && p.id !in keep && p.id != default ==>
                                p.id !in refuses
  {
    left := [];
    for i := 0 to |all|
      invariant forall p :: p in left <==> p in all[..i] && !Stale(p, lbname, keep, default)
      invariant forall p :: p in all[..i] && Stale(p, lbname, keep, default) ==> p.id !in refuses
    {
      assert all[..i + 1] == all[..i] + [all[i]];
      if !HasPrefix(all[i].name, lbname + "_") || all[i].id in keep || all[i].id == default {
        left := left + [all[i]];
        continue;
      }
      if all[i].id in refuses {
        assert all == all[..i] + all[i..];
        return false, left + all[i..];
      }
    }
    assert all[..|all|] == all;
    return true, left;
  }
}
