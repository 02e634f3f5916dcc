/** One pass of EnsureRuleSet over the rules of one group, as a function: create
    what is missing, then delete what is no longer wanted, judging both against
    the rules as they were read at the start (pkg/netpol/neutron.go:261-280). */
module RulePass {
  import opened NetworkPolicy
  import opened NeutronStore

  ghost predicate Clash(s: set<NRule>, w: NRule) {
    exists r :: r in s && Alias(r, w)
  }

  ghost predicate Distinct(s: set<NRule>) {
    forall a, b :: a in s && b in s && a != b ==> !Alias(a, b)
  }

  /** Creates the wanted rules the group did not already have, in order; one
      that Neutron reads as a rule present is answered "already exists". */
  ghost function CreateAll(have: set<NRule>, want: seq<NRule>): set<NRule> {
    if want == [] then have
    else
      var done, w := CreateAll(have, want[..|want| - 1]), want[|want| - 1];
      if w in have || Clash(done, w) then done else done + {w}
  }

  lemma CreateAllStep(have: set<NRule>, want: seq<NRule>, i: nat)
    requires i < |want|
    ensures CreateAll(have, want[..i + 1]) ==
              var done := CreateAll(have, want[..i]);
              if want[i] in have || Clash(done, want[i]) then done else done + {want[i]}
  {
    assert want[..i + 1][..i] == want[..i];
  }

  ghost function Stale(have: set<NRule>, want: seq<NRule>): set<NRule> {
    set h | h in have && h !in want
  }

  ghost function Pass(have: set<NRule>, want: seq<NRule>): set<NRule> {
    CreateAll(have, want) - Stale(have, want)
  }

  ghost function Passes(have: set<NRule>, want: seq<NRule>, n: nat): set<NRule> {
    if n == 0 then have else Pass(Passes(have, want, n - 1), want)
  }

  /** What a pass was asked for and does not leave behind: a wanted rule that
      Neutron takes for a rule the same pass goes on to delete. */
  ghost function Lost(have: set<NRule>, want: seq<NRule>): set<NRule> {
    set w | w in want && exists h :: h in Stale(have, want) && Alias(h, w)
  }

  ghost function SetOf(want: seq<NRule>): set<NRule> {
    set w | w in want
  }

  /** Rules as PolicyRules makes them: each names a remote, none repeats. */
  predicate NamesRemote(w: NRule) {
    w.prefix != "" || w.addressGroup != "" || w.remoteGroup != ""
  }

  /** Between the old rules and the new ones: nothing both agree on is missing,
      nothing neither asked for is present, and no old rule is gone before all
      that the pass will leave is there. */
  ghost predicate Between(have: set<NRule>, want: seq<NRule>, now: set<NRule>) {
    have * SetOf(want) <= now <= have + SetOf(want) && (have <= now || Pass(have, want) <= now)
  }

  /** Rules that both name a remote are aliases only when they are one rule. */
  lemma RemotesTellApart(a: NRule, b: NRule)
    ensures NamesRemote(a) && NamesRemote(b) && Alias(a, b) ==> a == b
  {
  }

  // ----- what the create half does -----

  lemma {:induction false} CreateAllBounds(have: set<NRule>, want: seq<NRule>)
    ensures have <= CreateAll(have, want) <= have + SetOf(want)
  {
    if want != [] {
      CreateAllBounds(have, want[..|want| - 1]);
      assert want == want[..|want| - 1] + [want[|want| - 1]];
    }
  }

  lemma {:induction false} CreateAllDistinct(have: set<NRule>, want: seq<NRule>)
    requires Distinct(have)
    ensures Distinct(CreateAll(have, want))
  {
    if want != [] {
      CreateAllDistinct(have, want[..|want| - 1]);
    }
  }

  /** With wanted rules that all name a remote, the creates leave out exactly
      the ones that clash with a rule already there. */
  lemma {:induction false} CreateAllExact(have: set<NRule>, want: seq<NRule>)
    requires Distinct(have) && forall w :: w in want ==> NamesRemote(w)
    ensures forall w :: w in want ==> (w in CreateAll(have, want) <==> w in have || !Clash(have, w))
  {
    if want != [] {
      var init, last := want[..|want| - 1], want[|want| - 1];
      CreateAllExact(have, init);
      CreateAllBounds(have, init);
      var done := CreateAll(have, init);
      assert want == init + [last];
      if last !in have && Clash(done, last) && !Clash(have, last) {
        var r :| r in done && Alias(r, last);
        assert r in init;
        RemotesTellApart(r, last);
        assert last in done;
      }
      forall w | w in want ensures w in CreateAll(have, want) <==> w in have || !Clash(have, w) {
        if w in init { } else { assert w == last; }
      }
    }
  }

  /** Every set the group passes through while it is being created into. */
  lemma CreatingBetween(have: set<NRule>, want: seq<NRule>, i: nat)
    requires i <= |want|
    ensures Between(have, want, CreateAll(have, want[..i]))
  {
    CreateAllBounds(have, want[..i]);
  }

  /** And while it is being deleted from, whichever stale rules have gone. */
  lemma DeletingBetween(have: set<NRule>, want: seq<NRule>, gone: set<NRule>)
    requires gone <= Stale(have, want)
    ensures Between(have, want, CreateAll(have, want) - gone)
  {
    CreateAllBounds(have, want);
  }

  // ----- the theorem -----

  /** One pass ends at the wanted rules less the lost ones - always. */
  lemma PassExact(have: set<NRule>, want: seq<NRule>)
    requires Distinct(have) && forall w :: w in want ==> NamesRemote(w)
    ensures Pass(have, want) == SetOf(want) - Lost(have, want)
  {
    CreateAllBounds(have, want);
    CreateAllExact(have, want);
    forall w | w in want
      ensures w in Pass(have, want) <==> w !in Lost(have, want)
    {
      if w in have {
        assert forall h :: h in Stale(have, want) ==> h != w;
      } else if Clash(have, w) {
        var r :| r in have && Alias(r, w);
        RemotesTellApart(r, w);
        assert r !in want by { assert r != w; }
        assert r in Stale(have, want);
      }
    }
  }

  /** So a single pass converges exactly when no stale rule aliases a wanted one,
      and two passes always do; from then on a pass changes nothing. */
  lemma PassConverges(have: set<NRule>, want: seq<NRule>)
    requires Distinct(have) && forall w :: w in want ==> NamesRemote(w)
    ensures Pass(have, want) == SetOf(want)
       <==> forall h, w :: h in have && h !in want && w in want ==> !Alias(h, w)
    ensures Passes(have, want, 2) == SetOf(want)
    ensures CreateAll(SetOf(want), want) == SetOf(want) && Stale(SetOf(want), want) == {}
  {
    PassExact(have, want);
    assert Lost(have, want) == {} <==> forall h, w :: h in have && h !in want && w in want ==> !Alias(h, w) by {
      if h, w :| h in have && h !in want && w in want && Alias(h, w) {
        assert h in Stale(have, want) && w in Lost(have, want);
      }
    }
    var once := Pass(have, want);
    assert Passes(have, want, 1) == Pass(Passes(have, want, 0), want) == once;
    assert once <= SetOf(want);
    assert Distinct(once) by {
      CreateAllDistinct(have, want);
    }
    PassExact(once, want);
    assert Stale(once, want) == {};
    assert Lost(once, want) == {};
    assert Passes(have, want, 2) == Pass(once, want);
    WantedIsFixed(want, want);
  }

  lemma {:induction false} WantedIsFixed(want: seq<NRule>, part: seq<NRule>)
    requires forall w :: w in part ==> w in want
    ensures CreateAll(SetOf(want), part) == SetOf(want)
  {
    if part != [] {
      WantedIsFixed(want, part[..|part| - 1]);
    }
  }

  /** From rules that all name a remote, one pass ends at the wanted ones. */
  lemma RemotesConverge(have: set<NRule>, want: seq<NRule>)
    requires Distinct(have)
    requires (forall w :: w in want ==> NamesRemote(w)) && forall h :: h in have ==> NamesRemote(h)
    ensures Pass(have, want) == SetOf(want)
  {
    PassExact(have, want);
    forall h, w | h in Stale(have, want) && w in want ensures !Alias(h, w) {
      RemotesTellApart(h, w);
    }
    assert Lost(have, want) == {};
  }

  /** The alias is one thing only: a rule with no remote against the whole
      address space of its family. */
  lemma AliasIs(h: NRule, w: NRule)
    requires NamesRemote(w) && h != w
    ensures Alias(h, w) <==>
            && h.prefix == "" && h.remoteGroup == "" && h.addressGroup == ""
            && w == h.(prefix := AnyPrefix(h.etherType))
  {
  }

  /** A policy allowing all egress meets it on its very first pass: the rule
      Neutron put there answers for the wanted one and is then deleted, so the
      group allows nothing at all until the second pass. */
  lemma FirstPassLosesAllEgress()
    ensures var want := [DefaultEgress("IPv4").(prefix := AnyIPv4), DefaultEgress("IPv6").(prefix := AnyIPv6)];
            Pass(Defaults, want) == {} && Passes(Defaults, want, 2) == SetOf(want)
  {
    var v4, v6 := DefaultEgress("IPv4"), DefaultEgress("IPv6");
    var w4, w6 := v4.(prefix := AnyIPv4), v6.(prefix := AnyIPv6);
    var want := [w4, w6];
    assert Distinct(Defaults) by { assert v4.etherType != v6.etherType; }
    PassConverges(Defaults, want);
    PassExact(Defaults, want);
    assert v4 != w4 && v4 != w6 && v6 != w4 && v6 != w6 by { assert w4.prefix != "" && w6.prefix != ""; }
    assert v4 in Stale(Defaults, want) && v6 in Stale(Defaults, want);
    assert Alias(v4, w4) && Alias(v6, w6);
    assert w4 in Lost(Defaults, want) && w6 in Lost(Defaults, want);
  }
}
