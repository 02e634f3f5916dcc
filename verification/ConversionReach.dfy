/** Why the conversion has two phases: what ports can say to each other through
    it, judged by every rule on both ends, including rules that admit members of
    a group. */
module ConversionReach {
  import opened NetworkPolicy
  import opened NeutronStore
  import opened RuleSync
  import opened Baseline
  import opened AddressSync
  import opened NeutronMeaning
  import opened Conversion

  datatype Wire = Wire(proto: string, port: int)

  /** A rule naming a security group admits the ports that carry it. */
  ghost predicate RemoteAdmits(e: Env, s: Store, b: NRule, other: string, addr: string) {
    if b.remoteGroup != "" then other in s.ports && b.remoteGroup in s.ports[other]
    else if b.addressGroup != "" then InGroup(e, s, b.addressGroup, addr)
    else b.prefix == "" || e.inCIDR(b.prefix, addr)
  }

  ghost predicate RuleAdmits(e: Env, s: Store, b: NRule, dir: Direction, other: string, addr: string, w: Wire) {
    && b.dir == dir && b.etherType == FamilyOf(addr)
    && (b.protocol == "" || b.protocol == w.proto)
    && ((b.portMin == 0 && b.portMax == 0) || b.portMin <= w.port <= b.portMax)
    && RemoteAdmits(e, s, b, other, addr)
  }

  ghost predicate PortAdmits(e: Env, s: Store, p: string, dir: Direction, other: string, addr: string, w: Wire) {
    p in s.ports && exists g, b ::
      g in s.ports[p] && g in s.groups && b in Bodies(s.groups[g].rules) && RuleAdmits(e, s, b, dir, other, addr, w)
  }

  /** The sender's rules let it out and the receiver's let it in. */
  ghost predicate CanTalk(e: Env, s: Store, at: string -> string, a: string, b: string, w: Wire) {
    PortAdmits(e, s, a, Egress, b, at(b), w) && PortAdmits(e, s, b, Ingress, a, at(a), w)
  }

  // ----- attaching -----

  lemma AttachGrows(s: Store, t: Store, list: set<string>, baseline: set<string>, default: string, p: string)
    requires Converting(s, t, Attach, list, baseline, default) && p in s.ports
    ensures forall g :: g in s.ports[p] ==> g in t.ports[p]
  {
    forall g | g in s.ports[p] ensures g in t.ports[p] {
      assert g in Members(s.ports[p]);
      if t.ports[p] != s.ports[p] { assert g in Members(t.ports[p]); }
    }
  }

  lemma AttachAdmits(e: Env, s: Store, t: Store, list: set<string>, baseline: set<string>, default: string,
                     p: string, dir: Direction, other: string, addr: string, w: Wire)
    requires Converting(s, t, Attach, list, baseline, default) && PortAdmits(e, s, p, dir, other, addr, w)
    ensures PortAdmits(e, t, p, dir, other, addr, w)
  {
    var g, b :| g in s.ports[p] && g in s.groups && b in Bodies(s.groups[g].rules)
      && RuleAdmits(e, s, b, dir, other, addr, w);
    AttachGrows(s, t, list, baseline, default, p);
    if other in s.ports { AttachGrows(s, t, list, baseline, default, other); }
    assert RuleAdmits(e, t, b, dir, other, addr, w);
  }

  /** Attaching takes nothing from any pair of ports, in any state on the way,
      under any rules. */
  lemma AttachKeepsTalking(e: Env, s: Store, t: Store, list: set<string>, baseline: set<string>, default: string,
                           at: string -> string, a: string, b: string, w: Wire)
    requires Converting(s, t, Attach, list, baseline, default) && CanTalk(e, s, at, a, b, w)
    ensures CanTalk(e, t, at, a, b, w)
  {
    AttachAdmits(e, s, t, list, baseline, default, a, Egress, b, at(b), w);
    AttachAdmits(e, s, t, list, baseline, default, b, Ingress, a, at(a), w);
  }

  // ----- detaching -----

  lemma OpenPortAdmits(e: Env, s: Store, g: string, p: string, dir: Direction, other: string, addr: string, w: Wire)
    requires Faithful(e) && g in s.groups && OpensOnly(Bodies(s.groups[g].rules), dir) && p in s.ports
    requires g in s.ports[p]
    ensures PortAdmits(e, s, p, dir, other, addr, w)
  {
    var any := AnyRule(dir, FamilyOf(addr));
    var b :| b in Bodies(s.groups[g].rules) && Alias(b, any);
    assert e.inCIDR(AnyPrefix(FamilyOf(addr)), addr);
    assert RuleAdmits(e, s, b, dir, other, addr, w);
  }

  lemma DetachKeepsBaseline(s: Store, t: Store, list: set<string>, baseline: set<string>, default: string, p: string)
    requires Converting(s, t, Detach, list, baseline, default) && p in s.ports && baseline <= Members(s.ports[p])
    ensures baseline <= Members(t.ports[p])
  {
  }

  /** With every capsule port carrying the opening groups, no state of the
      detaching comes between any two of them. */
  lemma DetachKeepsTalking(e: Env, s: Store, t: Store, list: set<string>, ids: BaselineIds, baseline: set<string>,
                           default: string, at: string -> string, a: string, b: string, w: Wire)
    requires Faithful(e) && BaselineHolds(s, ids) && {ids.ingress, ids.egress} <= baseline
    requires forall p :: p in list ==> p in s.ports && baseline <= Members(s.ports[p])
    requires Converting(s, t, Detach, list, baseline, default) && a in list && b in list
    ensures CanTalk(e, t, at, a, b, w)
  {
    DetachKeepsBaseline(s, t, list, baseline, default, a);
    DetachKeepsBaseline(s, t, list, baseline, default, b);
    OpenPortAdmits(e, t, ids.egress, a, Egress, b, at(b), w);
    OpenPortAdmits(e, t, ids.ingress, b, Ingress, a, at(a), w);
  }

  /** The conversion theorem. Take any state `now` of a finished attach phase
      followed by a detach phase under way: two capsule ports that could talk
      before can talk. */
  lemma ConversionKeepsTalking(e: Env, before: Store, attached: Store, now: Store, list: set<string>, ids: BaselineIds,
                               baseline: set<string>, default: string, at: string -> string, a: string, b: string,
                               w: Wire)
    requires Faithful(e) && BaselineHolds(before, ids) && {ids.ingress, ids.egress} <= baseline
    requires Converting(before, attached, Attach, list, baseline, default)
    requires forall p :: p in list ==> Converted(attached, p, Attach, baseline, default)
    requires Converting(attached, now, Detach, list, baseline, default)
    requires a in list && b in list
    ensures CanTalk(e, before, at, a, b, w) ==> CanTalk(e, attached, at, a, b, w) && CanTalk(e, now, at, a, b, w)
  {
    if CanTalk(e, before, at, a, b, w) {
      AttachKeepsTalking(e, before, attached, list, baseline, default, at, a, b, w);
      forall p | p in list ensures p in attached.ports && baseline <= Members(attached.ports[p]) {
        assert Converted(attached, p, Attach, baseline, default);
      }
      DetachKeepsTalking(e, attached, now, list, ids, baseline, default, at, a, b, w);
    }
  }

  /** Nothing but the default group is ever dropped from a port. */
  lemma OnlyDefaultDropped(s: Store, t: Store, phase: Phase, list: set<string>, baseline: set<string>, default: string,
                           p: string, g: string)
    requires Converting(s, t, phase, list, baseline, default) && p in s.ports && g in s.ports[p] && g !in t.ports[p]
    ensures phase == Detach && g == default && p in list && default !in baseline
  {
    assert g in Members(s.ports[p]) && g !in Members(t.ports[p]);
  }

  // ----- what goes wrong otherwise -----

  const InsideOnly := NRule(Ingress, "IPv4", "", 0, 0, "", "d", "")

  function Before(): Store {
    Store(map["d" := SecGroup("default", "", [StoredRule("1", DefaultEgress("IPv4")), StoredRule("2", InsideOnly)]),
              "i" :=
                SecGroup(AllowIngress, "",
                         [StoredRule("3", AnyRule(Ingress, "IPv4")), StoredRule("4", AnyRule(Ingress, "IPv6"))]),
              "e" :=
                SecGroup(AllowEgress, "",
                         [StoredRule("5", AnyRule(Egress, "IPv4")), StoredRule("6", AnyRule(Egress, "IPv6"))])],
          map[], map["a" := ["d"], "b" := ["d"]], 0)
  }

  function MovedAlone(): Store {
    Before().(ports := map["a" := ["e", "i"], "b" := ["d"]])
  }

  /** Detaching first cuts the tenant in half: the port that moved can no longer
      reach the ones still in the default group, which admit members only. The
      same state is what a port outside the conversion sees of it afterwards. */
  lemma DetachFirstBreaks(e: Env, at: string -> string)
    requires Faithful(e) && FamilyOf(at("a")) == "IPv4" && FamilyOf(at("b")) == "IPv4"
    ensures Converting(Before(), MovedAlone(), Detach, {"a", "b"}, {"i", "e"}, "d")
    ensures Converting(Before(), MovedAlone(), Detach, {"a"}, {"i", "e"}, "d")
    ensures CanTalk(e, Before(), at, "a", "b", Wire("tcp", 80))
    ensures !CanTalk(e, MovedAlone(), at, "a", "b", Wire("tcp", 80))
  {
    var s, t, w := Before(), MovedAlone(), Wire("tcp", 80);
    assert Members(["e", "i"]) == {"e", "i"};
    assert Members(["d"]) == {"d"};
    assert Desired(Detach, {"d"}, {"i", "e"}, "d") == {"e", "i"};
    var out := StoredRule("1", DefaultEgress("IPv4"));
    var inside := StoredRule("2", InsideOnly);
    assert s.groups["d"].rules == [out, inside];
    assert out in s.groups["d"].rules && inside in s.groups["d"].rules;
    assert RuleAdmits(e, s, out.body, Egress, "b", at("b"), w);
    assert "d" in s.ports["a"] && "d" in s.ports["b"];
    assert RuleAdmits(e, s, InsideOnly, Ingress, "a", at("a"), w);
    assert PortAdmits(e, s, "a", Egress, "b", at("b"), w);
    assert PortAdmits(e, s, "b", Ingress, "a", at("a"), w);
    forall g, b | g in t.ports["b"] && g in t.groups && b in Bodies(t.groups[g].rules)
      ensures !RuleAdmits(e, t, b, Ingress, "a", at("a"), w)
    {
      assert g == "d";
      assert t.groups["d"].rules == [out, inside];
      assert "d" !in t.ports["a"];
    }
  }
}
