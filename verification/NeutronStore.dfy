/** The part of Neutron pkg/netpol talks to, as a store with the answers the
    client tells apart: done, already so (409), gone (404), anything else. */
module NeutronStore {
  import opened Text
  import opened NetworkPolicy

  datatype NRule = NRule(
    dir: Direction,
    etherType: string,
    protocol: string,
    portMin: int,
    portMax: int,
    prefix: string,
    remoteGroup: string,
    addressGroup: string)

  datatype StoredRule = StoredRule(id: string, body: NRule)

  datatype SecGroup = SecGroup(name: string, description: string, rules: seq<StoredRule>)

  datatype AddressGroup = AddressGroup(name: string, addresses: set<string>)

  /** next numbers the ids still to be given out; ids are never reused. */
  datatype Store = Store(
    groups: map<string, SecGroup>,
    addressGroups: map<string, AddressGroup>,
    ports: map<string, seq<string>>,
    next: nat)

  datatype Answer = Done | Conflict | Gone | Failed

  function IdOf(n: nat): string {
    "id-" + Decimal(n)
  }

  lemma IdInjective(m: nat, n: nat)
    requires IdOf(m) == IdOf(n)
    ensures m == n
  {
    assert Decimal(m) == IdOf(m)[3..] == IdOf(n)[3..] == Decimal(n);
    DecimalInjective(m, n);
  }

  lemma IdsApart(m: nat, n: nat)
    requires m != n
    ensures IdOf(m) != IdOf(n)
  {
    if IdOf(m) == IdOf(n) { IdInjective(m, n); }
  }

  function Bodies(rules: seq<StoredRule>): set<NRule> {
    set r | r in rules :: r.body
  }

  /** The two rules Neutron adds to every group it creates. */
  function DefaultEgress(family: string): NRule {
    NRule(Egress, family, "", 0, 0, "", "", "")
  }

  const Defaults: set<NRule> := {DefaultEgress("IPv4"), DefaultEgress("IPv6")}

  function AnyPrefix(family: string): string {
    if family == "IPv6" then AnyIPv6 else AnyIPv4
  }

  /** A rule naming no remote at all is the same rule to Neutron as one naming
      the whole address space of its family. */
  function Canon(r: NRule): NRule {
    if r.prefix == "" && r.remoteGroup == "" && r.addressGroup == "" then r.(prefix := AnyPrefix(r.etherType)) else r
  }

  predicate Alias(a: NRule, b: NRule) {
    Canon(a) == Canon(b)
  }

  predicate NoAliases(rules: seq<StoredRule>) {
    forall i, j :: 0 <= i < j < |rules| ==> !Alias(rules[i].body, rules[j].body) && rules[i].id != rules[j].id
  }

  /** What Neutron keeps true of itself: unused ids are unused, no group holds
      one rule twice, and a rule's address group exists. */
  ghost predicate ValidStore(s: Store) {
    && (forall n: nat :: n >= s.next ==> IdOf(n) !in s.groups && IdOf(n) !in s.addressGroups)
    && (forall g, i, n: nat :: g in s.groups && 0 <= i < |s.groups[g].rules| && n >= s.next ==>
          s.groups[g].rules[i].id != IdOf(n))
    && (forall g :: g in s.groups ==> NoAliases(s.groups[g].rules))
    && References(s)
    && "" !in s.groups && "" !in s.addressGroups
  }

  /** Every address group a rule names exists. */
  ghost predicate References(s: Store) {
    forall g, i :: g in s.groups && 0 <= i < |s.groups[g].rules| && s.groups[g].rules[i].body.addressGroup != "" ==>
      s.groups[g].rules[i].body.addressGroup in s.addressGroups
  }

  // ----- the calls -----

  function DefaultRules(n: nat): seq<StoredRule> {
    [StoredRule(IdOf(n + 1), DefaultEgress("IPv4")), StoredRule(IdOf(n + 2), DefaultEgress("IPv6"))]
  }

  function CreateGroup(s: Store, name: string, description: string): Store {
    s.(groups := s.groups[IdOf(s.next) := SecGroup(name, description, DefaultRules(s.next))], next := s.next + 3)
  }

  function Describe(s: Store, g: string, description: string): (Store, Answer) {
    if g !in s.groups then (s, Failed)
    else (s.(groups := s.groups[g := s.groups[g].(description := description)]), Done)
  }

  predicate HoldsAlias(rules: seq<StoredRule>, body: NRule) {
    exists i :: 0 <= i < |rules| && Alias(rules[i].body, body)
  }

  function CreateRule(s: Store, g: string, body: NRule): (Store, Answer) {
    if g !in s.groups || (body.addressGroup != "" && body.addressGroup !in s.addressGroups) then (s, Failed)
    else if HoldsAlias(s.groups[g].rules, body) then (s, Conflict)
    else
      var rules := s.groups[g].rules + [StoredRule(IdOf(s.next), body)];
      (s.(groups := s.groups[g := s.groups[g].(rules := rules)], next := s.next + 1), Done)
  }

  function Without(rules: seq<StoredRule>, id: string): seq<StoredRule> {
    if rules == [] then []
    else
      var last := rules[|rules| - 1];
      Without(rules[..|rules| - 1], id) + (if last.id == id then [] else [last])
  }

  function DeleteRule(s: Store, g: string, id: string): (Store, Answer) {
    if g !in s.groups || (forall i :: 0 <= i < |s.groups[g].rules| ==> s.groups[g].rules[i].id != id) then (s, Gone)
    else (s.(groups := s.groups[g := s.groups[g].(rules := Without(s.groups[g].rules, id))]), Done)
  }

  predicate OnPort(s: Store, g: string) {
    exists p :: p in s.ports && g in s.ports[p]
  }

  function DeleteGroup(s: Store, g: string): (Store, Answer) {
    if g !in s.groups then (s, Gone)
    else if OnPort(s, g) then (s, Conflict)
    else (s.(groups := s.groups - {g}), Done)
  }

  predicate Named(rules: seq<StoredRule>, a: string) {
    exists i :: 0 <= i < |rules| && rules[i].body.addressGroup == a
  }

  predicate Referenced(s: Store, a: string) {
    exists g :: g in s.groups && Named(s.groups[g].rules, a)
  }

  function CreateAddressGroup(s: Store, name: string): Store {
    s.(addressGroups := s.addressGroups[IdOf(s.next) := AddressGroup(name, {})], next := s.next + 1)
  }

  function DeleteAddressGroup(s: Store, a: string): (Store, Answer) {
    if a !in s.addressGroups then (s, Gone)
    else if Referenced(s, a) then (s, Conflict)
    else (s.(addressGroups := s.addressGroups - {a}), Done)
  }

  /** Adding answers "already so" when any address is there already; removing
      when any is not. Neither then changes anything. */
  function AddAddresses(s: Store, a: string, add: set<string>): (Store, Answer) {
    if a !in s.addressGroups then (s, Failed)
    else if s.addressGroups[a].addresses * add != {} then (s, Conflict)
    else
      var all := s.addressGroups[a].addresses + add;
      (s.(addressGroups := s.addressGroups[a := s.addressGroups[a].(addresses := all)]), Done)
  }

  function RemoveAddresses(s: Store, a: string, remove: set<string>): (Store, Answer) {
    if a !in s.addressGroups then (s, Failed)
    else if !(remove <= s.addressGroups[a].addresses) then (s, Conflict)
    else
      var left := s.addressGroups[a].addresses - remove;
      (s.(addressGroups := s.addressGroups[a := s.addressGroups[a].(addresses := left)]), Done)
  }

  function UpdatePort(s: Store, p: string, groups: seq<string>): (Store, Answer) {
    if p !in s.ports || exists g :: g in groups && g !in s.groups then (s, Failed)
    else (s.(ports := s.ports[p := groups]), Done)
  }

  // ----- every call keeps the store valid -----

  lemma {:induction false} WithoutAre(rules: seq<StoredRule>, id: string)
    ensures forall r :: r in Without(rules, id) <==> r in rules && r.id != id
    ensures |Without(rules, id)| <= |rules|
  {
    if rules != [] {
      WithoutAre(rules[..|rules| - 1], id);
      assert rules == rules[..|rules| - 1] + [rules[|rules| - 1]];
    }
  }

  lemma {:induction false} WithoutKeepsDistinct(rules: seq<StoredRule>, id: string)
    requires NoAliases(rules)
    ensures NoAliases(Without(rules, id))
  {
    if rules != [] {
      var init, last := rules[..|rules| - 1], rules[|rules| - 1];
      WithoutKeepsDistinct(init, id);
      WithoutAre(init, id);
      var t := Without(init, id);
      forall i | 0 <= i < |t| ensures !Alias(t[i].body, last.body) && t[i].id != last.id {
        assert t[i] in init;
        var k :| 0 <= k < |init| && init[k] == t[i];
        assert rules[k] == init[k];
      }
    }
  }

  /** A group's rules are told apart by id and by body alike. */
  lemma RuleById(rules: seq<StoredRule>, k: nat, r: StoredRule)
    requires NoAliases(rules) && k < |rules| && r in rules
    ensures r.id == rules[k].id <==> r == rules[k]
    ensures r.body == rules[k].body <==> r == rules[k]
  {
    var i :| 0 <= i < |rules| && rules[i] == r;
    if i < k { assert !Alias(rules[i].body, rules[k].body); }
    if k < i { assert !Alias(rules[k].body, rules[i].body); }
  }

  /** Deleting by id takes out that one rule's body and nothing else. */
  lemma WithoutBodies(rules: seq<StoredRule>, k: nat)
    requires NoAliases(rules) && k < |rules|
    ensures Bodies(Without(rules, rules[k].id)) == Bodies(rules) - {rules[k].body}
  {
    var id := rules[k].id;
    WithoutAre(rules, id);
    var left := Without(rules, id);
    hide NoAliases, Without;
    forall r | r in rules { RuleById(rules, k, r); }
    forall b | b in Bodies(rules) ensures b in Bodies(left) <==> b != rules[k].body {
      var r :| r in rules && r.body == b;
    }
  }

  lemma DefaultRulesAre(n: nat)
    ensures NoAliases(DefaultRules(n)) && Bodies(DefaultRules(n)) == Defaults
    ensures forall i :: 0 <= i < |DefaultRules(n)| ==> DefaultRules(n)[i].body.addressGroup == ""
    ensures forall i, m: nat :: 0 <= i < |DefaultRules(n)| && m >= n + 3 ==> DefaultRules(n)[i].id != IdOf(m)
    ensures forall m: nat :: m >= n + 3 ==> IdOf(m) != IdOf(n)
  {
    var rules := DefaultRules(n);
    assert DefaultEgress("IPv4").etherType != DefaultEgress("IPv6").etherType;
    IdsApart(n + 1, n + 2);
    hide IdOf;
    forall m: nat | m >= n + 3 ensures IdOf(m) != IdOf(n) && IdOf(m) != IdOf(n + 1) && IdOf(m) != IdOf(n + 2) {
      IdsApart(m, n);
      IdsApart(m, n + 1);
      IdsApart(m, n + 2);
    }
    assert Bodies(rules) == {rules[0].body, rules[1].body};
  }

  lemma CreateGroupValid(s: Store, name: string, description: string)
    requires ValidStore(s)
    ensures ValidStore(CreateGroup(s, name, description))
    ensures IdOf(s.next) !in s.groups && IdOf(s.next) != ""
    ensures Bodies(CreateGroup(s, name, description).groups[IdOf(s.next)].rules) == Defaults
  {
    hide IdOf, DefaultRules, NoAliases, Bodies;
    DefaultRulesAre(s.next);
    IdNotEmpty(s.next);
    var t := CreateGroup(s, name, description);
    forall g, i, n: nat | g in t.groups && 0 <= i < |t.groups[g].rules| && n >= t.next
      ensures t.groups[g].rules[i].id != IdOf(n)
    {
      if g != IdOf(s.next) { assert g in s.groups && t.groups[g] == s.groups[g]; }
    }
    assert References(t);
  }

  lemma IdNotEmpty(n: nat)
    ensures IdOf(n) != ""
  {
  }

  lemma CreateRuleValid(s: Store, g: string, body: NRule)
    requires ValidStore(s)
    ensures ValidStore(CreateRule(s, g, body).0)
    ensures CreateRule(s, g, body).1.Done? ==>
              Bodies(CreateRule(s, g, body).0.groups[g].rules) == Bodies(s.groups[g].rules) + {body}
  {
    var (t, a) := CreateRule(s, g, body);
    if a.Done? {
      var old_, new_ := s.groups[g].rules, t.groups[g].rules;
      hide IdOf, Alias;
      forall n: nat | n >= t.next ensures IdOf(n) != IdOf(s.next) {
        IdsApart(n, s.next);
      }
      assert NoAliases(new_) by {
        forall i, j | 0 <= i < j < |new_| ensures !Alias(new_[i].body, new_[j].body) && new_[i].id != new_[j].id {
          if j == |old_| { assert new_[j].body == body && new_[i] == old_[i]; }
        }
      }
      assert new_ == old_ + [StoredRule(IdOf(s.next), body)];
    }
  }

  lemma DeleteRuleValid(s: Store, g: string, id: string)
    requires ValidStore(s)
    ensures ValidStore(DeleteRule(s, g, id).0)
  {
    var (t, a) := DeleteRule(s, g, id);
    if a.Done? {
      var rules := s.groups[g].rules;
      WithoutAre(rules, id);
      WithoutKeepsDistinct(rules, id);
      forall i | 0 <= i < |t.groups[g].rules|
        ensures exists k :: 0 <= k < |rules| && rules[k] == t.groups[g].rules[i]
      {
        assert t.groups[g].rules[i] in rules;
      }
    }
  }

  lemma DeleteGroupValid(s: Store, g: string)
    requires ValidStore(s)
    ensures ValidStore(DeleteGroup(s, g).0)
  {
  }

  lemma DeleteAddressGroupValid(s: Store, a: string)
    requires ValidStore(s)
    ensures ValidStore(DeleteAddressGroup(s, a).0)
  {
    var t := DeleteAddressGroup(s, a).0;
    forall g, i | g in t.groups && 0 <= i < |t.groups[g].rules| && t.groups[g].rules[i].body.addressGroup != ""
      ensures t.groups[g].rules[i].body.addressGroup in t.addressGroups
    {
      if t != s { assert !Named(s.groups[g].rules, a); }
    }
  }

  lemma CreateAddressGroupValid(s: Store, name: string)
    requires ValidStore(s)
    ensures ValidStore(CreateAddressGroup(s, name))
    ensures IdOf(s.next) !in s.addressGroups && IdOf(s.next) != ""
  {
    forall n: nat | n >= s.next + 1 ensures IdOf(n) != IdOf(s.next) {
      if IdOf(n) == IdOf(s.next) { IdInjective(n, s.next); }
    }
  }

  lemma OtherCallsValid(s: Store, x: string, d: string, addrs: set<string>, groups: seq<string>)
    requires ValidStore(s)
    ensures ValidStore(Describe(s, x, d).0)
    ensures ValidStore(AddAddresses(s, x, addrs).0)
    ensures ValidStore(RemoveAddresses(s, x, addrs).0)
    ensures ValidStore(UpdatePort(s, x, groups).0)
  {
  }

  function PortWritten(s: Store, p: string, list: seq<string>): Store {
    UpdatePort(s, p, list).0
  }

  /** Writing a port and any call the policy worker makes have the same effect in
      either order, so a pass may be taken as one step beside the pod worker. */
  lemma PortWritesCommute(s: Store, p: string, list: seq<string>, g: string, body: NRule, id: string)
    requires p in s.ports && forall x :: x in list ==> x in s.groups
    ensures CreateRule(PortWritten(s, p, list), g, body).0 == PortWritten(CreateRule(s, g, body).0, p, list)
    ensures DeleteRule(PortWritten(s, p, list), g, id).0 == PortWritten(DeleteRule(s, g, id).0, p, list)
  {
    hide Without, HoldsAlias;
  }

  lemma PortWritesCommuteWithGroups(s: Store, p: string, list: seq<string>, g: string, name: string,
                                    description: string)
    requires p in s.ports && forall x :: x in list ==> x in s.groups
    ensures CreateGroup(PortWritten(s, p, list), name, description) ==
              PortWritten(CreateGroup(s, name, description), p, list)
    ensures Describe(PortWritten(s, p, list), g, description).0 == PortWritten(Describe(s, g, description).0, p, list)
  {
    hide IdOf, DefaultRules;
  }

  lemma PortWritesCommuteWithSets(s: Store, p: string, list: seq<string>, name: string, a: string, addrs: set<string>)
    requires p in s.ports && forall x :: x in list ==> x in s.groups
    ensures CreateAddressGroup(PortWritten(s, p, list), name) == PortWritten(CreateAddressGroup(s, name), p, list)
    ensures AddAddresses(PortWritten(s, p, list), a, addrs).0 == PortWritten(AddAddresses(s, a, addrs).0, p, list)
    ensures RemoveAddresses(PortWritten(s, p, list), a, addrs).0 == PortWritten(RemoveAddresses(s, a, addrs).0, p, list)
  {
    hide IdOf;
  }
}
