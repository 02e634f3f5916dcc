/** pkg/netpol/ruleset.go: translated rules expanded into the single-remote,
    single-range rules Neutron stores - one for every combination of peer, port
    and address family, without repeats, in a fixed order. */
module RuleSets {
  import opened Text
  import opened NetworkPolicy
  import opened Translate
  import Ordering

  /** One Neutron security group rule; exactly one of the two remotes is set. */
  datatype SGRule = SGRule(
    dir: Direction,
    etherType: string,
    protocol: string,
    portMin: int,
    portMax: int,
    remoteCIDR: string,
    remoteAddressGroup: string)

  datatype RuleSet = RuleSet(rules: seq<SGRule>, peers: map<string, PeerSelector>)

  function DirName(d: Direction): string {
    if d.Ingress? then "ingress" else "egress"
  }

  /** What rules are told apart and ordered by. */
  function KeyOf(r: SGRule): string {
    DirName(r.dir) + "|" + KindText(r)
  }

  function KindText(r: SGRule): string {
    r.etherType + "|" + (r.protocol + "|" + PortsText(r))
  }

  function PortsText(r: SGRule): string {
    Decimal(r.portMin) + "|" + (Decimal(r.portMax) + "|" + RemoteText(r))
  }

  function RemoteText(r: SGRule): string {
    r.remoteCIDR + "|" + r.remoteAddressGroup
  }

  predicate KeyLe(a: SGRule, b: SGRule) {
    Ordering.StrLe(KeyOf(a), KeyOf(b))
  }

  const EveryPort := Port("", 0, 0)

  function PortsOf(r: Rule): seq<Port> {
    if r.ports == [] then [EveryPort] else r.ports
  }

  function FamiliesFor(q: Peer): seq<string> {
    if q.cidr != "" then [FamilyOf(q.cidr)] else ["IPv4", "IPv6"]
  }

  function MakeRule(dir: Direction, q: Peer, p: Port, family: string): SGRule {
    SGRule(dir, family, ToLower(p.protocol), p.min, p.max, q.cidr, if q.cidr != "" then "" else q.key)
  }

  // ----- the combinations, in the order the loops meet them -----

  function FamilyRules(dir: Direction, q: Peer, p: Port, families: seq<string>): seq<SGRule> {
    if families == [] then []
    else
      var last := |families| - 1;
      FamilyRules(dir, q, p, families[..last]) + [MakeRule(dir, q, p, families[last])]
  }

  function PortRules(dir: Direction, q: Peer, ports: seq<Port>): seq<SGRule> {
    if ports == [] then []
    else
      var last := |ports| - 1;
      PortRules(dir, q, ports[..last]) + FamilyRules(dir, q, ports[last], FamiliesFor(q))
  }

  function PeerRules(dir: Direction, peers: seq<Peer>, ports: seq<Port>): seq<SGRule> {
    if peers == [] then []
    else
      var last := |peers| - 1;
      PeerRules(dir, peers[..last], ports) + PortRules(dir, peers[last], ports)
  }

  function Combinations(rules: seq<Rule>): seq<SGRule> {
    if rules == [] then []
    else
      var r := rules[|rules| - 1];
      Combinations(rules[..|rules| - 1]) + PeerRules(r.dir, r.peers, PortsOf(r))
  }

  predicate HasKey(s: seq<SGRule>, key: string) {
    exists i :: 0 <= i < |s| && KeyOf(s[i]) == key
  }

  /** Adds rules one at a time, skipping any whose key is already there. */
  function AddAll(d: seq<SGRule>, s: seq<SGRule>): seq<SGRule> {
    if s == [] then d
    else
      var d', x := AddAll(d, s[..|s| - 1]), s[|s| - 1];
      if HasKey(d', KeyOf(x)) then d' else d' + [x]
  }

  lemma {:induction false} AddAllConcat(d: seq<SGRule>, a: seq<SGRule>, b: seq<SGRule>)
    ensures AddAll(d, a + b) == AddAll(AddAll(d, a), b)
  {
    if b == [] {
      assert a + b == a;
    } else {
      assert (a + b)[..|a + b| - 1] == a + b[..|b| - 1];
      AddAllConcat(d, a, b[..|b| - 1]);
    }
  }

  /** The pod sets a list of peers refers to; a later peer of one key replaces
      an earlier one. */
  function PeerMap(peers: seq<Peer>): map<string, PeerSelector> {
    if peers == [] then map[]
    else
      var m, q := PeerMap(peers[..|peers| - 1]), peers[|peers| - 1];
      if q.cidr != "" then m else m[q.key := q.sel]
  }

  function RulePeers(rules: seq<Rule>): map<string, PeerSelector> {
    if rules == [] then map[]
    else RulePeers(rules[..|rules| - 1]) + PeerMap(rules[|rules| - 1].peers)
  }

  function Expansion(rules: seq<Rule>): RuleSet {
    RuleSet(Ordering.Sort(AddAll([], Combinations(rules)), KeyLe), RulePeers(rules))
  }

  function Declared(rules: seq<Rule>, isolates: set<Direction>): seq<Rule> {
    if rules == [] then []
    else
      var last := rules[|rules| - 1];
      Declared(rules[..|rules| - 1], isolates) + (if last.dir in isolates then [last] else [])
  }

  /** What one policy allows, in the directions that same policy isolates. */
  function RulesOfPolicy(t: Translated): RuleSet {
    Expansion(Declared(t.rules, t.isolates))
  }

  // ----- the code -----

  ghost predicate KeysOf(seen: set<string>, s: seq<SGRule>) {
    forall k :: k in seen <==> HasKey(s, k)
  }

  lemma KeysGrow(seen: set<string>, s: seq<SGRule>, x: SGRule)
    requires KeysOf(seen, s)
    ensures KeysOf(seen + {KeyOf(x)}, s + [x])
  {
    forall k ensures k in seen + {KeyOf(x)} <==> HasKey(s + [x], k) {
      if HasKey(s, k) {
        var i :| 0 <= i < |s| && KeyOf(s[i]) == k;
        assert (s + [x])[i] == s[i];
      }
      assert (s + [x])[|s|] == x;
    }
  }

  lemma SeenIs(seen: set<string>, s: seq<SGRule>, key: string)
    requires KeysOf(seen, s)
    ensures key in seen <==> HasKey(s, key)
  {
  }

  lemma FamilyRulesStep(out: seq<SGRule>, dir: Direction, q: Peer, port: Port, families: seq<string>, l: nat)
    requires l < |families|
    ensures AddAll(out, FamilyRules(dir, q, port, families[..l + 1])) ==
              var done, x := AddAll(out, FamilyRules(dir, q, port, families[..l])), MakeRule(dir, q, port, families[l]);
              if HasKey(done, KeyOf(x)) then done else done + [x]
  {
    assert families[..l + 1][..l] == families[..l];
    var before, after := FamilyRules(dir, q, port, families[..l]), FamilyRules(dir, q, port, families[..l + 1]);
    assert after[..|after| - 1] == before;
  }

  method ExpandPort(dir: Direction, q: Peer, port: Port, out: seq<SGRule>, seen: set<string>)
    returns (out': seq<SGRule>, seen': set<string>)
    requires KeysOf(seen, out)
    ensures out' == AddAll(out, FamilyRules(dir, q, port, FamiliesFor(q)))
    ensures KeysOf(seen', out')
  {
    out', seen' := out, seen;
    var families := FamiliesFor(q);
    for l := 0 to |families|
      invariant out' == AddAll(out, FamilyRules(dir, q, port, families[..l]))
      invariant KeysOf(seen', out')
    {
      var rule := SGRule(dir, families[l], ToLower(port.protocol), port.min, port.max, "", "");
      if q.cidr != "" {
        if families[l] != FamilyOf(q.cidr) {
          continue;
        }
        rule := rule.(remoteCIDR := q.cidr);
      } else {
        rule := rule.(remoteAddressGroup := q.key);
      }
      FamilyRulesStep(out, dir, q, port, families, l);
      hide AddAll, FamilyRules, KeysOf;
      var key := KeyOf(rule);
      assert key in seen' <==> HasKey(out', key) by { SeenIs(seen', out', key); }
      if key in seen' {
        continue;
      }
      KeysGrow(seen', out', rule);
      seen' := seen' + {key};
      out' := out' + [rule];
    }
    assert families[..|families|] == families;
  }

  lemma PortRulesStep(out: seq<SGRule>, dir: Direction, q: Peer, ports: seq<Port>, j: nat)
    requires j < |ports|
    ensures AddAll(out, PortRules(dir, q, ports[..j + 1]))
         == AddAll(AddAll(out, PortRules(dir, q, ports[..j])), FamilyRules(dir, q, ports[j], FamiliesFor(q)))
  {
    assert ports[..j + 1][..j] == ports[..j];
    AddAllConcat(out, PortRules(dir, q, ports[..j]), FamilyRules(dir, q, ports[j], FamiliesFor(q)));
  }

  method ExpandPeer(dir: Direction, q: Peer, ports: seq<Port>, out: seq<SGRule>, seen: set<string>)
    returns (out': seq<SGRule>, seen': set<string>)
    requires KeysOf(seen, out)
    ensures out' == AddAll(out, PortRules(dir, q, ports))
    ensures KeysOf(seen', out')
  {
    out', seen' := out, seen;
    for j := 0 to |ports|
      invariant out' == AddAll(out, PortRules(dir, q, ports[..j]))
      invariant KeysOf(seen', out')
    {
      hide AddAll, PortRules, FamilyRules, FamiliesFor, KeysOf;
      PortRulesStep(out, dir, q, ports, j);
      out', seen' := ExpandPort(dir, q, ports[j], out', seen');
    }
    assert ports[..|ports|] == ports;
  }

  lemma PeerMapStep(m: map<string, PeerSelector>, peers: seq<Peer>, j: nat)
    requires j < |peers|
    ensures m + PeerMap(peers[..j + 1])
         == if peers[j].cidr != "" then m + PeerMap(peers[..j])
         else (m + PeerMap(peers[..j]))[peers[j].key := peers[j].sel]
  {
    assert peers[..j + 1][..j] == peers[..j];
  }

  lemma PeerRulesStep(out: seq<SGRule>, dir: Direction, peers: seq<Peer>, ports: seq<Port>, j: nat)
    requires j < |peers|
    ensures AddAll(out, PeerRules(dir, peers[..j + 1], ports))
         == AddAll(AddAll(out, PeerRules(dir, peers[..j], ports)), PortRules(dir, peers[j], ports))
  {
    assert peers[..j + 1][..j] == peers[..j];
    AddAllConcat(out, PeerRules(dir, peers[..j], ports), PortRules(dir, peers[j], ports));
  }

  method ExpandRule(r: Rule, out: seq<SGRule>, seen: set<string>, peers: map<string, PeerSelector>)
    returns (out': seq<SGRule>, seen': set<string>, peers': map<string, PeerSelector>)
    requires KeysOf(seen, out)
    ensures out' == AddAll(out, PeerRules(r.dir, r.peers, PortsOf(r)))
    ensures KeysOf(seen', out')
    ensures peers' == peers + PeerMap(r.peers)
  {
    out', seen', peers' := out, seen, peers;
    var ports := r.ports;
    if |ports| == 0 {
      ports := [EveryPort];
    }
    for j := 0 to |r.peers|
      invariant out' == AddAll(out, PeerRules(r.dir, r.peers[..j], ports))
      invariant KeysOf(seen', out')
      invariant peers' == peers + PeerMap(r.peers[..j])
    {
      hide AddAll, PeerRules, PortRules, PeerMap, KeysOf, HasKey, KeyOf;
      PeerMapStep(peers, r.peers, j);
      PeerRulesStep(out, r.dir, r.peers, ports, j);
      out', seen' := ExpandPeer(r.dir, r.peers[j], ports, out', seen');
      if r.peers[j].cidr == "" {
        peers' := peers'[r.peers[j].key := r.peers[j].sel];
      }
    }
    assert r.peers[..|r.peers|] == r.peers;
  }

  method Expand(rules: seq<Rule>) returns (set': RuleSet)
    ensures set' == Expansion(rules)
  {
    var out: seq<SGRule>, seen: set<string>, peers: map<string, PeerSelector> := [], {}, map[];
    for i := 0 to |rules|
      invariant out == AddAll([], Combinations(rules[..i]))
      invariant KeysOf(seen, out)
      invariant peers == RulePeers(rules[..i])
    {
      assert rules[..i + 1][..i] == rules[..i];
      var r := rules[i];
      AddAllConcat([], Combinations(rules[..i]), PeerRules(r.dir, r.peers, PortsOf(r)));
      out, seen, peers := ExpandRule(r, out, seen, peers);
    }
    assert rules[..|rules|] == rules;
    set' := RuleSet(Ordering.Sort(out, KeyLe), peers);
  }

  method PolicyRules(t: Translated) returns (set': RuleSet)
    ensures set' == RulesOfPolicy(t)
  {
    var keep := [];
    for i := 0 to |t.rules|
      invariant keep == Declared(t.rules[..i], t.isolates)
    {
      assert t.rules[..i + 1][..i] == t.rules[..i];
      if t.rules[i].dir in t.isolates {
        keep := keep + [t.rules[i]];
      }
    }
    assert t.rules[..|t.rules|] == t.rules;
    set' := Expand(keep);
  }
}
