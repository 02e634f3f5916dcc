/** pkg/netpol/translate.go: a policy reduced to what the substrate can carry,
    with everything it cannot carry refused rather than widened. */
module Translate {
  import opened Wrappers
  import opened NetworkPolicy

  /** A resolved pod set. An empty namespace means the namespaces selector
      decides; an absent selector matches everything. */
  datatype PeerSelector = PeerSelector(
    namespace: string,
    namespaces: Option<LabelSelector>,
    pods: Option<LabelSelector>)

  /** A CIDR, or (when cidr is empty) a pod set named by its key. */
  datatype Peer = Peer(cidr: string, key: string, sel: PeerSelector)

  datatype Port = Port(protocol: string, min: int, max: int)

  datatype Rule = Rule(dir: Direction, peers: seq<Peer>, ports: seq<Port>)

  datatype Reason = ExceptInBlock | BadSelector | EmptyPeer | NamedPort | SctpProtocol

  datatype Refusal = Refusal(dir: Direction, rule: nat, at: nat, reason: Reason)

  datatype Translated = Translated(
    isolates: set<Direction>,
    subject: LabelSelector,
    rules: seq<Rule>,
    refused: seq<Refusal>)

  datatype Error = SubjectSelector

  const NoSelector := PeerSelector("", None, None)

  // ----- what can be said -----

  /** Why a peer cannot be expressed, if it cannot. */
  function PeerRefusal(e: Env, q: PolicyPeer): Option<Reason> {
    if q.ipBlock.Some? then
      if q.ipBlock.value.except != [] then Some(ExceptInBlock) else None
    else if q.podSelector.Some? || q.namespaceSelector.Some? then
      if (q.namespaceSelector.Some? && !e.valid(q.namespaceSelector.value))
         || (q.podSelector.Some? && !e.valid(q.podSelector.value))
      then Some(BadSelector) else None
    else Some(EmptyPeer)
  }

  function PortRefusal(p: PolicyPort): Option<Reason> {
    if p.port.Some? && p.port.value.Named? then Some(NamedPort)
    else if ProtocolOf(p) == "SCTP" then Some(SctpProtocol)
    else None
  }

  /** Names a pod set, so that rules asking for one set share one address
      group. A missing namespace selector is the policy's own namespace. */
  function SelectorKey(e: Env, ns: string, q: PolicyPeer): string {
    var scope := if q.namespaceSelector.Some? then "nsSelector=" + e.render(q.namespaceSelector.value)
                 else "ns=" + ns;
    var pods := if q.podSelector.Some? then e.render(q.podSelector.value) else "all";
    scope + ";pods=" + pods
  }

  function ResolvePeer(ns: string, q: PolicyPeer): PeerSelector {
    if q.namespaceSelector.None? then PeerSelector(ns, None, q.podSelector)
    else PeerSelector("", q.namespaceSelector, q.podSelector)
  }

  function CompilePeer(e: Env, ns: string, q: PolicyPeer): Peer {
    if q.ipBlock.Some? then Peer(q.ipBlock.value.cidr, "", NoSelector)
    else Peer("", SelectorKey(e, ns, q), ResolvePeer(ns, q))
  }

  function CompilePort(p: PolicyPort): Port {
    var low := if p.port.Some? && p.port.value.Number? then p.port.value.n else 0;
    Port(ProtocolOf(p), low, if p.endPort.Some? then p.endPort.value else low)
  }

  const Everywhere := [Peer(AnyIPv4, "", NoSelector), Peer(AnyIPv6, "", NoSelector)]

  // ----- the expressible part of a policy -----

  function KeptPeers(e: Env, s: seq<PolicyPeer>): seq<PolicyPeer> {
    if s == [] then []
    else KeptPeers(e, s[..|s| - 1]) + (if PeerRefusal(e, s[|s| - 1]).None? then [s[|s| - 1]] else [])
  }

  function KeptPorts(s: seq<PolicyPort>): seq<PolicyPort> {
    if s == [] then []
    else KeptPorts(s[..|s| - 1]) + (if PortRefusal(s[|s| - 1]).None? then [s[|s| - 1]] else [])
  }

  /** A rule with its inexpressible peers and ports taken out; nothing when
      that would leave an emptied list, which would mean "any". */
  function StripRule(e: Env, r: PolicyRule): Option<PolicyRule> {
    var peers, ports := KeptPeers(e, r.peers), KeptPorts(r.ports);
    if (r.peers != [] && peers == []) || (r.ports != [] && ports == []) then None
    else Some(PolicyRule(peers, ports))
  }

  function StripRules(e: Env, s: seq<PolicyRule>): seq<PolicyRule> {
    if s == [] then []
    else
      StripRules(e, s[..|s| - 1])
      + match StripRule(e, s[|s| - 1]) case None => [] case Some(r) => [r]
  }

  /** The policy that is left once everything refused is taken out. */
  function Strip(e: Env, p: Policy): Policy {
    p.(types := EffectiveTypes(p), ingress := StripRules(e, p.ingress), egress := StripRules(e, p.egress))
  }

  // ----- the translation as a function -----

  function CompilePeers(e: Env, ns: string, s: seq<PolicyPeer>): (r: seq<Peer>)
    ensures |r| == |s|
    ensures forall i :: 0 <= i < |s| ==> r[i] == CompilePeer(e, ns, s[i])
  {
    seq(|s|, i requires 0 <= i < |s| => CompilePeer(e, ns, s[i]))
  }

  function CompilePorts(s: seq<PolicyPort>): (r: seq<Port>)
    ensures |r| == |s|
    ensures forall i :: 0 <= i < |s| ==> r[i] == CompilePort(s[i])
  {
    seq(|s|, i requires 0 <= i < |s| => CompilePort(s[i]))
  }

  function CompileRule(e: Env, ns: string, dir: Direction, r: PolicyRule): Rule {
    Rule(dir, if r.peers == [] then Everywhere else CompilePeers(e, ns, r.peers), CompilePorts(r.ports))
  }

  function CompileRules(e: Env, ns: string, dir: Direction, s: seq<PolicyRule>): (out: seq<Rule>)
    ensures |out| == |s|
    ensures forall i :: 0 <= i < |s| ==> out[i] == CompileRule(e, ns, dir, s[i])
  {
    seq(|s|, i requires 0 <= i < |s| => CompileRule(e, ns, dir, s[i]))
  }

  function PeerRefusals(e: Env, dir: Direction, index: nat, s: seq<PolicyPeer>): seq<Refusal> {
    if s == [] then []
    else
      PeerRefusals(e, dir, index, s[..|s| - 1])
      + match PeerRefusal(e, s[|s| - 1]) case None => [] case Some(why) => [Refusal(dir, index, |s| - 1, why)]
  }

  function PortRefusals(dir: Direction, index: nat, s: seq<PolicyPort>): seq<Refusal> {
    if s == [] then []
    else
      PortRefusals(dir, index, s[..|s| - 1])
      + match PortRefusal(s[|s| - 1]) case None => [] case Some(why) => [Refusal(dir, index, |s| - 1, why)]
  }

  function RuleRefusals(e: Env, dir: Direction, s: seq<PolicyRule>): seq<Refusal> {
    if s == [] then []
    else
      var last := |s| - 1;
      RuleRefusals(e, dir, s[..last])
      + (PeerRefusals(e, dir, last, s[last].peers) + PortRefusals(dir, last, s[last].ports))
  }

  function Isolates(types: seq<PolicyType>): set<Direction> {
    (if TypeIngress in types then {Ingress} else {}) + (if TypeEgress in types then {Egress} else {})
  }

  /** Compile what is left after stripping; report what was stripped. */
  function Translation(e: Env, p: Policy): Result<Translated, Error> {
    if !e.valid(p.podSelector) then Err(SubjectSelector)
    else
      Ok(Translated(
           Isolates(EffectiveTypes(p)),
           p.podSelector,
           CompileRules(e, p.namespace, Ingress, StripRules(e, p.ingress))
           + CompileRules(e, p.namespace, Egress, StripRules(e, p.egress)),
           RuleRefusals(e, Ingress, p.ingress) + RuleRefusals(e, Egress, p.egress)))
  }

  // ----- the code -----

  lemma KeptPeersStep(e: Env, ns: string, dir: Direction, index: nat, peers: seq<PolicyPeer>, i: nat)
    requires i < |peers|
    ensures CompilePeers(e, ns, KeptPeers(e, peers[..i + 1]))
         == CompilePeers(e, ns, KeptPeers(e, peers[..i]))
            + (if PeerRefusal(e, peers[i]).None? then [CompilePeer(e, ns, peers[i])] else [])
    ensures PeerRefusals(e, dir, index, peers[..i + 1])
         == PeerRefusals(e, dir, index, peers[..i])
            + match PeerRefusal(e, peers[i]) case None => [] case Some(why) => [Refusal(dir, index, i, why)]
  {
    assert peers[..i + 1][..i] == peers[..i];
  }

  lemma KeptPortsStep(dir: Direction, index: nat, ports: seq<PolicyPort>, i: nat)
    requires i < |ports|
    ensures CompilePorts(KeptPorts(ports[..i + 1]))
         == CompilePorts(KeptPorts(ports[..i])) + (if PortRefusal(ports[i]).None? then [CompilePort(ports[i])] else [])
    ensures PortRefusals(dir, index, ports[..i + 1])
         == PortRefusals(dir, index, ports[..i])
            + match PortRefusal(ports[i]) case None => [] case Some(why) => [Refusal(dir, index, i, why)]
  {
    assert ports[..i + 1][..i] == ports[..i];
  }

  method TranslatePeer(e: Env, ns: string, peer: PolicyPeer) returns (out: Peer, why: Option<Reason>)
    ensures why == PeerRefusal(e, peer)
    ensures why.None? ==> out == CompilePeer(e, ns, peer)
  {
    out, why := Peer("", "", NoSelector), None;
    if peer.ipBlock.Some? {
      if |peer.ipBlock.value.except| > 0 {
        why := Some(ExceptInBlock);
        return;
      }
      out := Peer(peer.ipBlock.value.cidr, "", NoSelector);
    } else if peer.podSelector.Some? || peer.namespaceSelector.Some? {
      if (peer.namespaceSelector.Some? && !e.valid(peer.namespaceSelector.value))
         || (peer.podSelector.Some? && !e.valid(peer.podSelector.value)) {
        why := Some(BadSelector);
        return;
      }
      out := Peer("", SelectorKey(e, ns, peer), ResolvePeer(ns, peer));
    } else {
      why := Some(EmptyPeer);
    }
  }

  method TranslatePort(p: PolicyPort) returns (out: Port, why: Option<Reason>)
    ensures why == PortRefusal(p)
    ensures why.None? ==> out == CompilePort(p)
  {
    out, why := Port("TCP", 0, 0), None;
    if p.port.Some? && p.port.value.Named? {
      why := Some(NamedPort);
      return;
    }
    if p.protocol.Some? {
      out := out.(protocol := p.protocol.value);
    }
    if out.protocol == "SCTP" {
      why := Some(SctpProtocol);
      return;
    }
    if p.port.Some? {
      out := out.(min := p.port.value.n, max := p.port.value.n);
    }
    if p.endPort.Some? {
      out := out.(max := p.endPort.value);
    }
  }

  method TranslatePeers(e: Env, ns: string, dir: Direction, index: nat, peers: seq<PolicyPeer>)
    returns (out: seq<Peer>, refused: seq<Refusal>)
    ensures out == CompilePeers(e, ns, KeptPeers(e, peers))
    ensures refused == PeerRefusals(e, dir, index, peers)
  {
    out, refused := [], [];
    for i := 0 to |peers|
      invariant out == CompilePeers(e, ns, KeptPeers(e, peers[..i]))
      invariant refused == PeerRefusals(e, dir, index, peers[..i])
    {
      KeptPeersStep(e, ns, dir, index, peers, i);
      hide *;
      var peer, why := TranslatePeer(e, ns, peers[i]);
      if why.Some? {
        refused := refused + [Refusal(dir, index, i, why.value)];
      } else {
        out := out + [peer];
      }
    }
    assert peers[..|peers|] == peers;
  }

  method TranslatePorts(dir: Direction, index: nat, ports: seq<PolicyPort>)
    returns (out: seq<Port>, refused: seq<Refusal>)
    ensures out == CompilePorts(KeptPorts(ports))
    ensures refused == PortRefusals(dir, index, ports)
  {
    out, refused := [], [];
    for i := 0 to |ports|
      invariant out == CompilePorts(KeptPorts(ports[..i]))
      invariant refused == PortRefusals(dir, index, ports[..i])
    {
      KeptPortsStep(dir, index, ports, i);
      hide *;
      var port, why := TranslatePort(ports[i]);
      if why.Some? {
        refused := refused + [Refusal(dir, index, i, why.value)];
      } else {
        out := out + [port];
      }
    }
    assert ports[..|ports|] == ports;
  }

  /** One rule; an emptied list of peers or ports would mean "any", so the rule
      goes instead. */
  method TranslateRule(e: Env, ns: string, dir: Direction, index: nat,
                       peers: seq<PolicyPeer>, ports: seq<PolicyPort>)
    returns (rule: Option<Rule>, refused: seq<Refusal>)
    ensures refused == PeerRefusals(e, dir, index, peers) + PortRefusals(dir, index, ports)
    ensures match StripRule(e, PolicyRule(peers, ports))
            case None => rule == None
            case Some(r) => rule == Some(CompileRule(e, ns, dir, r))
  {
    var outPeers, outPorts, refusedPorts;
    outPeers, refused := TranslatePeers(e, ns, dir, index, peers);
    outPorts, refusedPorts := TranslatePorts(dir, index, ports);
    if |peers| == 0 {
      outPeers := Everywhere;
    }
    refused := refused + refusedPorts;
    if |outPeers| == 0 {
      return None, refused;
    }
    if |ports| > 0 && |outPorts| == 0 {
      return None, refused;
    }
    rule := Some(Rule(dir, outPeers, outPorts));
  }

  lemma StripRulesStep(e: Env, ns: string, dir: Direction, rules: seq<PolicyRule>, i: nat)
    requires i < |rules|
    ensures CompileRules(e, ns, dir, StripRules(e, rules[..i + 1]))
         == CompileRules(e, ns, dir, StripRules(e, rules[..i]))
            + match StripRule(e, rules[i]) case None => [] case Some(r) => [CompileRule(e, ns, dir, r)]
    ensures RuleRefusals(e, dir, rules[..i + 1])
         == RuleRefusals(e, dir, rules[..i])
            + (PeerRefusals(e, dir, i, rules[i].peers) + PortRefusals(dir, i, rules[i].ports))
  {
    assert rules[..i + 1][..i] == rules[..i];
  }

  method TranslateRules(e: Env, ns: string, dir: Direction, rules: seq<PolicyRule>)
    returns (out: seq<Rule>, refused: seq<Refusal>)
    ensures out == CompileRules(e, ns, dir, StripRules(e, rules))
    ensures refused == RuleRefusals(e, dir, rules)
  {
    out, refused := [], [];
    for i := 0 to |rules|
      invariant out == CompileRules(e, ns, dir, StripRules(e, rules[..i]))
      invariant refused == RuleRefusals(e, dir, rules[..i])
    {
      StripRulesStep(e, ns, dir, rules, i);
      hide *;
      var rule, refusals := TranslateRule(e, ns, dir, i, rules[i].peers, rules[i].ports);
      assert PolicyRule(rules[i].peers, rules[i].ports) == rules[i];
      refused := refused + refusals;
      if rule.Some? {
        out := out + [rule.value];
      }
    }
    assert rules[..|rules|] == rules;
  }

  method TranslatePolicy(e: Env, p: Policy) returns (r: Result<Translated, Error>)
    ensures r == Translation(e, p)
  {
    if !e.valid(p.podSelector) {
      return Err(SubjectSelector);
    }
    var types := p.types;
    if |types| == 0 {
      types := [TypeIngress];
      if |p.egress| > 0 {
        types := types + [TypeEgress];
      }
    }
    var isolates: set<Direction> := {};
    for i := 0 to |types|
      invariant isolates == Isolates(types[..i])
    {
      match types[i]
      case TypeIngress => isolates := isolates + {Ingress};
      case TypeEgress => isolates := isolates + {Egress};
      case TypeOther =>
    }
    assert types[..|types|] == types == EffectiveTypes(p);
    var ingress, refusedIngress := TranslateRules(e, p.namespace, Ingress, p.ingress);
    var egress, refusedEgress := TranslateRules(e, p.namespace, Egress, p.egress);
    r := Ok(Translated(isolates, p.podSelector, ingress + egress, refusedIngress + refusedEgress));
  }
}
