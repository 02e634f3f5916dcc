/** NetworkPolicy as a tenant writes it, the cluster it is read against, and what
    Kubernetes says it allows. Everything compiled later is judged against the
    meaning given here. */
module NetworkPolicy {
  import opened Wrappers
  import opened Text

  datatype Direction = Ingress | Egress

  type Labels = map<string, string>

  /** A label selector as written. Parsing, rendering and matching are the
      Kubernetes library's and come in through Env. */
  datatype LabelSelector = LabelSelector(source: string)

  datatype IPBlock = IPBlock(cidr: string, except: seq<string>)

  datatype PolicyPeer = PolicyPeer(
    ipBlock: Option<IPBlock>,
    namespaceSelector: Option<LabelSelector>,
    podSelector: Option<LabelSelector>)

  datatype PortRef = Number(n: int) | Named(name: string)

  datatype PolicyPort = PolicyPort(protocol: Option<string>, port: Option<PortRef>, endPort: Option<int>)

  datatype PolicyRule = PolicyRule(peers: seq<PolicyPeer>, ports: seq<PolicyPort>)

  datatype PolicyType = TypeIngress | TypeEgress | TypeOther

  datatype Policy = Policy(
    namespace: string,
    name: string,
    podSelector: LabelSelector,
    types: seq<PolicyType>,
    ingress: seq<PolicyRule>,
    egress: seq<PolicyRule>)
  {
    function Key(): string { namespace + "/" + name }

    function Rules(dir: Direction): seq<PolicyRule> {
      if dir.Ingress? then ingress else egress
    }
  }

  /** ips holds every address a pod has; the first is what status.podIP shows. */
  datatype Pod = Pod(namespace: string, name: string, labels: Labels, ips: seq<string>) {
    function PodIP(): string { if ips == [] then "" else ips[0] }
  }

  datatype Namespace = Namespace(name: string, labels: Labels)

  datatype Cluster = Cluster(namespaces: seq<Namespace>, pods: seq<Pod>, served: set<string>)

  /** One connection seen from the pod: which way, the other end, and the
      protocol (in lower case) and port it uses. */
  datatype Flow = Flow(dir: Direction, remote: string, proto: string, port: int)

  /** What the libraries answer: selector parsing and matching, CIDR membership,
      and whatever a named port resolves to. */
  datatype Env = Env(
    valid: LabelSelector -> bool,
    render: LabelSelector -> string,
    matches: (LabelSelector, Labels) -> bool,
    inCIDR: (string, string) -> bool,
    named: (string, Flow) -> bool)

  function FamilyOf(address: string): string {
    if HasChar(address, ':') then "IPv6" else "IPv4"
  }

  const AnyIPv4 := "0.0.0.0/0"
  const AnyIPv6 := "::/0"

  /** The facts about those libraries the compiler rests on. */
  ghost predicate Faithful(e: Env) {
    && (forall s, t, l :: e.render(s) == e.render(t) ==> e.matches(s, l) == e.matches(t, l))
    && (forall s :: !HasChar(e.render(s), ';') && e.render(s) != "all")
    && (forall cidr, a :: e.inCIDR(cidr, a) ==> FamilyOf(cidr) == FamilyOf(a))
    && (forall a :: e.inCIDR(AnyIPv4, a) <==> FamilyOf(a) == "IPv4")
    && (forall a :: e.inCIDR(AnyIPv6, a) <==> FamilyOf(a) == "IPv6")
  }

  // ----- what Kubernetes says a policy allows -----

  /** Whose addresses count: every address of every pod, or only what this
      process can list - the first address of pods in namespaces it serves. */
  datatype View = Full | Served

  predicate Sees(v: View, c: Cluster, pod: Pod, addr: string) {
    match v
    case Full => addr in pod.ips
    case Served => pod.namespace in c.served && pod.PodIP() != "" && pod.PodIP() == addr
  }

  predicate PodMatches(e: Env, sel: Option<LabelSelector>, labels: Labels) {
    sel.None? || e.matches(sel.value, labels)
  }

  ghost predicate NamespaceMatches(e: Env, c: Cluster, sel: LabelSelector, name: string) {
    exists n :: n in c.namespaces && n.name == name && e.matches(sel, n.labels)
  }

  /** A missing namespace selector means the policy's own namespace; an empty
      one that is present means every namespace its selector matches. */
  ghost predicate PeerSelects(e: Env, c: Cluster, ns: string, peer: PolicyPeer, pod: Pod) {
    && PodMatches(e, peer.podSelector, pod.labels)
    && (match peer.namespaceSelector
        case None => pod.namespace == ns
        case Some(sel) => NamespaceMatches(e, c, sel, pod.namespace))
  }

  ghost predicate PeerAllows(e: Env, c: Cluster, v: View, ns: string, peer: PolicyPeer, addr: string) {
    if peer.ipBlock.Some? then
      && e.inCIDR(peer.ipBlock.value.cidr, addr)
      && forall x :: x in peer.ipBlock.value.except ==> !e.inCIDR(x, addr)
    else
      && (peer.podSelector.Some? || peer.namespaceSelector.Some?)
      && exists pod :: pod in c.pods && Sees(v, c, pod, addr) && PeerSelects(e, c, ns, peer, pod)
  }

  function ProtocolOf(p: PolicyPort): string {
    match p.protocol
    case None => "TCP"
    case Some(name) => name
  }

  ghost predicate PortAllows(e: Env, p: PolicyPort, f: Flow) {
    && f.proto == ToLower(ProtocolOf(p))
    && match p.port
       case None => true
       case Some(Number(n)) => n <= f.port <= (if p.endPort.Some? then p.endPort.value else n)
       case Some(Named(name)) => e.named(name, f)
  }

  ghost predicate RuleAllows(e: Env, c: Cluster, v: View, ns: string, r: PolicyRule, f: Flow) {
    && (r.peers == [] || exists q :: q in r.peers && PeerAllows(e, c, v, ns, q, f.remote))
    && (r.ports == [] || exists p :: p in r.ports && PortAllows(e, p, f))
  }

  /** policyTypes with Kubernetes' default: ingress always, egress only when
      egress rules were written. */
  function EffectiveTypes(p: Policy): seq<PolicyType> {
    if p.types != [] then p.types
    else if p.egress != [] then [TypeIngress, TypeEgress]
    else [TypeIngress]
  }

  predicate Declares(p: Policy, dir: Direction) {
    (if dir.Ingress? then TypeIngress else TypeEgress) in EffectiveTypes(p)
  }

  /** What one policy allows, in the directions it declares; rules of an
      undeclared direction mean nothing. */
  ghost predicate PolicyAllows(e: Env, c: Cluster, v: View, p: Policy, f: Flow) {
    && Declares(p, f.dir)
    && exists r :: r in p.Rules(f.dir) && RuleAllows(e, c, v, p.namespace, r, f)
  }

  // ----- what the API server accepts -----

  predicate ValidPeer(peer: PolicyPeer) {
    peer.ipBlock.Some? ==>
      peer.ipBlock.value.cidr != "" && !HasChar(peer.ipBlock.value.cidr, '|')
  }

  predicate ValidPort(p: PolicyPort) {
    && (p.protocol.Some? ==> p.protocol.value in {"TCP", "UDP", "SCTP"})
    && (p.port.Some? && p.port.value.Number? ==> 1 <= p.port.value.n <= 65535)
    && (p.endPort.Some? ==>
          p.port.Some? && p.port.value.Number? && p.port.value.n <= p.endPort.value <= 65535)
  }

  predicate ValidRule(r: PolicyRule) {
    (forall q :: q in r.peers ==> ValidPeer(q)) && (forall p :: p in r.ports ==> ValidPort(p))
  }

  predicate ValidPolicy(p: Policy) {
    && p.namespace != "" && !HasChar(p.namespace, ';') && !HasChar(p.namespace, '/')
    && !HasChar(p.name, '/')
    && (forall r :: r in p.ingress ==> ValidRule(r))
    && (forall r :: r in p.egress ==> ValidRule(r))
  }

  // ----- the two views compared -----

  lemma ServedSeesLess(c: Cluster, pod: Pod, addr: string)
    requires Sees(Served, c, pod, addr)
    ensures Sees(Full, c, pod, addr)
  {
  }

  lemma ServedRuleNarrower(e: Env, c: Cluster, ns: string, r: PolicyRule, f: Flow)
    requires RuleAllows(e, c, Served, ns, r, f)
    ensures RuleAllows(e, c, Full, ns, r, f)
  {
    if r.peers != [] {
      var q :| q in r.peers && PeerAllows(e, c, Served, ns, q, f.remote);
      if q.ipBlock.None? {
        var pod :| pod in c.pods && Sees(Served, c, pod, f.remote) && PeerSelects(e, c, ns, q, pod);
        ServedSeesLess(c, pod, f.remote);
      }
      assert PeerAllows(e, c, Full, ns, q, f.remote);
    }
  }

  /** Reading only what this process can list never widens a policy. */
  lemma ServedNarrower(e: Env, c: Cluster, p: Policy, f: Flow)
    requires PolicyAllows(e, c, Served, p, f)
    ensures PolicyAllows(e, c, Full, p, f)
  {
    var r :| r in p.Rules(f.dir) && RuleAllows(e, c, Served, p.namespace, r, f);
    ServedRuleNarrower(e, c, p.namespace, r, f);
  }

  /** Every address of every pod the policy's peers select can be listed here:
      the pod's namespace is served and the address is its first. */
  ghost predicate PeersListable(e: Env, c: Cluster, p: Policy) {
    forall r, q, pod, a ::
      (r in p.ingress || r in p.egress) && q in r.peers && q.ipBlock.None? && pod in c.pods
      && Sees(Full, c, pod, a) && PeerSelects(e, c, p.namespace, q, pod)
      ==> Sees(Served, c, pod, a)
  }

  /** Then the two views agree. */
  lemma ViewsAgree(e: Env, c: Cluster, p: Policy, f: Flow)
    requires PeersListable(e, c, p)
    ensures PolicyAllows(e, c, Full, p, f) <==> PolicyAllows(e, c, Served, p, f)
  {
    if PolicyAllows(e, c, Full, p, f) {
      var r :| r in p.Rules(f.dir) && RuleAllows(e, c, Full, p.namespace, r, f);
      if r.peers != [] {
        var q :| q in r.peers && PeerAllows(e, c, Full, p.namespace, q, f.remote);
        if q.ipBlock.None? {
          var pod :| pod in c.pods && Sees(Full, c, pod, f.remote) && PeerSelects(e, c, p.namespace, q, pod);
          assert Sees(Served, c, pod, f.remote);
        }
        assert PeerAllows(e, c, Served, p.namespace, q, f.remote);
      }
      assert RuleAllows(e, c, Served, p.namespace, r, f);
    }
    if PolicyAllows(e, c, Served, p, f) {
      ServedNarrower(e, c, p, f);
    }
  }
}
