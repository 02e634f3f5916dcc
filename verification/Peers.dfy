/** AddressesFor of pkg/netpol/reconciler.go: which addresses a resolved peer
    stands for right now, across the namespaces this process serves. */
module Peers {
  import opened Wrappers
  import opened NetworkPolicy
  import opened Translate
  import opened Ordering

  ghost predicate InNamespaces(e: Env, c: Cluster, sel: PeerSelector, name: string) {
    && name in c.served
    && if sel.namespace != "" then name == sel.namespace
       else exists n :: n in c.namespaces && n.name == name && PodMatches(e, sel.namespaces, n.labels)
  }

  ghost predicate Listed(e: Env, c: Cluster, sel: PeerSelector, addr: string) {
    exists pod :: pod in c.pods && PodListed(e, c, sel, pod, addr)
  }

  ghost predicate PodListed(e: Env, c: Cluster, sel: PeerSelector, pod: Pod, addr: string) {
    && pod.PodIP() == addr && addr != ""
    && InNamespaces(e, c, sel, pod.namespace)
    && PodMatches(e, sel.pods, pod.labels)
  }

  method NamespacesMatching(e: Env, c: Cluster, sel: PeerSelector) returns (out: seq<string>)
    ensures forall name :: name in out <==> InNamespaces(e, c, sel, name)
    ensures SortedBy(out, StrLe)
  {
    if sel.namespace != "" {
      if sel.namespace !in c.served {
        return [];
      }
      return [sel.namespace];
    }
    out := [];
    for i := 0 to |c.namespaces|
      invariant forall name :: name in out <==>
        name in c.served
        && exists n :: n in c.namespaces[..i] && n.name == name && PodMatches(e, sel.namespaces, n.labels)
    {
      var n := c.namespaces[i];
      assert c.namespaces[..i + 1] == c.namespaces[..i] + [n];
      if PodMatches(e, sel.namespaces, n.labels) && n.name in c.served {
        out := out + [n.name];
      }
    }
    assert c.namespaces[..|c.namespaces|] == c.namespaces;
    SortMembers(out, StrLe);
    SortIdempotent(out);
    out := SortStrings(out);
  }

  method AddressesFor(e: Env, c: Cluster, sel: PeerSelector) returns (out: seq<string>)
    ensures forall a :: a in out <==> Listed(e, c, sel, a)
    ensures SortedBy(out, StrLe)
  {
    var namespaces := NamespacesMatching(e, c, sel);
    out := [];
    for i := 0 to |namespaces|
      invariant forall a :: a in out <==>
        exists pod :: pod in c.pods && pod.namespace in namespaces[..i] && PodListed(e, c, sel, pod, a)
    {
      ghost var before := out;
      for j := 0 to |c.pods|
        invariant forall a :: a in out <==>
          a in before
          || exists pod :: pod in c.pods[..j] && pod.namespace == namespaces[i] && PodListed(e, c, sel, pod, a)
      {
        var pod := c.pods[j];
        assert c.pods[..j + 1] == c.pods[..j] + [pod];
        if pod.namespace == namespaces[i] && PodMatches(e, sel.pods, pod.labels) {
          if pod.PodIP() == "" {
            continue;
          }
          assert PodListed(e, c, sel, pod, pod.PodIP());
          out := out + [pod.PodIP()];
        }
      }
      assert c.pods[..|c.pods|] == c.pods;
      assert namespaces[..i + 1] == namespaces[..i] + [namespaces[i]];
    }
    assert namespaces[..|namespaces|] == namespaces;
    SortMembers(out, StrLe);
    SortIdempotent(out);
    out := SortStrings(out);
  }

  /** A resolved selector lists exactly what the written peer means, read
      through what this process can see. */
  lemma ListedIsMeant(e: Env, c: Cluster, ns: string, q: PolicyPeer, addr: string)
    requires ns != "" && q.ipBlock.None? && (q.podSelector.Some? || q.namespaceSelector.Some?)
    ensures Listed(e, c, ResolvePeer(ns, q), addr) <==> PeerAllows(e, c, Served, ns, q, addr)
  {
    var sel := ResolvePeer(ns, q);
    forall pod | pod in c.pods
      ensures PodListed(e, c, sel, pod, addr) <==> Sees(Served, c, pod, addr) && PeerSelects(e, c, ns, q, pod)
    {
      if q.namespaceSelector.Some? {
        assert InNamespaces(e, c, sel, pod.namespace) <==>
               pod.namespace in c.served && NamespaceMatches(e, c, q.namespaceSelector.value, pod.namespace);
      }
    }
  }
}
