/** What an Ingress asks of its routes, as the Kubernetes API documents host and
    path matching, and exactly when the compiled list of pkg/ingress/l7.go
    answers to it. */
module RoutingMeaning {
  import opened Wrappers
  import opened Routing
  import Ordering

  // ----- paths, element by element -----

  /** The labels of a path, split at every slash. */
  function Split(s: string): (r: seq<string>)
    ensures r != []
  {
    if s == "" then [""]
    else if s[0] == '/' then [""] + Split(s[1..])
    else [[s[0]] + Split(s[1..])[0]] + Split(s[1..])[1..]
  }

  predicate EndsInSlash(path: string) {
    path != "" && path[|path| - 1] == '/'
  }

  /** A slash at the end of a path does not count. */
  function Trim(path: string): string {
    if EndsInSlash(path) then path[..|path| - 1] else path
  }

  /** A Prefix path covers the request paths it is an element-wise prefix of. */
  predicate KubeCovers(path: string, q: string) {
    Split(Trim(path)) <= Split(q)
  }

  lemma {:induction false} SplitPrefix(a: string, q: string)
    ensures Split(a) <= Split(q) <==> q == a || a + "/" <= q
  {
    if a == "" {
      assert Split(a) == [""];
      if q != "" {
        assert Split(q)[0] == "" <==> q[0] == '/';
      }
    } else if q == "" {
      assert |Split(a)| > 1 || Split(a)[0] != "";
    } else {
      SplitPrefix(a[1..], q[1..]);
      assert a == [a[0]] + a[1..] && q == [q[0]] + q[1..];
      SplitStep(a, q);
      if a[0] == q[0] {
        assert a + "/" == [a[0]] + (a[1..] + "/");
      }
    }
  }

  /** The first character of both decides, or both go on. */
  lemma SplitStep(a: string, q: string)
    requires a != "" && q != ""
    ensures Split(a) <= Split(q) <==> a[0] == q[0] && Split(a[1..]) <= Split(q[1..])
  {
    var x, y := Split(a[1..]), Split(q[1..]);
    if a[0] == '/' && q[0] == '/' {
      assert Split(a)[1..] == x && Split(q)[1..] == y;
      if Split(a) <= Split(q) {
        assert forall i :: 0 <= i < |x| ==> x[i] == Split(a)[i + 1] == Split(q)[i + 1] == y[i];
      }
    } else if a[0] != '/' && q[0] != '/' {
      assert Split(a)[0] == [a[0]] + x[0] && Split(q)[0] == [q[0]] + y[0];
      if Split(a) <= Split(q) {
        assert a[0] == Split(a)[0][0] == Split(q)[0][0] == q[0];
        assert x[0] == Split(a)[0][1..] == Split(q)[0][1..] == y[0];
        assert forall i :: 1 <= i < |x| ==> x[i] == Split(a)[i] == Split(q)[i] == y[i];
      }
    } else {
      assert Split(a)[0] != Split(q)[0];
    }
  }

  /** Comparing the prefix as text comes to the same for this request path. */
  predicate TextAgrees(path: string, q: string) {
    if EndsInSlash(path) then q != Trim(path)
    else !(path <= q && |q| > |path| && q[|path|] != '/')
  }

  /** Text and elements part in two ways: a path that ends in a slash does not
      take itself without it, and one that does not takes longer names. */
  lemma PrefixAgrees(path: string, q: string)
    ensures (path <= q <==> KubeCovers(path, q)) <==> TextAgrees(path, q)
  {
    var a := Trim(path);
    SplitPrefix(a, q);
    if EndsInSlash(path) {
      assert a + "/" == path;
    } else {
      assert path <= q && |q| > |path| && q[|path|] == '/' ==> a + "/" <= q;
      if a + "/" <= q {
        assert path <= q && q[|path|] == (a + "/")[|path|];
      }
    }
  }

  // ----- hosts -----

  predicate Wildcard(host: string) {
    "*." <= host
  }

  /** A wildcard stands for exactly one label. */
  predicate KubeHost(host: string, q: string) {
    if host == "" then true
    else if Wildcard(host) then
      |q| > |host| - 1 && q[|q| - (|host| - 1)..] == host[1..]
      && forall i :: 0 <= i < |q| - (|host| - 1) ==> q[i] != '.'
    else q == host
  }

  // ----- routes -----

  /** What an Ingress path asks for. How other path types match is left to the
      implementation. */
  predicate KubeMeans(host: string, path: string, pathType: string, q: Request) {
    && KubeHost(host, q.host)
    && (path == "" || if pathType == "Exact" then q.path == path
                      else if pathType == "Prefix" then KubeCovers(path, q.path) else path <= q.path)
  }

  predicate RouteMeans(r: Route, q: Request) {
    KubeMeans(r.host, r.path, r.pathType, q)
  }

  /** Every request the rules of a route take: what Matches says, in one formula. */
  lemma MatchesIs(r: Route, q: Request)
    ensures Matches(r, q) <==>
            && (r.host != "" || r.path != "") && (r.host == "" || q.host == r.host)
            && (r.path == "" || (if r.pathType == "Exact" then q.path == r.path else r.path <= q.path))
  {
    MatchesMeans(r, q);
  }

  /** Taken though not asked for: a prefix that stops inside an element. */
  predicate Overreaches(r: Route, q: Request) {
    && (r.host == "" || q.host == r.host) && r.pathType == "Prefix" && r.path != "" && !EndsInSlash(r.path)
    && r.path <= q.path && |q.path| > |r.path| && q.path[|r.path|] != '/'
  }

  /** Asked for and not taken: everything, when the route names neither host nor
      path; every request of a wildcard host; the directory itself, when a prefix
      is written with its slash. */
  predicate FallsShort(r: Route, q: Request) {
    || (r.host == "" && r.path == "")
    || (Wildcard(r.host) && RouteMeans(r, q))
    || (KubeHost(r.host, q.host) && r.pathType == "Prefix" && EndsInSlash(r.path) && q.path == Trim(r.path))
  }

  /** The host a request names holds no asterisk. */
  predicate Plain(q: Request) {
    forall i :: 0 <= i < |q.host| ==> q.host[i] != '*'
  }

  /** The two ways the rules of a route part from what was asked, exactly. */
  lemma HonouredExactly(r: Route, q: Request)
    requires Plain(q)
    ensures Matches(r, q) && !RouteMeans(r, q) <==> Overreaches(r, q)
    ensures RouteMeans(r, q) && !Matches(r, q) <==> FallsShort(r, q)
  {
    MatchesIs(r, q);
    PrefixAgrees(r.path, q.path);
    SplitPrefix(Trim(r.path), q.path);
    hide Matches, Split;
    if EndsInSlash(r.path) {
      assert Trim(r.path) + "/" == r.path;
      assert q.path == Trim(r.path) ==> !(r.path <= q.path);
    }
    if Wildcard(r.host) {
      assert r.host[0] == '*' && q.host != r.host;
    }
  }

  // ----- the theorem -----

  /** For every Ingress and request: a path that asks for the request, and does
      not fall short of it, is not skipped; the policy that wins was asked for
      unless it overreaches; and it is at least as long as every route that
      takes the request, ahead in the manifest of those as long. */
  lemma RoutesRight(spec: IngressSpec, lbname: string, all: seq<Backend>, pools: map<string, string>, q: Request,
                    i: nat, j: nat, host: string, p: Path)
    requires (forall b :: Refers(spec, b) ==> PlainBackend(b) && Collected(all, b)) && PoolsFor(lbname, all, pools)
    requires forall k :: 0 <= k < |all| ==> PlainBackend(all[k])
    requires Wrote(spec.rules, i, j, host, p) && Plain(q)
    requires forall r :: Says(r, host, p) ==> RouteMeans(r, q) && !FallsShort(r, q)
    ensures var s := Ordering.Sort(Manifest(spec.rules, lbname, pools), LongerFirst);
            && FirstMatch(s, q).Some? && |FirstMatch(s, q).value.path| >= |p.path|
            && (RouteMeans(FirstMatch(s, q).value, q) <==> !Overreaches(FirstMatch(s, q).value, q))
            && forall r :: r in s && RouteMeans(r, q) && !FallsShort(r, q) ==>
                 FirstMatch(s, q).value == r || Before(FirstMatch(s, q).value, r)
  {
    var m := Manifest(spec.rules, lbname, pools);
    var s := Ordering.Sort(m, LongerFirst);
    hide Manifest, FirstMatch, InOrder, Refers, Collected, PoolsFor, RouteMeans, FallsShort, Overreaches, Matches,
         Means;
    forall r | Says(r, host, p) ensures Means(r, q) {
      HonouredExactly(r, q);
      MatchesMeans(r, q);
    }
    NothingSkipped(spec, lbname, all, pools, q, i, j, host, p);
    ManifestAscends(spec.rules, lbname, pools);
    AscendingOrders(m);
    SortInOrder(m);
    FirstMatchIs(s, q);
    HonouredExactly(FirstMatch(s, q).value, q);
    MatchesMeans(FirstMatch(s, q).value, q);
    forall r | r in s && RouteMeans(r, q) && !FallsShort(r, q)
      ensures FirstMatch(s, q).value == r || Before(FirstMatch(s, q).value, r)
    {
      HonouredExactly(r, q);
      MatchesMeans(r, q);
    }
  }

  /** Kubernetes gives an exact path precedence over an equal prefix. Here it
      wins exactly when no route as long that takes the request was written
      before it. */
  lemma ExactWins(s: seq<Route>, x: Route, q: Request)
    requires InOrder(s) && x in s && x.pathType == "Exact" && x.path != "" && Matches(x, q)
    ensures FirstMatch(s, q) == Some(x) <==>
            forall r :: r in s && r != x && Matches(r, q) && |r.path| == |x.path| ==> x.order < r.order
  {
    FirstMatchIs(s, q);
    MatchesIs(x, q);
    MatchesMeans(x, q);
    hide Matches, Means, FirstMatch;
    var w := FirstMatch(s, q).value;
    MatchesMeans(w, q);
    MatchesIs(w, q);
    forall r | r in s && Matches(r, q) ensures Means(r, q) && |r.path| <= |x.path| {
      MatchesMeans(r, q);
      MatchesIs(r, q);
    }
  }
}
