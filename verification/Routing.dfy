/** pkg/ingress/l7.go: an Ingress's rules compiled into an ordered list of load
    balancer policies, of which the first match wins. */
module Routing {
  import opened Wrappers
  import opened Text
  import Ordering

  datatype ServicePort = ServicePort(name: string, number: int)

  datatype Backend = Backend(service: string, port: ServicePort)

  /** A path whose backend is not a Service has none here. */
  datatype Path = Path(path: string, pathType: Option<string>, backend: Option<Backend>)

  datatype HostRule = HostRule(host: string, paths: Option<seq<Path>>)

  datatype IngressSpec = IngressSpec(default: Option<Backend>, rules: seq<HostRule>)

  function PortKey(p: ServicePort): string {
    if p.name != "" then p.name else Decimal(p.number)
  }

  function BackendKey(b: Backend): string {
    b.service + "|" + PortKey(b.port)
  }

  function PoolName(lbname: string, b: Backend): string {
    lbname + "_" + b.service + "_" + PortKey(b.port)
  }

  // ----- every backend gets a pool -----

  function PathsOf(r: HostRule): seq<Path> {
    if r.paths.Some? then r.paths.value else []
  }

  predicate Refers(spec: IngressSpec, b: Backend) {
    || spec.default == Some(b)
    || exists i, j :: 0 <= i < |spec.rules| && 0 <= j < |PathsOf(spec.rules[i])|
                      && PathsOf(spec.rules[i])[j].backend == Some(b)
  }

  predicate Collected(all: seq<Backend>, b: Backend) {
    exists k :: 0 <= k < |all| && BackendKey(all[k]) == BackendKey(b)
  }

  method Add(all: seq<Backend>, seen: set<string>, b: Option<Backend>) returns (all': seq<Backend>, seen': set<string>)
    requires forall c: Backend :: BackendKey(c) in seen ==> Collected(all, c)
    ensures forall c: Backend :: BackendKey(c) in seen' ==> Collected(all', c)
    ensures forall c :: Collected(all, c) ==> Collected(all', c)
    ensures b.Some? ==> Collected(all', b.value)
    ensures forall c :: c in all' ==> c in all || b == Some(c)
  {
    all', seen' := all, seen;
    if b.Some? && BackendKey(b.value) !in seen {
      all', seen' := all + [b.value], seen + {BackendKey(b.value)};
      assert all'[|all|] == b.value;
      forall c | Collected(all, c) ensures Collected(all', c) {
        var k :| 0 <= k < |all| && BackendKey(all[k]) == BackendKey(c);
        assert all'[k] == all[k];
      }
    }
  }

  /** Every distinct backend the Ingress refers to, the default's first. */
  method CollectBackends(spec: IngressSpec) returns (all: seq<Backend>)
    ensures forall b :: Refers(spec, b) ==> Collected(all, b)
    ensures forall b :: b in all ==> Refers(spec, b)
  {
    var seen: set<string> := {};
    all := [];
    all, seen := Add(all, seen, spec.default);
    for i := 0 to |spec.rules|
      invariant forall c: Backend :: BackendKey(c) in seen ==> Collected(all, c)
      invariant spec.default.Some? ==> Collected(all, spec.default.value)
      invariant forall k, j :: 0 <= k < i && 0 <= j < |PathsOf(spec.rules[k])|
                               && PathsOf(spec.rules[k])[j].backend.Some? ==>
        Collected(all, PathsOf(spec.rules[k])[j].backend.value)
      invariant forall b :: b in all ==> Refers(spec, b)
    {
      var paths := PathsOf(spec.rules[i]);
      for j := 0 to |paths|
        invariant forall c: Backend :: BackendKey(c) in seen ==> Collected(all, c)
        invariant spec.default.Some? ==> Collected(all, spec.default.value)
        invariant forall k, l :: 0 <= k < i && 0 <= l < |PathsOf(spec.rules[k])|
                                 && PathsOf(spec.rules[k])[l].backend.Some? ==>
          Collected(all, PathsOf(spec.rules[k])[l].backend.value)
        invariant forall l :: 0 <= l < j && paths[l].backend.Some? ==> Collected(all, paths[l].backend.value)
        invariant forall b :: b in all ==> Refers(spec, b)
      {
        all, seen := Add(all, seen, paths[j].backend);
      }
    }
  }

  /** Service names carry no separator. */
  predicate PlainBackend(b: Backend) {
    !HasChar(b.service, '|')
  }

  lemma SameKeySamePool(lbname: string, a: Backend, b: Backend)
    requires PlainBackend(a) && PlainBackend(b) && BackendKey(a) == BackendKey(b)
    ensures PoolName(lbname, a) == PoolName(lbname, b)
  {
    FirstFieldUnique(a.service, PortKey(a.port), b.service, PortKey(b.port), '|');
  }

  // ----- the policies -----

  /** order is the place in the manifest. */
  datatype Route = Route(order: nat, pool: string, host: string, path: string, pathType: string)

  function PoolOf(pools: map<string, string>, lbname: string, b: Backend): string {
    if PoolName(lbname, b) in pools then pools[PoolName(lbname, b)] else ""
  }

  function RouteFor(order: nat, host: string, p: Path, lbname: string, pools: map<string, string>): Option<Route> {
    if p.backend.None? || PoolOf(pools, lbname, p.backend.value) == "" then None
    else
      Some(Route(order, PoolOf(pools, lbname, p.backend.value), host, p.path,
                 if p.pathType.Some? then p.pathType.value else "Prefix"))
  }

  function Append(out: seq<Route>, r: Option<Route>): seq<Route> {
    if r.Some? then out + [r.value] else out
  }

  function PathRoutes(out: seq<Route>, host: string, paths: seq<Path>, lbname: string,
                      pools: map<string, string>): seq<Route> {
    if paths == [] then out
    else
      var before := PathRoutes(out, host, paths[..|paths| - 1], lbname, pools);
      Append(before, RouteFor(|before|, host, paths[|paths| - 1], lbname, pools))
  }

  /** The routes in manifest order. */
  function Manifest(rules: seq<HostRule>, lbname: string, pools: map<string, string>): seq<Route> {
    if rules == [] then []
    else
      var r := rules[|rules| - 1];
      PathRoutes(Manifest(rules[..|rules| - 1], lbname, pools), r.host, PathsOf(r), lbname, pools)
  }

  predicate LongerFirst(a: Route, b: Route) {
    |a.path| >= |b.path|
  }

  /** Longest path first, manifest order among equals. */
  method BuildDesiredPolicies(spec: IngressSpec, lbname: string, pools: map<string, string>) returns (out: seq<Route>)
    ensures out == Ordering.Sort(Manifest(spec.rules, lbname, pools), LongerFirst)
  {
    out := [];
    for i := 0 to |spec.rules|
      invariant out == Manifest(spec.rules[..i], lbname, pools)
    {
      assert spec.rules[..i + 1][..i] == spec.rules[..i];
      var rule := spec.rules[i];
      if rule.paths.None? {
        continue;
      }
      var paths := rule.paths.value;
      ghost var before := out;
      for j := 0 to |paths|
        invariant out == PathRoutes(before, rule.host, paths[..j], lbname, pools)
      {
        assert paths[..j + 1][..j] == paths[..j];
        if paths[j].backend.None? {
          continue;
        }
        var pool := PoolOf(pools, lbname, paths[j].backend.value);
        if pool == "" {
          continue;
        }
        var pathType := "Prefix";
        if paths[j].pathType.Some? {
          pathType := paths[j].pathType.value;
        }
        out := out + [Route(|out|, pool, rule.host, paths[j].path, pathType)];
      }
      assert paths[..|paths|] == paths;
    }
    assert spec.rules[..|spec.rules|] == spec.rules;
    out := Ordering.Sort(out, LongerFirst);
  }

  // ----- order -----

  predicate Before(a: Route, b: Route) {
    |a.path| > |b.path| || (|a.path| == |b.path| && a.order < b.order)
  }

  predicate InOrder(s: seq<Route>) {
    forall i, j :: 0 <= i < j < |s| ==> Before(s[i], s[j])
  }

  predicate Ascending(s: seq<Route>) {
    forall i :: 0 <= i < |s| ==> s[i].order == i
  }

  lemma AscendingOrders(s: seq<Route>)
    requires Ascending(s)
    ensures forall i, j :: 0 <= i < j < |s| ==> s[i].order < s[j].order
  {
  }

  lemma {:induction false} PathRoutesAscend(out: seq<Route>, host: string, paths: seq<Path>, lbname: string,
                                            pools: map<string, string>)
    requires Ascending(out)
    ensures Ascending(PathRoutes(out, host, paths, lbname, pools))
  {
    if paths != [] {
      PathRoutesAscend(out, host, paths[..|paths| - 1], lbname, pools);
    }
  }

  lemma {:induction false} ManifestAscends(rules: seq<HostRule>, lbname: string, pools: map<string, string>)
    ensures Ascending(Manifest(rules, lbname, pools))
  {
    if rules != [] {
      ManifestAscends(rules[..|rules| - 1], lbname, pools);
      var r := rules[|rules| - 1];
      PathRoutesAscend(Manifest(rules[..|rules| - 1], lbname, pools), r.host, PathsOf(r), lbname, pools);
    }
  }

  lemma {:induction false} InsertInOrder(x: Route, s: seq<Route>)
    requires InOrder(s) && forall r :: r in s ==> x.order < r.order
    ensures InOrder(Ordering.Insert(x, s, LongerFirst))
  {
    if s != [] && !LongerFirst(x, s[0]) {
      InsertInOrder(x, s[1..]);
      var t := Ordering.Insert(x, s[1..], LongerFirst);
      forall j | 0 <= j < |t| ensures Before(s[0], t[j]) {
        assert t[j] in multiset(t);
        if t[j] != x {
          assert t[j] in s[1..];
          var k :| 0 <= k < |s[1..]| && s[1..][k] == t[j];
          assert s[k + 1] == t[j];
        }
      }
    } else {
      forall j | 0 <= j < |s| ensures Before(x, s[j]) {
        if j > 0 { assert Before(s[0], s[j]); }
        assert s[j] in s;
      }
    }
  }

  lemma {:induction false} SortInOrder(s: seq<Route>)
    requires forall i, j :: 0 <= i < j < |s| ==> s[i].order < s[j].order
    ensures InOrder(Ordering.Sort(s, LongerFirst))
  {
    if s != [] {
      SortInOrder(s[1..]);
      Ordering.SortMembers(s[1..], LongerFirst);
      forall r | r in Ordering.Sort(s[1..], LongerFirst) ensures s[0].order < r.order {
        var k :| 0 <= k < |s[1..]| && s[1..][k] == r;
        assert s[k + 1] == r;
      }
      InsertInOrder(s[0], Ordering.Sort(s[1..], LongerFirst));
    }
  }

  // ----- what a request meets -----

  /** rest is whatever else a request carries: headers, cookies, a certificate. */
  datatype Request = Request(host: string, path: string, rest: string)

  /** The comparisons rendered here, and any other the load balancer has. */
  datatype Compare = EqualTo | StartsWith | Another(holds: (string, string) -> bool)

  /** A rule as the load balancer holds it; Unread stands for every type but host
      and path. */
  datatype L7Rule =
    | OnHost(compare: Compare, value: string, invert: bool)
    | OnPath(compare: Compare, value: string, invert: bool)
    | Unread(takes: Request -> bool)

  function HostIs(value: string): L7Rule {
    OnHost(EqualTo, value, false)
  }

  function PathStarts(value: string): L7Rule {
    OnPath(StartsWith, value, false)
  }

  function PathIs(value: string): L7Rule {
    OnPath(EqualTo, value, false)
  }

  function RulesFor(r: Route): seq<L7Rule> {
    (if r.host != "" then [HostIs(r.host)] else [])
    + (if r.path == "" then [] else if r.pathType == "Exact" then [PathIs(r.path)] else [PathStarts(r.path)])
  }

  predicate Compares(c: Compare, text: string, value: string) {
    match c
    case EqualTo => text == value
    case StartsWith => value <= text
    case Another(holds) => holds(text, value)
  }

  predicate RuleMatches(l: L7Rule, q: Request) {
    match l
    case OnHost(c, v, invert) => Compares(c, q.host, v) != invert
    case OnPath(c, v, invert) => Compares(c, q.path, v) != invert
    case Unread(takes) => takes(q)
  }

  /** All rules of a policy must match; a policy without rules matches nothing. */
  predicate Matches(r: Route, q: Request) {
    RulesFor(r) != [] && forall i :: 0 <= i < |RulesFor(r)| ==> RuleMatches(RulesFor(r)[i], q)
  }

  /** What the route itself says. */
  predicate Means(r: Route, q: Request) {
    && (r.host != "" || r.path != "")
    && (r.host == "" || q.host == r.host)
    && (r.path == "" || (if r.pathType == "Exact" then q.path == r.path else r.path <= q.path))
  }

  lemma MatchesMeans(r: Route, q: Request)
    ensures Matches(r, q) <==> Means(r, q)
  {
    var rules := RulesFor(r);
    if r.host != "" { assert rules[0] == HostIs(r.host); }
    if r.path != "" {
      assert rules[|rules| - 1] == if r.pathType == "Exact" then PathIs(r.path) else PathStarts(r.path);
    }
    if Means(r, q) {
      forall i | 0 <= i < |rules| ensures RuleMatches(rules[i], q) { }
    }
  }

  /** The first policy by position that matches. */
  function FirstMatch(s: seq<Route>, q: Request): Option<Route> {
    if s == [] then None
    else if Matches(s[0], q) then Some(s[0])
    else FirstMatch(s[1..], q)
  }

  lemma {:induction false} FirstMatchIs(s: seq<Route>, q: Request)
    requires InOrder(s)
    ensures FirstMatch(s, q).None? <==> forall r :: r in s ==> !Means(r, q)
    ensures FirstMatch(s, q).Some? ==> FirstMatch(s, q).value in s && Means(FirstMatch(s, q).value, q)
    ensures forall r :: r in s && Means(r, q) && FirstMatch(s, q).Some? && r != FirstMatch(s, q).value ==>
              Before(FirstMatch(s, q).value, r)
  {
    if s != [] {
      MatchesMeans(s[0], q);
      FirstMatchIs(s[1..], q);
      assert s == [s[0]] + s[1..];
      forall r | r in s && Means(r, q) && FirstMatch(s, q).Some? && r != FirstMatch(s, q).value
        ensures Before(FirstMatch(s, q).value, r)
      {
        if Matches(s[0], q) {
          var k :| 0 <= k < |s| && s[k] == r;
        }
      }
    }
  }

  // ----- no path is lost -----

  /** The manifest's paths that route somewhere. */
  ghost predicate Wrote(rules: seq<HostRule>, i: nat, j: nat, host: string, p: Path) {
    i < |rules| && j < |PathsOf(rules[i])| && rules[i].host == host && PathsOf(rules[i])[j] == p && p.backend.Some?
  }

  predicate Says(r: Route, host: string, p: Path) {
    r.host == host && r.path == p.path && r.pathType == if p.pathType.Some? then p.pathType.value else "Prefix"
  }

  lemma {:induction false} PathRoutesKeep(out: seq<Route>, host: string, paths: seq<Path>, lbname: string,
                                          pools: map<string, string>, j: nat)
    requires j < |paths| && paths[j].backend.Some? && PoolOf(pools, lbname, paths[j].backend.value) != ""
    ensures exists r :: r in PathRoutes(out, host, paths, lbname, pools) && Says(r, host, paths[j])
  {
    var before := PathRoutes(out, host, paths[..|paths| - 1], lbname, pools);
    if j == |paths| - 1 {
      var r := RouteFor(|before|, host, paths[j], lbname, pools).value;
      assert r in PathRoutes(out, host, paths, lbname, pools) && Says(r, host, paths[j]);
    } else {
      PathRoutesKeep(out, host, paths[..|paths| - 1], lbname, pools, j);
    }
  }

  lemma {:induction false} PathRoutesExtend(out: seq<Route>, host: string, paths: seq<Path>, lbname: string,
                                            pools: map<string, string>)
    ensures out <= PathRoutes(out, host, paths, lbname, pools)
  {
    if paths != [] {
      PathRoutesExtend(out, host, paths[..|paths| - 1], lbname, pools);
    }
  }

  lemma {:induction false} ManifestKeeps(rules: seq<HostRule>, lbname: string, pools: map<string, string>, i: nat,
                                         j: nat, host: string, p: Path)
    requires Wrote(rules, i, j, host, p) && PoolOf(pools, lbname, p.backend.value) != ""
    ensures exists r :: r in Manifest(rules, lbname, pools) && Says(r, host, p)
  {
    var init, last := rules[..|rules| - 1], rules[|rules| - 1];
    if i == |rules| - 1 {
      PathRoutesKeep(Manifest(init, lbname, pools), last.host, PathsOf(last), lbname, pools, j);
    } else {
      ManifestKeeps(init, lbname, pools, i, j, host, p);
      PathRoutesExtend(Manifest(init, lbname, pools), last.host, PathsOf(last), lbname, pools);
      var r :| r in Manifest(init, lbname, pools) && Says(r, host, p);
      assert r in Manifest(rules, lbname, pools);
    }
  }

  /** A pool was made for every backend collected, under its name. */
  predicate PoolsFor(lbname: string, all: seq<Backend>, pools: map<string, string>) {
    forall k :: 0 <= k < |all| ==> PoolOf(pools, lbname, all[k]) != ""
  }

  /** For every Ingress and request no path is skipped: if the rules rendered for
      a path match, some policy does, and the one that wins is at least as long
      as every path whose rules match, ahead in the manifest of those as long. */
  lemma NothingSkipped(spec: IngressSpec, lbname: string, all: seq<Backend>, pools: map<string, string>, q: Request,
                    i: nat, j: nat, host: string, p: Path)
    requires (forall b :: Refers(spec, b) ==> PlainBackend(b) && Collected(all, b)) && PoolsFor(lbname, all, pools)
    requires forall k :: 0 <= k < |all| ==> PlainBackend(all[k])
    requires Wrote(spec.rules, i, j, host, p)
    requires forall r :: Says(r, host, p) ==> Means(r, q)
    ensures var s := Ordering.Sort(Manifest(spec.rules, lbname, pools), LongerFirst);
            && FirstMatch(s, q).Some?
            && Means(FirstMatch(s, q).value, q)
            && |FirstMatch(s, q).value.path| >= |p.path|
            && exists r ::
                 r in s && Says(r, host, p)
                 && (FirstMatch(s, q).value == r || Before(FirstMatch(s, q).value, r))
  {
    var m := Manifest(spec.rules, lbname, pools);
    var s := Ordering.Sort(m, LongerFirst);
    var b := p.backend.value;
    assert Refers(spec, b);
    var k :| 0 <= k < |all| && BackendKey(all[k]) == BackendKey(b);
    SameKeySamePool(lbname, all[k], b);
    hide Manifest, BackendKey, PoolName, Refers, Collected, Means, FirstMatch, InOrder;
    ManifestKeeps(spec.rules, lbname, pools, i, j, host, p);
    ManifestAscends(spec.rules, lbname, pools);
    AscendingOrders(m);
    SortInOrder(m);
    Ordering.SortMembers(m, LongerFirst);
    FirstMatchIs(s, q);
    var r :| r in m && Says(r, host, p);
    assert r in s && Means(r, q);
  }

  lemma {:induction false} PathRoutesPools(out: seq<Route>, host: string, paths: seq<Path>, lbname: string,
                                           pools: map<string, string>)
    requires forall r :: r in out ==> r.pool in pools.Values
    ensures forall r :: r in PathRoutes(out, host, paths, lbname, pools) ==> r.pool in pools.Values
  {
    if paths != [] {
      PathRoutesPools(out, host, paths[..|paths| - 1], lbname, pools);
    }
  }

  /** Every policy points at a pool that was made on this pass. */
  lemma {:induction false} ManifestPools(rules: seq<HostRule>, lbname: string, pools: map<string, string>)
    ensures forall r :: r in Manifest(rules, lbname, pools) ==> r.pool in pools.Values
  {
    if rules != [] {
      ManifestPools(rules[..|rules| - 1], lbname, pools);
      var r := rules[|rules| - 1];
      PathRoutesPools(Manifest(rules[..|rules| - 1], lbname, pools), r.host, PathsOf(r), lbname, pools);
    }
  }
}
