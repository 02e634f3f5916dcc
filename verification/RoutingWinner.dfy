/** Which path of an Ingress a request goes to, said of the manifest itself, and
    that the compiled list of pkg/ingress/l7.go sends it to that path's pool. */
module RoutingWinner {
  import opened Wrappers
  import opened Text
  import opened Routing
  import Ordering

  // ----- pool names -----

  /** Port names hold a letter, as the API server has it; service names neither
      separator. */
  predicate PlainPort(p: ServicePort) {
    p.name != "" ==> exists i :: 0 <= i < |p.name| && 'a' <= p.name[i] <= 'z'
  }

  predicate PlainService(b: Backend) {
    !HasChar(b.service, '_') && !HasChar(b.service, '|') && PlainPort(b.port)
  }

  /** The same port: of the same name; or neither named, and of the same number. */
  predicate SamePort(p: ServicePort, q: ServicePort) {
    p.name == q.name && (p.name == "" ==> p.number == q.number)
  }

  lemma PortKeyTells(p: ServicePort, q: ServicePort)
    requires PlainPort(p) && PlainPort(q)
    ensures PortKey(p) == PortKey(q) <==> SamePort(p, q)
  {
    if PortKey(p) == PortKey(q) {
      if p.name == "" && q.name == "" {
        DecimalInjective(p.number, q.number);
      } else if p.name == "" {
        NoLetters(p.number);
      } else if q.name == "" {
        NoLetters(q.number);
      }
    }
  }

  lemma NoLetters(n: int)
    ensures forall i :: 0 <= i < |Decimal(n)| ==> !('a' <= Decimal(n)[i] <= 'z')
  {
  }

  /** A pool's name tells its service and port, and nothing else does. */
  lemma PoolNameTells(lbname: string, a: Backend, b: Backend)
    requires PlainService(a) && PlainService(b)
    ensures PoolName(lbname, a) == PoolName(lbname, b) <==> a.service == b.service && SamePort(a.port, b.port)
  {
    PortKeyTells(a.port, b.port);
    var x, y := a.service + "_" + PortKey(a.port), b.service + "_" + PortKey(b.port);
    assert PoolName(lbname, a) == lbname + "_" + x && PoolName(lbname, b) == lbname + "_" + y;
    if PoolName(lbname, a) == PoolName(lbname, b) {
      assert x == (lbname + "_" + x)[|lbname| + 1..] == (lbname + "_" + y)[|lbname| + 1..] == y;
      FirstFieldUnique(a.service, PortKey(a.port), b.service, PortKey(b.port), '_');
    }
  }

  // ----- which path wins -----

  /** The j-th path of the i-th rule, when it routes to a service. */
  predicate PathAt(spec: IngressSpec, i: nat, j: nat) {
    i < |spec.rules| && j < |PathsOf(spec.rules[i])| && PathsOf(spec.rules[i])[j].backend.Some?
  }

  /** The request is of the host, if one is named, and of the path: the path itself
      when it is exact, anything that starts with it otherwise. */
  predicate Asked(spec: IngressSpec, i: nat, j: nat, q: Request)
    requires PathAt(spec, i, j)
  {
    var host, p := spec.rules[i].host, PathsOf(spec.rules[i])[j];
    && (host != "" || p.path != "") && (host == "" || q.host == host)
    && (p.path == "" || (if p.pathType == Some("Exact") then q.path == p.path else p.path <= q.path))
  }

  function Length(spec: IngressSpec, i: nat, j: nat): nat
    requires PathAt(spec, i, j)
  {
    |PathsOf(spec.rules[i])[j].path|
  }

  predicate WrittenBefore(i: nat, j: nat, k: nat, l: nat) {
    i < k || (i == k && j < l)
  }

  /** Of the paths the request is of, it is the longest, and the first written of
      those as long. */
  ghost predicate Wins(spec: IngressSpec, q: Request, i: nat, j: nat) {
    && PathAt(spec, i, j) && Asked(spec, i, j, q)
    && forall k: nat, l: nat :: PathAt(spec, k, l) && Asked(spec, k, l, q) && !(k == i && l == j) ==>
         || Length(spec, k, l) < Length(spec, i, j)
         || (Length(spec, k, l) == Length(spec, i, j) && WrittenBefore(i, j, k, l))
  }

  lemma OneWins(spec: IngressSpec, q: Request, i: nat, j: nat, k: nat, l: nat)
    requires Wins(spec, q, i, j) && Wins(spec, q, k, l)
    ensures i == k && j == l
  {
    assert PathAt(spec, k, l) && PathAt(spec, i, j);
  }

  // ----- the manifest, place by place -----

  datatype Place = Place(rule: nat, path: nat)

  function PathPlaces(i: nat, paths: seq<Path>): seq<Place> {
    if paths == [] then []
    else
      var n := |paths| - 1;
      PathPlaces(i, paths[..n]) + if paths[n].backend.Some? then [Place(i, n)] else []
  }

  function Places(rules: seq<HostRule>): seq<Place> {
    if rules == [] then []
    else Places(rules[..|rules| - 1]) + PathPlaces(|rules| - 1, PathsOf(rules[|rules| - 1]))
  }

  predicate Ascend(s: seq<Place>) {
    forall m, n :: 0 <= m < n < |s| ==> WrittenBefore(s[m].rule, s[m].path, s[n].rule, s[n].path)
  }

  lemma {:induction false} PathPlacesAre(i: nat, paths: seq<Path>)
    ensures forall x :: x in PathPlaces(i, paths) <==>
              x.rule == i && x.path < |paths| && paths[x.path].backend.Some?
    ensures Ascend(PathPlaces(i, paths))
  {
    if paths != [] {
      var n := |paths| - 1;
      PathPlacesAre(i, paths[..n]);
      var before, all := PathPlaces(i, paths[..n]), PathPlaces(i, paths);
      forall m, k | 0 <= m < k < |all| ensures WrittenBefore(all[m].rule, all[m].path, all[k].rule, all[k].path) {
        assert all[m] == before[m] && before[m] in before;
      }
    }
  }

  lemma {:induction false} PlacesAre(rules: seq<HostRule>)
    ensures forall x :: x in Places(rules) <==>
              x.rule < |rules| && x.path < |PathsOf(rules[x.rule])| && PathsOf(rules[x.rule])[x.path].backend.Some?
    ensures Ascend(Places(rules))
  {
    if rules != [] {
      var n := |rules| - 1;
      PlacesAre(rules[..n]);
      PathPlacesAre(n, PathsOf(rules[n]));
      var before, more := Places(rules[..n]), PathPlaces(n, PathsOf(rules[n]));
      var all: seq<Place> := before + more;
      hide PathPlaces;
      forall m, k | 0 <= m < k < |all| ensures WrittenBefore(all[m].rule, all[m].path, all[k].rule, all[k].path) {
        if m < |before| <= k {
          assert before[m] in before && more[k - |before|] in more;
        }
      }
    }
  }

  function RouteOf(order: nat, host: string, p: Path, lbname: string, pools: map<string, string>): Route
    requires p.backend.Some?
  {
    Route(order, PoolOf(pools, lbname, p.backend.value), host, p.path,
          if p.pathType.Some? then p.pathType.value else "Prefix")
  }

  /** Every backend of these has a pool. */
  predicate AllPooled(paths: seq<Path>, lbname: string, pools: map<string, string>) {
    forall j :: 0 <= j < |paths| && paths[j].backend.Some? ==> PoolOf(pools, lbname, paths[j].backend.value) != ""
  }

  lemma {:induction false} PathRoutesAre(out: seq<Route>, host: string, paths: seq<Path>, lbname: string,
                                         pools: map<string, string>, i: nat)
    requires AllPooled(paths, lbname, pools)
    ensures var all, places := PathRoutes(out, host, paths, lbname, pools), PathPlaces(i, paths);
            && |all| == |out| + |places| && out <= all
            && forall k :: 0 <= k < |places| ==>
                 && places[k].path < |paths| && paths[places[k].path].backend.Some?
                 && all[|out| + k] == RouteOf(|out| + k, host, paths[places[k].path], lbname, pools)
  {
    hide PoolOf;
    if paths != [] {
      PathRoutesAre(out, host, paths[..|paths| - 1], lbname, pools, i);
    }
  }

  predicate Pooled(spec: IngressSpec, lbname: string, pools: map<string, string>) {
    forall i :: 0 <= i < |spec.rules| ==> AllPooled(PathsOf(spec.rules[i]), lbname, pools)
  }

  lemma {:induction false} ManifestAre(rules: seq<HostRule>, lbname: string, pools: map<string, string>)
    requires forall i :: 0 <= i < |rules| ==> AllPooled(PathsOf(rules[i]), lbname, pools)
    ensures var all, places := Manifest(rules, lbname, pools), Places(rules);
            && |all| == |places|
            && forall k :: 0 <= k < |places| ==>
                 && places[k].rule < |rules| && places[k].path < |PathsOf(rules[places[k].rule])|
                 && PathsOf(rules[places[k].rule])[places[k].path].backend.Some?
                 && all[k] == RouteOf(k, rules[places[k].rule].host,
                                      PathsOf(rules[places[k].rule])[places[k].path], lbname, pools)
  {
    hide AllPooled, PathPlaces, RouteOf;
    if rules != [] {
      var n := |rules| - 1;
      ManifestAre(rules[..n], lbname, pools);
      PathRoutesAre(Manifest(rules[..n], lbname, pools), rules[n].host, PathsOf(rules[n]), lbname, pools, n);
      PathPlacesAre(n, PathsOf(rules[n]));
      var before, more := Places(rules[..n]), PathPlaces(n, PathsOf(rules[n]));
      forall k | 0 <= k < |more| ensures more[k].rule == n { assert more[k] in more; }
    }
  }

  // ----- the theorem -----

  function Backing(spec: IngressSpec, i: nat, j: nat): Backend
    requires PathAt(spec, i, j)
  {
    PathsOf(spec.rules[i])[j].backend.value
  }

  /** The place of the k-th route. */
  lemma RouteAt(spec: IngressSpec, lbname: string, pools: map<string, string>, k: nat, q: Request)
    requires Pooled(spec, lbname, pools) && k < |Places(spec.rules)|
    ensures |Manifest(spec.rules, lbname, pools)| == |Places(spec.rules)|
    ensures var r, x := Manifest(spec.rules, lbname, pools)[k], Places(spec.rules)[k];
            && PathAt(spec, x.rule, x.path) && r.order == k && |r.path| == Length(spec, x.rule, x.path)
            && r.pool == PoolOf(pools, lbname, Backing(spec, x.rule, x.path))
            && (Means(r, q) <==> Asked(spec, x.rule, x.path, q))
  {
    ManifestAre(spec.rules, lbname, pools);
    hide Manifest, Places, PoolOf;
  }

  lemma PlaceOf(spec: IngressSpec, i: nat, j: nat) returns (k: nat)
    requires PathAt(spec, i, j)
    ensures k < |Places(spec.rules)| && Places(spec.rules)[k] == Place(i, j)
  {
    PlacesAre(spec.rules);
    assert Place(i, j) in Places(spec.rules);
    k :| k < |Places(spec.rules)| && Places(spec.rules)[k] == Place(i, j);
  }

  lemma RouteIn(spec: IngressSpec, lbname: string, pools: map<string, string>, r: Route) returns (k: nat)
    requires r in Ordering.Sort(Manifest(spec.rules, lbname, pools), LongerFirst)
    ensures k < |Manifest(spec.rules, lbname, pools)| && Manifest(spec.rules, lbname, pools)[k] == r
  {
    var m := Manifest(spec.rules, lbname, pools);
    Ordering.SortMembers(m, LongerFirst);
    assert r in m;
    k :| k < |m| && m[k] == r;
  }

  lemma RouteThere(spec: IngressSpec, lbname: string, pools: map<string, string>, k: nat)
    requires k < |Manifest(spec.rules, lbname, pools)|
    ensures Manifest(spec.rules, lbname, pools)[k] in Ordering.Sort(Manifest(spec.rules, lbname, pools), LongerFirst)
  {
    Ordering.SortMembers(Manifest(spec.rules, lbname, pools), LongerFirst);
  }

  lemma SortedRoutes(spec: IngressSpec, lbname: string, pools: map<string, string>)
    ensures InOrder(Ordering.Sort(Manifest(spec.rules, lbname, pools), LongerFirst))
  {
    ManifestAscends(spec.rules, lbname, pools);
    AscendingOrders(Manifest(spec.rules, lbname, pools));
    SortInOrder(Manifest(spec.rules, lbname, pools));
  }

  /** A path asked for is one some policy takes, and the policy that wins is no
      shorter, and written first if as long. */
  lemma AskedTaken(spec: IngressSpec, lbname: string, pools: map<string, string>, q: Request, i: nat, j: nat)
    requires Pooled(spec, lbname, pools) && PathAt(spec, i, j) && Asked(spec, i, j, q)
    ensures var s := Ordering.Sort(Manifest(spec.rules, lbname, pools), LongerFirst);
            && FirstMatch(s, q).Some?
            && (|FirstMatch(s, q).value.path| > Length(spec, i, j)
                || (|FirstMatch(s, q).value.path| == Length(spec, i, j)
                    && exists m :: 0 <= m < |Places(spec.rules)| && Places(spec.rules)[m] == Place(i, j)
                                   && FirstMatch(s, q).value.order <= m))
  {
    var s := Ordering.Sort(Manifest(spec.rules, lbname, pools), LongerFirst);
    SortedRoutes(spec, lbname, pools);
    FirstMatchIs(s, q);
    var m := PlaceOf(spec, i, j);
    hide Manifest, Places, PoolOf, FirstMatch, InOrder, Means, Asked, Pooled, Ordering.Sort, PathAt;
    RouteAt(spec, lbname, pools, m, q);
    RouteThere(spec, lbname, pools, m);
  }

  /** The first policy that takes a request is the winning path's. */
  lemma FirstWins(spec: IngressSpec, lbname: string, pools: map<string, string>, q: Request) returns (i: nat, j: nat)
    requires Pooled(spec, lbname, pools)
    requires FirstMatch(Ordering.Sort(Manifest(spec.rules, lbname, pools), LongerFirst), q).Some?
    ensures var s := Ordering.Sort(Manifest(spec.rules, lbname, pools), LongerFirst);
            Wins(spec, q, i, j) && FirstMatch(s, q).value.pool == PoolOf(pools, lbname, Backing(spec, i, j))
  {
    var s := Ordering.Sort(Manifest(spec.rules, lbname, pools), LongerFirst);
    SortedRoutes(spec, lbname, pools);
    FirstMatchIs(s, q);
    hide Manifest, Places, PoolOf, FirstMatch, InOrder, Means, Asked, Pooled, Ordering.Sort, PathAt, Ascend;
    var w := FirstMatch(s, q).value;
    var n := RouteIn(spec, lbname, pools, w);
    SameLength(spec, lbname, pools);
    RouteAt(spec, lbname, pools, n, q);
    PlacesAscend(spec);
    i, j := Places(spec.rules)[n].rule, Places(spec.rules)[n].path;
    forall k: nat, l: nat | PathAt(spec, k, l) && Asked(spec, k, l, q) && !(k == i && l == j)
      ensures Length(spec, k, l) < Length(spec, i, j)
              || (Length(spec, k, l) == Length(spec, i, j) && WrittenBefore(i, j, k, l))
    {
      AskedTaken(spec, lbname, pools, q, k, l);
      if Length(spec, k, l) == Length(spec, i, j) {
        var m :| 0 <= m < |Places(spec.rules)| && Places(spec.rules)[m] == Place(k, l) && n <= m;
        InTurn(Places(spec.rules), n, m);
      }
    }
  }

  lemma InTurn(s: seq<Place>, m: nat, n: nat)
    requires Ascend(s) && m <= n < |s| && s[m] != s[n]
    ensures WrittenBefore(s[m].rule, s[m].path, s[n].rule, s[n].path)
  {
  }

  /** A request is taken by some policy exactly when some path is asked for, and
      then goes to the pool of the winning path's backend. */
  lemma WinnerServed(spec: IngressSpec, lbname: string, pools: map<string, string>, q: Request)
    requires Pooled(spec, lbname, pools)
    ensures var s := Ordering.Sort(Manifest(spec.rules, lbname, pools), LongerFirst);
            && (FirstMatch(s, q).Some? <==> exists i, j :: Wins(spec, q, i, j))
            && (FirstMatch(s, q).None? ==> forall i, j :: PathAt(spec, i, j) ==> !Asked(spec, i, j, q))
            && forall i, j :: Wins(spec, q, i, j) ==>
                 FirstMatch(s, q).value.pool == PoolOf(pools, lbname, Backing(spec, i, j))
  {
    var s := Ordering.Sort(Manifest(spec.rules, lbname, pools), LongerFirst);
    hide Manifest, PoolOf, FirstMatch, Asked, Pooled, Ordering.Sort, PathAt;
    forall i: nat, j: nat | PathAt(spec, i, j) && Asked(spec, i, j, q) ensures FirstMatch(s, q).Some? {
      AskedTaken(spec, lbname, pools, q, i, j);
    }
    if FirstMatch(s, q).Some? {
      var i, j := FirstWins(spec, lbname, pools, q);
      forall k: nat, l: nat | Wins(spec, q, k, l) ensures k == i && l == j { OneWins(spec, q, i, j, k, l); }
    }
  }

  lemma PlacesAscend(spec: IngressSpec)
    ensures Ascend(Places(spec.rules))
  {
    PlacesAre(spec.rules);
  }

  lemma SameLength(spec: IngressSpec, lbname: string, pools: map<string, string>)
    requires Pooled(spec, lbname, pools)
    ensures |Manifest(spec.rules, lbname, pools)| == |Places(spec.rules)|
  {
    ManifestAre(spec.rules, lbname, pools);
  }
}
