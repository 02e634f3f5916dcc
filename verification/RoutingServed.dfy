/** One reconcile of an Ingress, pools to policies to collection
    (pkg/ingress/reconciler.go:259-313), and what the listener then answers. */
module RoutingServed {
  import opened Wrappers
  import opened Text
  import opened Routing
  import opened RoutingSync
  import opened RoutingWinner
  import Ordering

  // ----- what a listener answers -----

  predicate Takes(p: Policy, q: Request) {
    p.rules != [] && forall i :: 0 <= i < |p.rules| ==> RuleMatches(p.rules[i], q)
  }

  /** The pool of the first policy that takes the request. */
  function Answer(list: seq<Policy>, q: Request): Option<string> {
    if list == [] then None
    else if Takes(list[0], q) then Some(list[0].pool)
    else Answer(list[1..], q)
  }

  /** The listener sends every request where the routes say, and what they do not
      take to what was made out-of-band. */
  ghost predicate Serves(list: seq<Policy>, routes: seq<Route>, foreign: seq<Policy>) {
    forall q :: Answer(list, q) ==
                match FirstMatch(routes, q) case Some(r) => Some(r.pool) case None => Answer(foreign, q)
  }

  /** A policy takes what its route does. */
  ghost predicate Stands(p: Policy, r: Route) {
    p.pool == r.pool && forall q :: Takes(p, q) <==> Matches(r, q)
  }

  lemma {:induction false} StandingServes(made: seq<Policy>, routes: seq<Route>, foreign: seq<Policy>)
    requires |made| == |routes| && forall i :: 0 <= i < |made| ==> Stands(made[i], routes[i])
    ensures Serves(made + foreign, routes, foreign)
  {
    if made == [] {
      assert made + foreign == foreign;
    } else {
      StandingServes(made[1..], routes[1..], foreign);
      assert (made + foreign)[0] == made[0] && (made + foreign)[1..] == made[1..] + foreign;
      assert Stands(made[0], routes[0]);
      forall q
        ensures Answer(made + foreign, q) ==
                match FirstMatch(routes, q) case Some(r) => Some(r.pool) case None => Answer(foreign, q)
      {
      }
    }
  }

  // ----- a list just made -----

  lemma MadeServes(lbname: string, routes: seq<Route>, foreign: seq<Policy>)
    ensures Serves(AllRendered(Named(lbname, routes)) + foreign, routes, foreign)
  {
    var made := AllRendered(Named(lbname, routes));
    forall i | 0 <= i < |made| ensures Stands(made[i], routes[i]) {
      assert made[i].rules == RulesFor(routes[i]);
    }
    StandingServes(made, routes, foreign);
  }

  // ----- a policy read back -----

  function RouteOf(d: Desired): Route {
    Route(0, d.pool, d.host, d.path, d.pathType)
  }

  predicate HostTaken(d: Desired, q: Request) {
    d.host == "" || q.host == d.host
  }

  predicate PathTaken(d: Desired, q: Request) {
    d.path == "" || if d.pathType == "Exact" then q.path == d.path else d.path <= q.path
  }

  lemma RouteTakes(d: Desired, q: Request)
    ensures Matches(RouteOf(d), q) <==> (d.host != "" || d.path != "") && HostTaken(d, q) && PathTaken(d, q)
  {
    MatchesMeans(RouteOf(d), q);
  }

  /** A policy takes exactly the requests of the route it reads back as. */
  ghost predicate ReadsRight(p: Policy) {
    forall q :: Takes(p, q) <==> Matches(RouteOf(ReadBack(p)), q)
  }

  /** Every request of the route passes this rule. For the comparisons rendered
      here that is a matter of the texts. */
  ghost predicate Implied(d: Desired, l: L7Rule) {
    match l
    case OnHost(EqualTo, v, false) => v != "" && d.host == v
    case OnHost(StartsWith, v, false) => v <= d.host
    case OnPath(EqualTo, v, false) => v != "" && d.pathType == "Exact" && d.path == v
    case OnPath(StartsWith, v, false) => v <= d.path
    case _ => forall q :: Matches(RouteOf(d), q) ==> RuleMatches(l, q)
  }

  lemma PassesEqualHost(d: Desired, v: string)
    requires d.host != "" || d.path != ""
    ensures (v != "" && d.host == v) <==> forall q :: Matches(RouteOf(d), q) ==> RuleMatches(HostIs(v), q)
  {
    hide Matches;
    var q := Request(if d.host != "" then d.host else if v == "" then "x" else "", d.path, "");
    RouteTakes(d, q);
    forall q' { RouteTakes(d, q'); }
    assert !(v != "" && d.host == v) ==> Matches(RouteOf(d), q) && !RuleMatches(HostIs(v), q);
  }

  lemma PassesHostStart(d: Desired, v: string)
    requires d.host != "" || d.path != ""
    ensures v <= d.host <==> forall q :: Matches(RouteOf(d), q) ==> RuleMatches(OnHost(StartsWith, v, false), q)
  {
    hide Matches;
    var q := Request(d.host, d.path, "");
    RouteTakes(d, q);
    forall q' { RouteTakes(d, q'); }
    assert Matches(RouteOf(d), q);
  }

  lemma PassesEqualPath(d: Desired, v: string)
    requires d.host != "" || d.path != ""
    ensures (v != "" && d.pathType == "Exact" && d.path == v) <==>
              forall q :: Matches(RouteOf(d), q) ==> RuleMatches(PathIs(v), q)
  {
    hide Matches;
    var q, longer := Request(d.host, d.path, ""), Request(d.host, d.path + "x", "");
    RouteTakes(d, q);
    RouteTakes(d, longer);
    forall q' { RouteTakes(d, q'); }
    assert Matches(RouteOf(d), q) && (d.path == "" || d.pathType != "Exact" ==> Matches(RouteOf(d), longer));
    assert q.path != longer.path by { assert |q.path| < |longer.path|; }
  }

  lemma PassesPathStart(d: Desired, v: string)
    requires d.host != "" || d.path != ""
    ensures v <= d.path <==> forall q :: Matches(RouteOf(d), q) ==> RuleMatches(PathStarts(v), q)
  {
    hide Matches;
    var q := Request(d.host, d.path, "");
    RouteTakes(d, q);
    forall q' { RouteTakes(d, q'); }
    assert Matches(RouteOf(d), q);
  }

  lemma ImpliedIs(d: Desired, l: L7Rule)
    requires d.host != "" || d.path != ""
    ensures Implied(d, l) <==> forall q :: Matches(RouteOf(d), q) ==> RuleMatches(l, q)
  {
    hide Matches, RuleMatches;
    match l
    case OnHost(EqualTo, v, false) => PassesEqualHost(d, v);
    case OnHost(StartsWith, v, false) => PassesHostStart(d, v);
    case OnPath(EqualTo, v, false) => PassesEqualPath(d, v);
    case OnPath(StartsWith, v, false) => PassesPathStart(d, v);
    case _ =>
  }

  /** What was read is there as read; or else the rest of the policy happens to
      come to as much. */
  ghost predicate Pinned(p: Policy) {
    var d := ReadBack(p);
    && (d.host != "" ==> HostIs(d.host) in p.rules || forall q :: Takes(p, q) ==> HostTaken(d, q))
    && (d.path != "" ==> PathRule(d) in p.rules || forall q :: Takes(p, q) ==> PathTaken(d, q))
  }

  lemma PinnedTakes(p: Policy, q: Request)
    requires Pinned(p) && Takes(p, q)
    ensures HostTaken(ReadBack(p), q) && PathTaken(ReadBack(p), q)
  {
    var d := ReadBack(p);
    if d.host != "" && HostIs(d.host) in p.rules {
      var i :| 0 <= i < |p.rules| && p.rules[i] == HostIs(d.host);
      assert RuleMatches(p.rules[i], q);
    }
    if d.path != "" && PathRule(d) in p.rules {
      var i :| 0 <= i < |p.rules| && p.rules[i] == PathRule(d);
      assert RuleMatches(p.rules[i], q);
    }
  }

  /** The condition, on the rules one by one: nothing read but nothing taken
      either; or what was read is there, and every rule lets the whole route
      through. */
  ghost predicate Legible(p: Policy) {
    var d := ReadBack(p);
    if d.host == "" && d.path == "" then forall q :: !Takes(p, q)
    else Pinned(p) && forall i :: 0 <= i < |p.rules| ==> Implied(d, p.rules[i])
  }

  /** For every policy the load balancer can hold - any rules of any type, any
      comparison, inverted or not. */
  lemma ReadsRightExactly(p: Policy)
    ensures ReadsRight(p) <==> Legible(p)
  {
    var d := ReadBack(p);
    forall q { RouteTakes(d, q); }
    if d.host != "" || d.path != "" {
      assert p.rules != [];
      forall i | 0 <= i < |p.rules| { ImpliedIs(d, p.rules[i]); }
      hide Matches, Implied, RuleMatches, Pinned;
      if Legible(p) {
        forall q ensures Takes(p, q) <==> Matches(RouteOf(d), q) {
          if Takes(p, q) { PinnedTakes(p, q); }
        }
      }
      if ReadsRight(p) { RightIsPinned(p); }
    }
  }

  lemma RightIsPinned(p: Policy)
    requires ReadsRight(p) && (ReadBack(p).host != "" || ReadBack(p).path != "")
    ensures Pinned(p)
  {
    hide Matches, Takes;
    forall q | Takes(p, q)
      ensures HostTaken(ReadBack(p), q) && PathTaken(ReadBack(p), q)
    {
      RouteTakes(ReadBack(p), q);
    }
  }

  // ----- drift that goes unseen -----

  lemma ReadFront(d: Desired, l: L7Rule, rules: seq<L7Rule>)
    ensures ReadRules(d, [l] + rules) == ReadRules(Noted(d, l), rules)
  {
    if rules == [] {
      assert [l] + rules == [l];
      ReadOne(d, l);
    } else {
      assert ([l] + rules)[..|rules|] == [l] + rules[..|rules| - 1];
      ReadFront(d, l, rules[..|rules| - 1]);
    }
  }

  /** What stood there before a rule of the same type was read is forgotten. */
  lemma {:induction false} Forgotten(d: Desired, l: L7Rule, rules: seq<L7Rule>)
    ensures var a, b := ReadRules(Noted(d, l), rules), ReadRules(d, rules);
            && a.name == b.name && a.pool == b.pool
            && (l.OnHost? ==> a.path == b.path && a.pathType == b.pathType)
            && (l.OnPath? ==> a.host == b.host) && (l.Unread? ==> a == b)
            && ((exists r :: r in rules && SameType(l, r)) ==> a == b)
  {
    if rules != [] {
      var init, last := rules[..|rules| - 1], rules[|rules| - 1];
      Forgotten(d, l, init);
      assert rules == init + [last];
    }
  }

  predicate SameType(a: L7Rule, b: L7Rule) {
    (a.OnHost? && b.OnHost?) || (a.OnPath? && b.OnPath?)
  }

  /** A rule put in front of a policy that reads right goes unseen when it is of
      a type that is not read, or that the policy has already; and does harm
      exactly when it does not let the whole route through. */
  lemma DriftUnseen(p: Policy, l: L7Rule)
    requires ReadsRight(p) && (ReadBack(p).host != "" || ReadBack(p).path != "")
    requires l.Unread? || exists r :: r in p.rules && SameType(l, r)
    ensures var more := p.(rules := [l] + p.rules);
            ReadBack(more) == ReadBack(p) && (ReadsRight(more) <==> Implied(ReadBack(p), l))
  {
    var none, d, more := Desired(p.name, p.pool, "", "", ""), ReadBack(p), p.(rules := [l] + p.rules);
    ReadFront(none, l, p.rules);
    Forgotten(none, l, p.rules);
    ImpliedIs(d, l);
    assert p.rules != [];
    hide Matches, RuleMatches, Implied, ReadBack;
    forall q ensures Takes(more, q) <==> RuleMatches(l, q) && Takes(p, q) {
      assert more.rules[0] == l && forall i :: 0 <= i < |p.rules| ==> more.rules[i + 1] == p.rules[i];
      if Takes(more, q) {
        forall i | 0 <= i < |p.rules| ensures RuleMatches(p.rules[i], q) { assert RuleMatches(more.rules[i + 1], q); }
      }
    }
  }

  // ----- a list found in step -----

  /** The listing can be told apart and read back. */
  ghost predicate Readable(list: seq<Policy>) {
    forall p :: p in list ==> Legible(p) && Separable(ReadBack(p))
  }

  lemma ReadKeeps(d: Desired, rules: seq<L7Rule>)
    ensures ReadRules(d, rules).name == d.name && ReadRules(d, rules).pool == d.pool
  {
  }

  lemma InStepServes(lbname: string, list: seq<Policy>, routes: seq<Route>)
    requires Readable(list) && Agrees(list, Named(lbname, routes))
    requires forall i :: 0 <= i < |routes| ==> Separable(Named(lbname, routes)[i])
    ensures Serves(list, routes, []) && Foreign(lbname, list) == []
  {
    var desired := Named(lbname, routes);
    forall i | 0 <= i < |list| ensures Stands(list[i], routes[i]) && Ours(lbname, list[i].name) {
      assert list[i] in list;
      SignatureInjective(ReadBack(list[i]), desired[i]);
      OursNamed(lbname, i);
      ReadsRightExactly(list[i]);
      assert RulesFor(RouteOf(desired[i])) == RulesFor(routes[i]);
      ReadKeeps(Desired(list[i].name, list[i].pool, "", "", ""), list[i].rules);
    }
    StandingServes(list, routes, []);
    assert list + [] == list;
    ForeignNone(lbname, list);
  }

  // ----- one reconcile -----

  function DesiredRoutes(spec: IngressSpec, lbname: string, pools: map<string, string>): seq<Route> {
    Ordering.Sort(Manifest(spec.rules, lbname, pools), LongerFirst)
  }

  /** The listener already reads as what the Ingress asks for. */
  predicate InStepWith(list: seq<Policy>, spec: IngressSpec, lbname: string, pools: map<string, string>) {
    Agrees(list, Named(lbname, DesiredRoutes(spec, lbname, pools)))
  }

  lemma NamedAreOurs(lbname: string, routes: seq<Route>)
    ensures forall i :: 0 <= i < |routes| ==> Ours(lbname, Named(lbname, routes)[i].name)
  {
    forall i | 0 <= i < |routes| ensures Ours(lbname, Named(lbname, routes)[i].name) {
      OursNamed(lbname, i);
    }
  }

  ghost predicate AllCollected(spec: IngressSpec, all: seq<Backend>) {
    (forall b :: Refers(spec, b) ==> Collected(all, b)) && forall b :: b in all ==> Refers(spec, b)
  }

  /** Pools for every backend; ids says what making one under a name answers. */
  method EnsurePools(all: seq<Backend>, lbname: string, ids: string -> Option<string>)
    returns (ok: bool, pools: map<string, string>, keep: set<string>)
    requires forall name :: ids(name).Some? ==> ids(name).value != "" && PlainText(ids(name).value)
    ensures ok ==> PoolsFor(lbname, all, pools)
    ensures pools.Values == keep && PlainPools(pools)
    ensures forall name :: name in pools ==> ids(name) == Some(pools[name])
    ensures ok <==> forall k :: 0 <= k < |all| ==> ids(PoolName(lbname, all[k])).Some?
  {
    pools, keep := map[], {};
    for k := 0 to |all|
      invariant PoolsFor(lbname, all[..k], pools) && pools.Values == keep
      invariant forall name :: name in pools ==> ids(name) == Some(pools[name])
      invariant forall i :: 0 <= i < k ==> ids(PoolName(lbname, all[i])).Some?
      invariant PlainPools(pools) && forall name :: name in pools ==> pools[name] != ""
    {
      var name := PoolName(lbname, all[k]);
      var id := ids(name);
      if id.None? {
        return false, pools, keep;
      }
      OneMorePool(pools, keep, name, id.value);
      pools, keep := pools[name := id.value], keep + {id.value};
    }
    assert all[..|all|] == all;
    ok := true;
  }

  /** An id is the name's own, so none is lost when a name comes again. */
  lemma OneMorePool(pools: map<string, string>, keep: set<string>, name: string, id: string)
    requires pools.Values == keep && (name in pools ==> pools[name] == id)
    ensures pools[name := id].Values == keep + {id}
  {
    var more := pools[name := id];
    forall x ensures x in more.Values <==> x in keep + {id} {
      if x in keep {
        var n :| n in pools && pools[n] == x;
        assert n in more && more[n] == x;
      }
      if x == id { assert name in more && more[name] == id; }
    }
  }

  // ----- what a request gets -----

  /** Every request of some path goes to the pool made under the name of the
      winning path's own service and port; any other is answered by what was made
      out-of-band. */
  ghost predicate Answered(spec: IngressSpec, lbname: string, ids: string -> Option<string>, list: seq<Policy>,
                           foreign: seq<Policy>) {
    forall q :: AnsweredFor(spec, lbname, ids, list, foreign, q)
  }

  ghost predicate AnsweredFor(spec: IngressSpec, lbname: string, ids: string -> Option<string>, list: seq<Policy>,
                              foreign: seq<Policy>, q: Request) {
    || (exists i: nat, j: nat :: Wins(spec, q, i, j) && Answer(list, q) == ids(PoolName(lbname, Backing(spec, i, j))))
    || (Answer(list, q) == Answer(foreign, q) && forall i: nat, j: nat :: PathAt(spec, i, j) ==> !Asked(spec, i, j, q))
  }

  ghost predicate PlainServices(spec: IngressSpec) {
    forall b :: Refers(spec, b) ==> PlainBackend(b)
  }

  lemma BackingPooled(spec: IngressSpec, lbname: string, all: seq<Backend>, pools: map<string, string>, i: nat, j: nat)
    requires PlainServices(spec) && AllCollected(spec, all) && PoolsFor(lbname, all, pools) && PathAt(spec, i, j)
    ensures PoolOf(pools, lbname, Backing(spec, i, j)) != ""
  {
    var b := Backing(spec, i, j);
    assert Refers(spec, b);
    assert Collected(all, b);
    var k :| 0 <= k < |all| && BackendKey(all[k]) == BackendKey(b);
    assert all[k] in all && Refers(spec, all[k]);
    SameKeySamePool(lbname, all[k], b);
  }

  lemma AllArePooled(spec: IngressSpec, lbname: string, all: seq<Backend>, pools: map<string, string>)
    requires PlainServices(spec) && AllCollected(spec, all) && PoolsFor(lbname, all, pools)
    ensures Pooled(spec, lbname, pools)
  {
    hide PoolOf, AllCollected, PoolsFor;
    forall i, j | 0 <= i < |spec.rules| && 0 <= j < |PathsOf(spec.rules[i])| && PathsOf(spec.rules[i])[j].backend.Some?
      ensures PoolOf(pools, lbname, PathsOf(spec.rules[i])[j].backend.value) != ""
    {
      BackingPooled(spec, lbname, all, pools, i, j);
    }
  }

  /** What serves the routes answers for the manifest. */
  lemma ServesAnswered(spec: IngressSpec, lbname: string, ids: string -> Option<string>, pools: map<string, string>,
                       list: seq<Policy>, foreign: seq<Policy>)
    requires Pooled(spec, lbname, pools) && Serves(list, DesiredRoutes(spec, lbname, pools), foreign)
    requires forall name :: name in pools ==> ids(name) == Some(pools[name])
    ensures Answered(spec, lbname, ids, list, foreign)
  {
    hide AnsweredFor, Manifest, FirstMatch, Answer, Ordering.Sort, PoolName, Pooled;
    forall q { ServesAnsweredFor(spec, lbname, ids, pools, list, foreign, q); }
  }

  lemma ServesAnsweredFor(spec: IngressSpec, lbname: string, ids: string -> Option<string>, pools: map<string, string>,
                          list: seq<Policy>, foreign: seq<Policy>, q: Request)
    requires Pooled(spec, lbname, pools) && Serves(list, DesiredRoutes(spec, lbname, pools), foreign)
    requires forall name :: name in pools ==> ids(name) == Some(pools[name])
    ensures AnsweredFor(spec, lbname, ids, list, foreign, q)
  {
    hide Manifest, FirstMatch, Answer, Ordering.Sort, PoolName, Pooled, Asked, Length;
    WinnerServed(spec, lbname, pools, q);
    if FirstMatch(DesiredRoutes(spec, lbname, pools), q).Some? {
      var i: nat, j: nat :| Wins(spec, q, i, j);
      PooledAt(spec, lbname, pools, i, j);
      assert Wins(spec, q, i, j) && Answer(list, q) == ids(PoolName(lbname, Backing(spec, i, j)));
    }
  }

  lemma PooledAt(spec: IngressSpec, lbname: string, pools: map<string, string>, i: nat, j: nat)
    requires Pooled(spec, lbname, pools) && PathAt(spec, i, j)
    ensures PoolName(lbname, Backing(spec, i, j)) in pools
  {
  }

  // ----- nothing but a path holds the separator -----

  predicate PlainText(s: string) {
    !HasChar(s, '|')
  }

  /** Host names and path types do not. */
  predicate PlainSpec(spec: IngressSpec) {
    forall i :: 0 <= i < |spec.rules| ==> PlainText(spec.rules[i].host) && PlainPaths(PathsOf(spec.rules[i]))
  }

  predicate PlainPaths(paths: seq<Path>) {
    forall j :: 0 <= j < |paths| ==> paths[j].pathType.Some? ==> PlainText(paths[j].pathType.value)
  }

  predicate PlainRoute(r: Route) {
    PlainText(r.pool) && PlainText(r.host) && PlainText(r.pathType)
  }

  predicate PlainPools(pools: map<string, string>) {
    forall name :: name in pools ==> PlainText(pools[name])
  }

  lemma {:induction false} PathRoutesPlain(out: seq<Route>, host: string, paths: seq<Path>, lbname: string,
                                           pools: map<string, string>)
    requires PlainText(host) && PlainPaths(paths) && PlainPools(pools) && forall r :: r in out ==> PlainRoute(r)
    ensures forall r :: r in PathRoutes(out, host, paths, lbname, pools) ==> PlainRoute(r)
  {
    if paths != [] {
      PathRoutesPlain(out, host, paths[..|paths| - 1], lbname, pools);
      assert PlainText("Prefix");
    }
  }

  lemma {:induction false} ManifestPlain(rules: seq<HostRule>, lbname: string, pools: map<string, string>)
    requires forall i :: 0 <= i < |rules| ==> PlainText(rules[i].host) && PlainPaths(PathsOf(rules[i]))
    requires PlainPools(pools)
    ensures forall r :: r in Manifest(rules, lbname, pools) ==> PlainRoute(r)
  {
    if rules != [] {
      ManifestPlain(rules[..|rules| - 1], lbname, pools);
      var r := rules[|rules| - 1];
      PathRoutesPlain(Manifest(rules[..|rules| - 1], lbname, pools), r.host, PathsOf(r), lbname, pools);
    }
  }

  lemma NamedPlain(lbname: string, routes: seq<Route>)
    requires PlainText(lbname) && forall r :: r in routes ==> PlainRoute(r)
    ensures forall i :: 0 <= i < |routes| ==> Separable(Named(lbname, routes)[i])
  {
    forall i | 0 <= i < |routes| ensures Separable(Named(lbname, routes)[i]) {
      assert routes[i] in routes;
      DecimalHasNo(i, '|');
      assert NameOf(lbname, i) == lbname + "_l7_" + Decimal(i);
    }
  }

  lemma DefaultAmong(pools: map<string, string>, lbname: string, spec: IngressSpec)
    ensures var default := if spec.default.Some? then PoolOf(pools, lbname, spec.default.value) else "";
            default == "" || default in pools.Values
  {
  }

  lemma TargetIs(lbname: string, routes: seq<Route>, i: nat)
    requires i < |routes|
    ensures |AllRendered(Named(lbname, routes))| == |routes|
    ensures AllRendered(Named(lbname, routes))[i].pool == routes[i].pool
  {
  }

  /** The policies of one Ingress, compiled and brought to the listener. */
  method SyncRoutes(l: Listener, spec: IngressSpec, lbname: string, pools: map<string, string>)
    returns (ok: bool, routes: seq<Route>)
    requires PlainSpec(spec) && PlainText(lbname) && PlainPools(pools)
    modifies l
    ensures old(l.trace) <= l.trace && routes == DesiredRoutes(spec, lbname, pools)
    ensures Foreign(lbname, l.list) == Foreign(lbname, old(l.list))
    ensures ForeignKept(lbname, l.trace, |old(l.trace)|, Foreign(lbname, old(l.list)))
    ensures ok && (InStepWith(old(l.list), spec, lbname, pools) ==> Readable(old(l.list))) ==>
              Serves(l.list, routes, Foreign(lbname, old(l.list)))
    ensures old(l.Healthy()) ==> ok && l.Healthy()
  {
    hide Manifest, Named, Agrees, Serves, Foreign, Readable, PlainRoute, Ours, Separable, AllRendered, ForeignKept;
    routes := BuildDesiredPolicies(spec, lbname, pools);
    ManifestPlain(spec.rules, lbname, pools);
    Ordering.SortMembers(Manifest(spec.rules, lbname, pools), LongerFirst);
    NamedPlain(lbname, routes);
    NamedAreOurs(lbname, routes);
    ghost var was := l.list;
    ok := SyncPolicies(l, lbname, Named(lbname, routes));
    if !ok {
      return;
    }
    if Agrees(was, Named(lbname, routes)) {
      if Readable(was) { InStepServes(lbname, was, routes); }
    } else {
      MadeServes(lbname, routes, Foreign(lbname, was));
    }
  }

  /** Pools, then policies, then collection. When it succeeds the listener sends
      every request where the routes compiled from the Ingress say, whether it
      had to be written to or not, and no pool they point at is gone. */
  method Reconcile(l: Listener, spec: IngressSpec, lbname: string, ids: string -> Option<string>,
                   had: seq<Pool>, refuses: set<string>)
    returns (ok: bool, pools: map<string, string>, left: seq<Pool>)
    requires forall name :: ids(name).Some? ==> ids(name).value != "" && PlainText(ids(name).value)
    requires PlainSpec(spec) && PlainText(lbname)
    modifies l
    ensures old(l.trace) <= l.trace
    ensures Foreign(lbname, l.list) == Foreign(lbname, old(l.list))
    ensures ForeignKept(lbname, l.trace, |old(l.trace)|, Foreign(lbname, old(l.list)))
    ensures ok && (InStepWith(old(l.list), spec, lbname, pools) ==> Readable(old(l.list))) ==>
              Serves(l.list, DesiredRoutes(spec, lbname, pools), Foreign(lbname, old(l.list)))
    // Of the manifest itself: each request goes where the path that wins says.
    ensures ok && PlainServices(spec) && (InStepWith(old(l.list), spec, lbname, pools) ==> Readable(old(l.list))) ==>
              Answered(spec, lbname, ids, l.list, Foreign(lbname, old(l.list)))
    ensures forall name :: name in pools ==> ids(name) == Some(pools[name])
    // With no call failing.
    ensures old(l.Healthy()) && (forall b :: Refers(spec, b) ==> ids(PoolName(lbname, b)).Some?) && refuses == {} ==>
              ok && l.Healthy()
    ensures ok ==> forall p :: p in left && lbname + "_" <= p.name ==> p.id in pools.Values || p.id == ""
    ensures ok ==> exists all :: PoolsFor(lbname, all, pools) && AllCollected(spec, all)
    ensures forall p, r :: p in had && r in DesiredRoutes(spec, lbname, pools) && p.id == r.pool ==> p in left
  {
    hide PoolsFor, Manifest, Named, Agrees, Serves, Foreign, Readable, Ours, AllRendered, PlainServices, Answered,
         PoolOf, Refers, Collected, Pooled, PlainSpec, PlainPools, Ordering.Sort, InStepWith;
    left := had;
    var all := CollectBackends(spec);
    var keep;
    ok, pools, keep := EnsurePools(all, lbname, ids);
    if !ok {
      return;
    }
    ghost var was := l.list;
    var routes;
    ok, routes := SyncRoutes(l, spec, lbname, pools);
    if !ok {
      return;
    }
    if PlainServices(spec) && Serves(l.list, routes, Foreign(lbname, was)) {
      AllArePooled(spec, lbname, all, pools);
      ServesAnswered(spec, lbname, ids, pools, l.list, Foreign(lbname, was));
    }
    var default := if spec.default.Some? then PoolOf(pools, lbname, spec.default.value) else "";
    ok, left := GcStalePools(had, lbname, keep, default, refuses);
    DefaultAmong(pools, lbname, spec);
    forall p, r | p in had && r in routes && p.id == r.pool ensures p in left {
      var i :| 0 <= i < |routes| && routes[i] == r;
      TargetIs(lbname, routes, i);
      TargetsNotStale(spec, lbname, pools, keep, default, routes, i, p);
    }
  }
}
