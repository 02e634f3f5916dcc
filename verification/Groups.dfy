/** IsolationOf of pkg/netpol/translate.go and GroupsFor of
    pkg/netpol/reconciler.go: which security groups a pod's port should carry. */
module Groups {
  import opened Wrappers
  import opened NetworkPolicy
  import opened Translate
  import opened RuleSets
  import opened Baseline
  import Ordering

  datatype GroupsError = NotResolved | BadPolicy | Pending(policy: string)

  /** What one policy's translation tells about one pod: whether it is of the
      pod's namespace, translates, selects the pod, which directions it
      isolates, and whether it has any rule to send. */
  datatype Facts = Facts(
    key: string,
    name: string,
    here: bool,
    ok: bool,
    selects: bool,
    isolates: set<Direction>,
    allows: bool)

  function FactsOf(e: Env, pod: Pod, p: Policy): Facts {
    var here := p.namespace == pod.namespace;
    match Translation(e, p)
    case Err(_) => Facts(p.Key(), p.name, here, false, false, {}, false)
    case Ok(t) =>
      Facts(p.Key(), p.name, here, true, e.matches(t.subject, pod.labels), t.isolates, RulesOfPolicy(t).rules != [])
  }

  function AllFacts(e: Env, pod: Pod, policies: seq<Policy>): (r: seq<Facts>)
    ensures |r| == |policies|
  {
    if policies == [] then []
    else AllFacts(e, pod, policies[..|policies| - 1]) + [FactsOf(e, pod, policies[|policies| - 1])]
  }

  lemma {:induction false} AllFactsAt(e: Env, pod: Pod, policies: seq<Policy>, i: nat)
    requires i < |policies|
    ensures AllFacts(e, pod, policies)[i] == FactsOf(e, pod, policies[i])
  {
    if i < |policies| - 1 {
      AllFactsAt(e, pod, policies[..|policies| - 1], i);
    }
  }

  method Judge(e: Env, pod: Pod, p: Policy) returns (x: Facts)
    ensures x == FactsOf(e, pod, p)
  {
    var here := p.namespace == pod.namespace;
    var t := TranslatePolicy(e, p);
    if t.Err? {
      return Facts(p.Key(), p.name, here, false, false, {}, false);
    }
    var set' := PolicyRules(t.value);
    x := Facts(p.Key(), p.name, here, true, e.matches(t.value.subject, pod.labels), t.value.isolates, set'.rules != []);
  }

  /** Every policy translated once and judged against the pod. */
  method JudgeAll(e: Env, pod: Pod, policies: seq<Policy>) returns (facts: seq<Facts>)
    ensures facts == AllFacts(e, pod, policies)
  {
    facts := [];
    for i := 0 to |policies|
      invariant facts == AllFacts(e, pod, policies[..i])
    {
      assert policies[..i + 1][..i] == policies[..i];
      var x := Judge(e, pod, policies[i]);
      facts := facts + [x];
    }
    assert policies[..|policies|] == policies;
  }

  predicate IsolatesIn(x: Facts, dir: Direction) {
    x.here && x.selects && dir in x.isolates
  }

  /** The names of the policies isolating a pod in one direction, as listed. */
  function Isolators(facts: seq<Facts>, dir: Direction): seq<string> {
    if facts == [] then []
    else
      var last := facts[|facts| - 1];
      Isolators(facts[..|facts| - 1], dir) + (if IsolatesIn(last, dir) then [last.name] else [])
  }

  predicate AllTranslate(facts: seq<Facts>) {
    forall i :: 0 <= i < |facts| && facts[i].here ==> facts[i].ok
  }

  function Appended(m: map<Direction, seq<string>>, dir: Direction, x: Facts): map<Direction, seq<string>> {
    if dir in x.isolates then m[dir := (if dir in m then m[dir] else []) + [x.name]] else m
  }

  function IsolatorMap(facts: seq<Facts>): map<Direction, seq<string>> {
    if facts == [] then map[]
    else
      var m, x := IsolatorMap(facts[..|facts| - 1]), facts[|facts| - 1];
      if x.here && x.selects then Appended(Appended(m, Ingress, x), Egress, x) else m
  }

  lemma AppendedTwice(m: map<Direction, seq<string>>, x: Facts, dir: Direction)
    ensures var t := Appended(Appended(m, Ingress, x), Egress, x);
            && (dir in t <==> dir in m || dir in x.isolates)
            && (dir in t ==> t[dir] == (if dir in m then m[dir] else []) + (if dir in x.isolates then [x.name] else []))
  {
    if dir.Ingress? { } else { }
  }

  lemma {:induction false} IsolatorMapIs(facts: seq<Facts>, dir: Direction)
    ensures dir in IsolatorMap(facts) <==> Isolators(facts, dir) != []
    ensures dir in IsolatorMap(facts) ==> IsolatorMap(facts)[dir] == Isolators(facts, dir)
  {
    if facts != [] {
      var x := facts[|facts| - 1];
      IsolatorMapIs(facts[..|facts| - 1], dir);
      if x.here && x.selects { AppendedTwice(IsolatorMap(facts[..|facts| - 1]), x, dir); }
    }
  }

  /** Which directions a pod is in default-deny for, and by whom. */
  method IsolationOf(facts: seq<Facts>) returns (r: Result<map<Direction, seq<string>>, GroupsError>)
    ensures r.Ok? <==> AllTranslate(facts)
    ensures r.Ok? ==> (Ingress in r.value <==> Isolators(facts, Ingress) != [])
    ensures r.Ok? ==> (Egress in r.value <==> Isolators(facts, Egress) != [])
    ensures r.Ok? && Ingress in r.value ==> r.value[Ingress] == Ordering.SortStrings(Isolators(facts, Ingress))
    ensures r.Ok? && Egress in r.value ==> r.value[Egress] == Ordering.SortStrings(Isolators(facts, Egress))
  {
    var found: map<Direction, seq<string>> := map[];
    for i := 0 to |facts|
      invariant forall k :: 0 <= k < i && facts[k].here ==> facts[k].ok
      invariant found == IsolatorMap(facts[..i])
    {
      assert facts[..i + 1][..i] == facts[..i];
      var x := facts[i];
      if !x.here {
        continue;
      }
      if !x.ok {
        return Err(BadPolicy);
      }
      if !x.selects {
        continue;
      }
      found := Appended(found, Ingress, x);
      found := Appended(found, Egress, x);
    }
    assert facts[..|facts|] == facts;
    IsolatorMapIs(facts, Ingress);
    IsolatorMapIs(facts, Egress);
    if Ingress in found {
      found := found[Ingress := Ordering.SortStrings(found[Ingress])];
    }
    if Egress in found {
      found := found[Egress := Ordering.SortStrings(found[Egress])];
    }
    return Ok(found);
  }

  /** One cached group per selecting policy that allows anything; the first
      policy not yet prepared stops it. */
  function PolicyGroups(cache: map<string, string>, facts: seq<Facts>): Result<seq<string>, GroupsError> {
    if facts == [] then Ok([])
    else
      var x := facts[|facts| - 1];
      match PolicyGroups(cache, facts[..|facts| - 1])
      case Err(why) => Err(why)
      case Ok(out) =>
        if !x.ok then Err(BadPolicy)
        else if !x.selects || !x.allows then Ok(out)
        else if x.key !in cache then Err(Pending(x.key))
        else if cache[x.key] == "" then Ok(out)
        else Ok(out + [cache[x.key]])
  }

  lemma {:induction false} StoppedEarly(cache: map<string, string>, facts: seq<Facts>, i: nat)
    requires i <= |facts| && PolicyGroups(cache, facts[..i]).Err?
    ensures PolicyGroups(cache, facts) == PolicyGroups(cache, facts[..i])
    decreases |facts| - i
  {
    if i == |facts| {
      assert facts[..i] == facts;
    } else {
      assert facts[..i + 1][..i] == facts[..i];
      StoppedEarly(cache, facts, i + 1);
    }
  }

  method PolicyGroupsFor(cache: map<string, string>, facts: seq<Facts>) returns (r: Result<seq<string>, GroupsError>)
    ensures r == PolicyGroups(cache, facts)
  {
    var out := [];
    for i := 0 to |facts|
      invariant PolicyGroups(cache, facts[..i]) == Ok(out)
    {
      assert facts[..i + 1][..i] == facts[..i];
      var x := facts[i];
      if !x.ok {
        StoppedEarly(cache, facts, i + 1);
        return Err(BadPolicy);
      }
      if !x.selects || !x.allows {
        continue;
      }
      if x.key !in cache {
        StoppedEarly(cache, facts, i + 1);
        return Err(Pending(x.key));
      }
      if cache[x.key] != "" {
        out := out + [cache[x.key]];
      }
    }
    assert facts[..|facts|] == facts;
    return Ok(out);
  }

  function Unsorted(b: BaselineIds, ingress: bool, egress: bool, allowed: seq<string>): seq<string> {
    [b.denyAll] + (if ingress then [b.ingress] else []) + (if egress then [b.egress] else []) + allowed
  }

  function GroupList(b: BaselineIds, cache: map<string, string>, facts: seq<Facts>): Result<seq<string>, GroupsError> {
    var ingress := Isolators(facts, Ingress);
    var egress := Isolators(facts, Egress);
    if b.ingress == "" || b.egress == "" || b.denyAll == "" then Err(NotResolved)
    else if !AllTranslate(facts) then Err(BadPolicy)
    else if ingress == [] && egress == [] then Ok([b.denyAll, b.ingress, b.egress])
    else
      match PolicyGroups(cache, facts)
      case Err(why) => Err(why)
      case Ok(allowed) => Ok(Ordering.SortStrings(Unsorted(b, ingress == [], egress == [], allowed)))
  }

  method Assemble(b: BaselineIds, ingress: bool, egress: bool, allowed: seq<string>) returns (out: seq<string>)
    ensures out == Ordering.SortStrings(Unsorted(b, ingress, egress, allowed))
  {
    var groups := [b.denyAll];
    if ingress {
      groups := groups + [b.ingress];
    }
    if egress {
      groups := groups + [b.egress];
    }
    groups := groups + allowed;
    assert groups == Unsorted(b, ingress, egress, allowed);
    out := Ordering.SortStrings(groups);
  }

  method ListFor(b: BaselineIds, cache: map<string, string>, facts: seq<Facts>)
    returns (r: Result<seq<string>, GroupsError>)
    ensures r == GroupList(b, cache, facts)
  {
    if b.ingress == "" || b.egress == "" || b.denyAll == "" {
      return Err(NotResolved);
    }
    var isolated := IsolationOf(facts);
    if isolated.Err? {
      return Err(BadPolicy);
    }
    var ingress, egress := Ingress in isolated.value, Egress in isolated.value;
    if !ingress && !egress {
      return Ok([b.denyAll, b.ingress, b.egress]);
    }
    var allowed := PolicyGroupsFor(cache, facts);
    if allowed.Err? {
      return Err(allowed.error);
    }
    var groups := Assemble(b, !ingress, !egress, allowed.value);
    return Ok(groups);
  }

  /** The security group list a pod's port should carry. */
  method GroupsFor(e: Env, b: BaselineIds, cache: map<string, string>, pod: Pod, policies: seq<Policy>)
    returns (r: Result<seq<string>, GroupsError>)
    ensures r == GroupList(b, cache, AllFacts(e, pod, policies))
  {
    var facts := JudgeAll(e, pod, policies);
    r := ListFor(b, cache, facts);
  }

  // ----- what is on the list -----

  lemma {:induction false} IsolatorsAre(facts: seq<Facts>, dir: Direction)
    ensures Isolators(facts, dir) == [] <==> forall x :: x in facts ==> !IsolatesIn(x, dir)
  {
    if facts != [] {
      IsolatorsAre(facts[..|facts| - 1], dir);
      assert facts == facts[..|facts| - 1] + [facts[|facts| - 1]];
    }
  }

  /** A direction is left open when no policy isolates the pod in it. */
  predicate Open(facts: seq<Facts>, dir: Direction) {
    forall x :: x in facts ==> !IsolatesIn(x, dir)
  }

  lemma {:induction false} AllPrepared(cache: map<string, string>, facts: seq<Facts>)
    requires forall x :: x in facts ==> x.ok && x.key in cache
    ensures PolicyGroups(cache, facts).Ok?
  {
    if facts != [] {
      assert facts[|facts| - 1] in facts;
      AllPrepared(cache, facts[..|facts| - 1]);
    }
  }

  /** A list is given for an isolated pod only when every selecting policy that
      allows anything has been prepared. */
  lemma ListedWhenPrepared(b: BaselineIds, cache: map<string, string>, facts: seq<Facts>, dir: Direction)
    requires GroupList(b, cache, facts).Ok? && !Open(facts, dir)
    ensures PolicyGroups(cache, facts).Ok?
  {
    IsolatorsAre(facts, dir);
  }

  predicate Carries(cache: map<string, string>, x: Facts, g: string) {
    x.selects && x.allows && x.key in cache && cache[x.key] == g && g != ""
  }

  lemma {:induction false} PolicyGroupsAre(cache: map<string, string>, facts: seq<Facts>)
    requires PolicyGroups(cache, facts).Ok?
    ensures forall x :: x in facts ==> x.ok && (x.selects && x.allows ==> x.key in cache)
    ensures forall g :: g in PolicyGroups(cache, facts).value <==> exists x :: x in facts && Carries(cache, x, g)
  {
    if facts != [] {
      var init, last := facts[..|facts| - 1], facts[|facts| - 1];
      PolicyGroupsAre(cache, init);
      assert facts == init + [last];
      var before, after := PolicyGroups(cache, init).value, PolicyGroups(cache, facts).value;
      forall g ensures g in after <==> g in before || Carries(cache, last, g) {
      }
    }
  }

  /** Which groups are on the list: the anchor always, an opening group exactly
      when its direction is not isolated, and - once any direction is - one
      group for every selecting policy that allows anything. */
  lemma UnisolatedMembers(b: BaselineIds, cache: map<string, string>, facts: seq<Facts>)
    requires GroupList(b, cache, facts).Ok? && Open(facts, Ingress) && Open(facts, Egress)
    ensures GroupList(b, cache, facts).value == [b.denyAll, b.ingress, b.egress]
  {
    IsolatorsAre(facts, Ingress);
    IsolatorsAre(facts, Egress);
  }

  lemma IsolatedList(b: BaselineIds, cache: map<string, string>, facts: seq<Facts>)
    requires GroupList(b, cache, facts).Ok? && !(Open(facts, Ingress) && Open(facts, Egress))
    ensures PolicyGroups(cache, facts).Ok?
    ensures GroupList(b, cache, facts).value ==
              Ordering.SortStrings(Unsorted(b, Open(facts, Ingress), Open(facts, Egress),
                                            PolicyGroups(cache, facts).value))
  {
    IsolatorsAre(facts, Ingress);
    IsolatorsAre(facts, Egress);
  }

  lemma GroupListMembers(b: BaselineIds, cache: map<string, string>, facts: seq<Facts>, g: string)
    requires GroupList(b, cache, facts).Ok?
    ensures g in GroupList(b, cache, facts).value <==>
              || g == b.denyAll
              || (g == b.ingress && Open(facts, Ingress))
              || (g == b.egress && Open(facts, Egress))
              || (!(Open(facts, Ingress) && Open(facts, Egress)) && exists x :: x in facts && Carries(cache, x, g))
  {
    hide GroupList, PolicyGroups, Open;
    if Open(facts, Ingress) && Open(facts, Egress) {
      UnisolatedMembers(b, cache, facts);
    } else {
      IsolatedList(b, cache, facts);
      PolicyGroupsAre(cache, facts);
      UnsortedMembers(b, Open(facts, Ingress), Open(facts, Egress), PolicyGroups(cache, facts).value, g);
    }
  }

  lemma UnsortedMembers(b: BaselineIds, ingress: bool, egress: bool, allowed: seq<string>, g: string)
    ensures g in Ordering.SortStrings(Unsorted(b, ingress, egress, allowed)) <==>
              g == b.denyAll || (g == b.ingress && ingress) || (g == b.egress && egress) || g in allowed
  {
    Ordering.SortMembers(Unsorted(b, ingress, egress, allowed), Ordering.StrLe);
  }

  /** The anchor is always there, so the list is never empty - Neutron would
      read an empty one as "use the project default". */
  lemma DenyAllAlwaysListed(b: BaselineIds, cache: map<string, string>, facts: seq<Facts>)
    requires GroupList(b, cache, facts).Ok?
    ensures b.denyAll in GroupList(b, cache, facts).value
  {
    GroupListMembers(b, cache, facts, b.denyAll);
  }

  /** A pod's list comes out ascending exactly when some direction is isolated
      or the baseline ids happen to ascend. An unisolated pod whose ids do not
      never compares equal to its sorted port, and is rewritten on every pass. */
  lemma UnisolatedListOrder(b: BaselineIds, cache: map<string, string>, facts: seq<Facts>)
    requires GroupList(b, cache, facts).Ok?
    ensures (exists have: seq<string> :: Ordering.SortStrings(have) == GroupList(b, cache, facts).value)
       <==> || !(Open(facts, Ingress) && Open(facts, Egress))
            || (Ordering.StrLe(b.denyAll, b.ingress) && Ordering.StrLe(b.ingress, b.egress))
  {
    hide GroupList, PolicyGroups, Open;
    if Open(facts, Ingress) && Open(facts, Egress) {
      UnisolatedMembers(b, cache, facts);
      TripleSorted(b.denyAll, b.ingress, b.egress);
    } else {
      IsolatedList(b, cache, facts);
      var list := Unsorted(b, Open(facts, Ingress), Open(facts, Egress), PolicyGroups(cache, facts).value);
      assert Ordering.SortStrings(list) == GroupList(b, cache, facts).value;
    }
  }

  lemma TripleSorted(x: string, y: string, z: string)
    ensures (exists have: seq<string> :: Ordering.SortStrings(have) == [x, y, z])
       <==> Ordering.StrLe(x, y) && Ordering.StrLe(y, z)
  {
    if have :| Ordering.SortStrings(have) == [x, y, z] {
      SortedTriple(have, x, y, z);
    }
    if Ordering.StrLe(x, y) && Ordering.StrLe(y, z) {
      AscendingTriple(x, y, z);
    }
  }

  lemma SortedTriple(have: seq<string>, x: string, y: string, z: string)
    requires Ordering.SortStrings(have) == [x, y, z]
    ensures Ordering.StrLe(x, y) && Ordering.StrLe(y, z)
  {
    Ordering.SortIdempotent(have);
    var list := Ordering.SortStrings(have);
    assert list[0] == x && list[1] == y && list[2] == z;
  }

  lemma AscendingTriple(x: string, y: string, z: string)
    requires Ordering.StrLe(x, y) && Ordering.StrLe(y, z)
    ensures Ordering.SortStrings([x, y, z]) == [x, y, z]
  {
    hide Ordering.StrLe, Ordering.SortStrings;
    var list := [x, y, z];
    Ordering.StrLeTrans(x, y, z);
    Ordering.SortIdempotent(list);
    Ordering.AscendingUnique(Ordering.SortStrings(list), list);
  }
}
