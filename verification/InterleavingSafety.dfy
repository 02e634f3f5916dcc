/** What every move of every worker keeps, whatever the interleaving. */
module InterleavingSafety {
  import opened Wrappers
  import opened Faults
  import opened Text
  import opened NetworkPolicy
  import opened NeutronStore
  import opened NeutronClient
  import opened RulePass
  import opened RuleSync
  import opened Baseline
  import opened AddressSync
  import opened Sweeping
  import opened PolicySync
  import opened Protocol
  import opened Interleaving
  import Ordering

  // ----- the invariant -----

  /** Every policy group whose description can be read was made for the policy
      the description names. */
  ghost predicate Honest(h: string -> string, s: Store) {
    forall g ::
      g in s.groups && HasPrefix(s.groups[g].name, PolicyPrefix) && PolicyOf(s.groups[g].description) != "" ==>
      s.groups[g].name == GroupName(h, PolicyOf(s.groups[g].description))
  }

  ghost predicate OneGroupEach(h: string -> string, s: Store) {
    forall x :: OneNamed(s, GroupName(h, x))
  }

  /** One pod set to a name, for names no two passes raced to make. */
  ghost predicate OneSetEach(h: string -> string, s: Store, raced: set<string>) {
    forall x :: SetName(h, x) !in raced ==> OneSet(s, SetName(h, x))
  }

  ghost predicate StoreGood(h: string -> string, s: Store, b: BaselineIds, raced: set<string>) {
    && ValidStore(s) && StoredForms(s) && BaselineHolds(s, b) && Honest(h, s)
    && OneGroupEach(h, s) && OneSetEach(h, s, raced)
  }

  /** The group is the policy's own while it exists, and its id is no other's. */
  ghost predicate Own(h: string -> string, s: Store, key: string, g: string) {
    g != "" && GroupOf(h, s, key, g)
  }

  /** However the group came by these rules, this worker alone is changing them. */
  ghost predicate Creating(s: Store, g: string, have: seq<StoredRule>, want: seq<NRule>, i: nat) {
    && NoAliases(have) && i <= |want|
    && (g in s.groups ==>
          have <= s.groups[g].rules && Bodies(s.groups[g].rules) == CreateAll(Bodies(have), want[..i]))
  }

  ghost predicate Deleting(s: Store, g: string, have: seq<StoredRule>, want: seq<NRule>, j: nat) {
    && NoAliases(have) && j <= |have|
    && (g in s.groups ==>
          && (forall k :: j <= k < |have| ==> have[k] in s.groups[g].rules)
          && Bodies(s.groups[g].rules) == CreateAll(Bodies(have), want) - Removed(have, want, j))
  }

  /** One pass of EnsureRuleSet, exactly, unless a sweep took the group. */
  ghost predicate PassedExactly(s: Store, g: string, have: seq<StoredRule>, want: seq<NRule>) {
    NoAliases(have) && (g in s.groups ==> Bodies(s.groups[g].rules) == Pass(Bodies(have), want))
  }

  ghost predicate AllNormal(want: set<string>) {
    forall w :: w in want ==> Normal(w)
  }

  ghost predicate SetOurs(s: Store, a: string) {
    && (a in s.addressGroups ==> HasPrefix(s.addressGroups[a].name, PeersPrefix))
    && forall n: nat :: n >= s.next ==> a != IdOf(n)
  }

  ghost predicate TaskSafe(h: string -> string, s: Store, b: BaselineIds, raced: set<string>, t: Task) {
    match t
    case ReadSet(_, _, _, _, want) => AllNormal(want)
    case AddTo(_, _, _, _, want, _) => AllNormal(want)
    case MakeSet(p, _, i) => SetName(h, SetKey(p, i)) in raced || !SetExists(s, SetName(h, SetKey(p, i)))
    case MakeGroup(p, _) => !GroupExists(s, GroupName(h, p.key))
    case Correct(p, _, g) => Own(h, s, p.key, g)
    case ReadRules(p, _, g) => Own(h, s, p.key, g)
    case AddRule(p, g, have, want, i) => Own(h, s, p.key, g) && Creating(s, g, have, want, i)
    case DropRule(p, g, have, want, j) => Own(h, s, p.key, g) && Deleting(s, g, have, want, j)
    case Remember(p, g, have, want) => g != "" ==> Own(h, s, p.key, g) && PassedExactly(s, g, have, want)
    case ReadPort(_, _, list) => b.denyAll in list
    case WritePort(_, _, list) => b.denyAll in list
    case DropGroups(live, doomed, _) => forall g :: g in doomed ==> doomed[g] !in live && GroupOf(h, s, doomed[g], g)
    case DropSets(sets) => forall a :: a in sets ==> SetOurs(s, a)
    case _ => true
  }

  /** No two workers are passing over one policy. */
  predicate KeysApart(tasks: seq<Task>) {
    forall i, j :: 0 <= i < j < |tasks| && PassKey(tasks[i]).Some? ==> PassKey(tasks[i]) != PassKey(tasks[j])
  }

  ghost predicate Safe(h: string -> string, x: System) {
    && WellFormed(x.world)
    && StoreGood(h, x.store, x.baseline, x.raced)
    && CacheSafe(h, x.store, x.cache, x.returned)
    && (forall p :: p in x.written && p in x.store.ports ==> x.baseline.denyAll in x.store.ports[p])
    && (forall i :: 0 <= i < |x.tasks| ==> TaskSafe(h, x.store, x.baseline, x.raced, x.tasks[i]))
    && KeysApart(x.tasks)
  }

  // ----- what one worker's call looks like to the others -----

  ghost predicate New(s: Store, id: string) {
    exists n: nat :: n >= s.next && id == IdOf(n)
  }

  /** Only groups of one policy changed or appeared, only policy groups went,
      only pod sets of these names appeared. */
  ghost predicate Nudged(h: string -> string, s: Store, t: Store, key: Option<string>, made: set<string>) {
    && s.next <= t.next
    && (forall g :: g in t.groups && g in s.groups ==>
          && t.groups[g].name == s.groups[g].name
          && (key == None || s.groups[g].name != GroupName(h, key.value) ==> t.groups[g] == s.groups[g]))
    && (forall g :: g in t.groups && g !in s.groups ==>
          New(s, g) && key.Some? && t.groups[g].name == GroupName(h, key.value))
    && (forall g :: g in s.groups && g !in t.groups ==> HasPrefix(s.groups[g].name, PolicyPrefix))
    && (forall a :: a in t.addressGroups && a in s.addressGroups ==> t.addressGroups[a].name == s.addressGroups[a].name)
    && (forall a :: a in t.addressGroups && a !in s.addressGroups ==> New(s, a) && t.addressGroups[a].name in made)
  }

  lemma GroupOfKept(h: string -> string, s: Store, t: Store, key: Option<string>, made: set<string>, k: string,
                    g: string)
    requires Nudged(h, s, t, key, made) && GroupOf(h, s, k, g)
    ensures GroupOf(h, t, k, g)
  {
  }

  /** So the others may go on as if nothing happened. */
  lemma TaskKept(h: string -> string, s: Store, s': Store, b: BaselineIds, raced: set<string>, raced': set<string>,
                 key: Option<string>, made: set<string>, t: Task)
    requires Injective(h) && Nudged(h, s, s', key, made) && TaskSafe(h, s, b, raced, t) && raced <= raced'
    requires key.Some? ==> PassKey(t) != key
    requires Making(h, t) * made <= raced'
    ensures TaskSafe(h, s', b, raced', t)
  {
    if PassKey(t).Some? {
      var k := t.plan.key;
      if key.Some? { NamesApart(h, k, key.value); }
      if t.Correct? || t.ReadRules? || t.AddRule? || t.DropRule? || t.Remember? {
        if GroupOf(h, s, k, t.group) {
          GroupOfKept(h, s, s', key, made, k, t.group);
          assert t.group in s'.groups ==> t.group in s.groups && s'.groups[t.group] == s.groups[t.group];
        }
      }
      if t.MakeSet? {
        assert SetName(h, SetKey(t.plan, t.i)) in Making(h, t);
      }
    } else if t.DropGroups? {
      forall g | g in t.doomed ensures GroupOf(h, s', t.doomed[g], g) {
        GroupOfKept(h, s, s', key, made, t.doomed[g], g);
      }
    } else if t.DropSets? {
      forall a | a in t.sets ensures SetOurs(s', a) { assert SetOurs(s, a); SetOursKept(h, s, s', key, made, a); }
    }
  }

  lemma SetOursKept(h: string -> string, s: Store, t: Store, key: Option<string>, made: set<string>, a: string)
    requires Nudged(h, s, t, key, made) && SetOurs(s, a)
    ensures SetOurs(t, a)
  {
  }

  lemma BaselineKept(h: string -> string, s: Store, t: Store, key: Option<string>, made: set<string>, b: BaselineIds)
    requires Nudged(h, s, t, key, made) && BaselineHolds(s, b)
    ensures BaselineHolds(t, b)
  {
    BaselineNamesApart(h, if key.Some? then key.value else "");
  }

  lemma CacheKept(h: string -> string, s: Store, t: Store, key: Option<string>, made: set<string>,
                  cache: map<string, string>, returned: set<(string, string)>)
    requires Nudged(h, s, t, key, made) && CacheSafe(h, s, cache, returned)
    ensures CacheSafe(h, t, cache, returned)
  {
    forall k, id | (k, id) in returned ensures GroupOf(h, t, k, id) {
      GroupOfKept(h, s, t, key, made, k, id);
    }
  }

  // ----- each kind of write -----

  lemma GroupsStayOne(h: string -> string, s: Store, t: Store)
    requires OneGroupEach(h, s)
    requires forall g :: g in t.groups ==> g in s.groups && t.groups[g].name == s.groups[g].name
    ensures OneGroupEach(h, t)
  {
    forall x ensures OneNamed(t, GroupName(h, x)) { assert OneNamed(s, GroupName(h, x)); }
  }

  lemma SetsStayOne(h: string -> string, s: Store, t: Store, raced: set<string>)
    requires OneSetEach(h, s, raced)
    requires forall a :: a in t.addressGroups ==>
               a in s.addressGroups && t.addressGroups[a].name == s.addressGroups[a].name
    ensures OneSetEach(h, t, raced)
  {
    forall x | SetName(h, x) !in raced ensures OneSet(t, SetName(h, x)) { assert OneSet(s, SetName(h, x)); }
  }

  lemma HonestStays(h: string -> string, s: Store, t: Store)
    requires Honest(h, s)
    requires forall g :: g in t.groups ==>
               && g in s.groups && t.groups[g].name == s.groups[g].name
               && t.groups[g].description == s.groups[g].description
    ensures Honest(h, t)
  {
  }

  lemma NothingNudged(h: string -> string, s: Store, key: Option<string>)
    ensures Nudged(h, s, s, key, {})
  {
  }

  lemma SetMade(h: string -> string, s: Store, b: BaselineIds, raced: set<string>, name: string, key: Option<string>)
    requires StoreGood(h, s, b, raced) && (name in raced || !SetExists(s, name))
    ensures var t := CreateAddressGroup(s, name); Nudged(h, s, t, key, {name}) && StoreGood(h, t, b, raced)
  {
    hide ValidStore, StoredForms, BaselineHolds, Honest, OneGroupEach, OneSetEach, IdOf;
    var t := CreateAddressGroup(s, name);
    CreateAddressGroupValid(s, name);
    assert New(s, IdOf(s.next));
    GroupsStayOne(h, s, t);
    HonestStays(h, s, t);
    BaselineKept(h, s, t, key, {name}, b);
    SetAdded(h, s, raced, name);
  }

  lemma SetAdded(h: string -> string, s: Store, raced: set<string>, name: string)
    requires OneSetEach(h, s, raced) && StoredForms(s) && (name in raced || !SetExists(s, name))
    ensures OneSetEach(h, CreateAddressGroup(s, name), raced) && StoredForms(CreateAddressGroup(s, name))
  {
    var t := CreateAddressGroup(s, name);
    forall x | SetName(h, x) !in raced ensures OneSet(t, SetName(h, x)) {
      assert OneSet(s, SetName(h, x));
      if SetName(h, x) == name { assert !SetExists(s, name); }
    }
  }

  /** Pod sets lose or gain addresses, or go. */
  lemma SetsRewritten(h: string -> string, s: Store, t: Store, b: BaselineIds, raced: set<string>, key: Option<string>)
    requires StoreGood(h, s, b, raced) && ValidStore(t) && StoredForms(t)
    requires t == s.(addressGroups := t.addressGroups)
    requires forall a :: a in t.addressGroups ==>
               a in s.addressGroups && t.addressGroups[a].name == s.addressGroups[a].name
    ensures Nudged(h, s, t, key, {}) && StoreGood(h, t, b, raced)
  {
    hide ValidStore, StoredForms, BaselineHolds, Honest, OneGroupEach, OneSetEach;
    GroupsStayOne(h, s, t);
    SetsStayOne(h, s, t, raced);
    HonestStays(h, s, t);
    BaselineKept(h, s, t, key, {}, b);
  }

  lemma AddressesAdded(h: string -> string, s: Store, b: BaselineIds, raced: set<string>, a: string,
                       add: set<string>, key: Option<string>)
    requires StoreGood(h, s, b, raced) && AllNormal(add)
    ensures var t := AddAddresses(s, a, add).0; Nudged(h, s, t, key, {}) && StoreGood(h, t, b, raced)
  {
    hide ValidStore, BaselineHolds, Honest, OneGroupEach, OneSetEach;
    OtherCallsValid(s, a, "", add, []);
    SetsRewritten(h, s, AddAddresses(s, a, add).0, b, raced, key);
  }

  lemma AddressesRemoved(h: string -> string, s: Store, b: BaselineIds, raced: set<string>, a: string,
                         remove: set<string>, key: Option<string>)
    requires StoreGood(h, s, b, raced)
    ensures var t := RemoveAddresses(s, a, remove).0; Nudged(h, s, t, key, {}) && StoreGood(h, t, b, raced)
  {
    hide ValidStore, BaselineHolds, Honest, OneGroupEach, OneSetEach;
    OtherCallsValid(s, a, "", remove, []);
    SetsRewritten(h, s, RemoveAddresses(s, a, remove).0, b, raced, key);
  }

  lemma SetDropped(h: string -> string, s: Store, b: BaselineIds, raced: set<string>, a: string)
    requires StoreGood(h, s, b, raced)
    ensures var t := DeleteAddressGroup(s, a).0; Nudged(h, s, t, None, {}) && StoreGood(h, t, b, raced)
  {
    hide ValidStore, BaselineHolds, Honest, OneGroupEach, OneSetEach, Referenced;
    DeleteAddressGroupValid(s, a);
    SetsRewritten(h, s, DeleteAddressGroup(s, a).0, b, raced, None);
  }

  /** Groups change, pod sets do not. */
  lemma GroupsRewritten(h: string -> string, s: Store, t: Store, b: BaselineIds, raced: set<string>,
                        key: Option<string>)
    requires StoreGood(h, s, b, raced) && ValidStore(t) && t.addressGroups == s.addressGroups
    requires Nudged(h, s, t, key, {}) && Honest(h, t) && OneGroupEach(h, t)
    ensures StoreGood(h, t, b, raced)
  {
    hide ValidStore, BaselineHolds, Honest, OneGroupEach, OneSetEach, Nudged;
    SetsStayOne(h, s, t, raced);
    BaselineKept(h, s, t, key, {}, b);
  }

  lemma GroupMade(h: string -> string, s: Store, b: BaselineIds, raced: set<string>, key: string)
    requires StoreGood(h, s, b, raced) && !GroupExists(s, GroupName(h, key))
    ensures var t := CreateGroup(s, GroupName(h, key), Describing(key) + " [" + ManagedBy + "]");
            Nudged(h, s, t, Some(key), {}) && StoreGood(h, t, b, raced) && Own(h, t, key, IdOf(s.next))
  {
    hide ValidStore, StoredForms, BaselineHolds, Honest, OneGroupEach, OneSetEach, IdOf, GroupName;
    var t := CreateGroup(s, GroupName(h, key), Describing(key) + " [" + ManagedBy + "]");
    CreateGroupValid(s, GroupName(h, key), Describing(key) + " [" + ManagedBy + "]");
    assert New(s, IdOf(s.next));
    forall n: nat | n >= t.next ensures IdOf(s.next) != IdOf(n) { IdsApart(s.next, n); }
    GroupAdded(h, s, key);
    GroupsRewritten(h, s, t, b, raced, Some(key));
  }

  lemma GroupAdded(h: string -> string, s: Store, key: string)
    requires Honest(h, s) && OneGroupEach(h, s) && !GroupExists(s, GroupName(h, key))
    ensures var t := CreateGroup(s, GroupName(h, key), Describing(key) + " [" + ManagedBy + "]");
            Honest(h, t) && OneGroupEach(h, t)
  {
    hide Describing, PolicyOf, DefaultRules, IdOf;
    PolicyOfDescribing(key);
    var t := CreateGroup(s, GroupName(h, key), Describing(key) + " [" + ManagedBy + "]");
    forall x ensures OneNamed(t, GroupName(h, x)) { assert OneNamed(s, GroupName(h, x)); }
  }

  lemma GroupDescribed(h: string -> string, s: Store, b: BaselineIds, raced: set<string>, key: string, g: string)
    requires StoreGood(h, s, b, raced) && Own(h, s, key, g)
    ensures var t := Describe(s, g, Describing(key)).0; Nudged(h, s, t, Some(key), {}) && StoreGood(h, t, b, raced)
  {
    hide ValidStore, StoredForms, BaselineHolds, OneGroupEach, OneSetEach, IdOf, GroupName, PolicyOf, Describing;
    var t := Describe(s, g, Describing(key)).0;
    OtherCallsValid(s, g, Describing(key), {}, []);
    PolicyOfDescribing(key);
    GroupsStayOne(h, s, t);
    GroupsRewritten(h, s, t, b, raced, Some(key));
  }

  /** Only the rules of the policy's own group changed. */
  lemma RulesRewritten(h: string -> string, s: Store, t: Store, b: BaselineIds, raced: set<string>, key: string,
                       g: string)
    requires StoreGood(h, s, b, raced) && Own(h, s, key, g) && ValidStore(t) && (t == s || OnlyRulesOf(s, t, g))
    ensures Nudged(h, s, t, Some(key), {}) && StoreGood(h, t, b, raced)
  {
    hide ValidStore, StoredForms, BaselineHolds, Honest, OneGroupEach, OneSetEach, IdOf, GroupName;
    GroupsStayOne(h, s, t);
    HonestStays(h, s, t);
    GroupsRewritten(h, s, t, b, raced, Some(key));
  }

  lemma GroupDropped(h: string -> string, s: Store, b: BaselineIds, raced: set<string>, key: string, g: string)
    requires StoreGood(h, s, b, raced) && GroupOf(h, s, key, g)
    ensures var t := DeleteGroup(s, g).0; Nudged(h, s, t, None, {}) && StoreGood(h, t, b, raced)
  {
    hide ValidStore, StoredForms, BaselineHolds, Honest, OneGroupEach, OneSetEach, IdOf, OnPort;
    var t := DeleteGroup(s, g).0;
    DeleteGroupValid(s, g);
    PolicyNamed(h, key);
    GroupsStayOne(h, s, t);
    HonestStays(h, s, t);
    GroupsRewritten(h, s, t, b, raced, None);
  }

  lemma PolicyNamed(h: string -> string, key: string)
    ensures HasPrefix(GroupName(h, key), PolicyPrefix)
  {
  }

  lemma PortsLeaveValid(s: Store, ports: map<string, seq<string>>)
    requires ValidStore(s) && StoredForms(s)
    ensures ValidStore(s.(ports := ports)) && StoredForms(s.(ports := ports))
  {
  }

  lemma PortsRewritten(h: string -> string, s: Store, ports: map<string, seq<string>>, b: BaselineIds,
                       raced: set<string>)
    requires StoreGood(h, s, b, raced)
    ensures var t := s.(ports := ports); Nudged(h, s, t, None, {}) && StoreGood(h, t, b, raced)
  {
    hide ValidStore, StoredForms, Honest, BaselineHolds, OneGroupEach, OneSetEach;
    var t := s.(ports := ports);
    PortsLeaveValid(s, ports);
    HonestStays(h, s, t);
    GroupsStayOne(h, s, t);
    SetsStayOne(h, s, t, raced);
    BaselineKept(h, s, t, None, {}, b);
  }

  // ----- each kind of worker -----

  /** What a call of a task leaves: a good store, nothing of another policy's
      changed, and a task that may go on. */
  ghost predicate Stepped(h: string -> string, s: Store, b: BaselineIds, raced: set<string>, t: Task, s': Store,
                          t': Task) {
    && Nudged(h, s, s', PassKey(t), Making(h, t)) && StoreGood(h, s', b, raced)
    && TaskSafe(h, s', b, raced, t') && (PassKey(t') == PassKey(t) || PassKey(t') == None)
  }

  lemma GoodIs(h: string -> string, s: Store, b: BaselineIds, raced: set<string>)
    requires StoreGood(h, s, b, raced)
    ensures ValidStore(s) && Honest(h, s)
  {
    hide ValidStore, Honest;
  }

  lemma RuleTaskIs(h: string -> string, s: Store, b: BaselineIds, raced: set<string>, t: Task)
    requires t.AddRule? || t.DropRule?
    ensures TaskSafe(h, s, b, raced, t) <==>
            && Own(h, s, t.plan.key, t.group)
            && (if t.AddRule? then Creating(s, t.group, t.have, t.rules, t.i)
                else Deleting(s, t.group, t.have, t.rules, t.i))
  {
    hide Own, Creating, Deleting;
  }

  lemma StopsHere(h: string -> string, s: Store, b: BaselineIds, raced: set<string>, t: Task, s': Store)
    requires Nudged(h, s, s', PassKey(t), Making(h, t)) && StoreGood(h, s', b, raced)
    ensures Stepped(h, s, b, raced, t, s', Idle)
  {
    hide StoreGood, Nudged;
  }

  lemma GoesOn(h: string -> string, s: Store, b: BaselineIds, raced: set<string>, t: Task, s': Store, t': Task)
    requires Nudged(h, s, s', PassKey(t), Making(h, t)) && StoreGood(h, s', b, raced)
    requires TaskSafe(h, s', b, raced, t') && PassKey(t') == PassKey(t)
    ensures Stepped(h, s, b, raced, t, s', t')
  {
    hide StoreGood, Nudged, TaskSafe;
  }

  lemma ListedNormal(e: Env, c: Cluster, p: Plan, i: nat)
    ensures AllNormal(ListedForms(e, c, p, i))
  {
    forall w | w in ListedForms(e, c, p, i) ensures Normal(w) {
      var pod :| pod in c.pods && w == Normalize(pod.PodIP());
      NormalizeTwice(pod.PodIP());
    }
  }

  lemma SetCallSafe(e: Env, c: Cluster, h: string -> string, s: Store, b: BaselineIds, raced: set<string>,
                    t: Task, f: Fault, pick: string)
    requires t.FindSet? || t.MakeSet? || t.ReadSet? || t.AddTo? || t.TakeFrom?
    requires StoreGood(h, s, b, raced) && TaskSafe(h, s, b, raced, t)
    ensures var r := SetCall(e, c, h, s, t, f, pick); Stepped(h, s, b, raced, t, r.0, r.1)
  {
    hide StoreGood, Nudged, ListedForms, SetName, AllNormal, CreateAddressGroup, AddAddresses, RemoveAddresses;
    ListedNormal(e, c, t.plan, t.i);
    NothingNudged(h, s, PassKey(t));
    match t
    case MakeSet(p, peers, i) =>
      SetMade(h, s, b, raced, SetName(h, SetKey(p, i)), PassKey(t));
      NudgedMore(h, s, s, PassKey(t), {}, Making(h, t));
    case AddTo(p, peers, i, a, want, read) =>
      NormalPart(want, read);
      AddressesAdded(h, s, b, raced, a, want - read, PassKey(t));
    case TakeFrom(p, peers, i, a, want, read) =>
      AddressesRemoved(h, s, b, raced, a, read - want, PassKey(t));
    case _ =>
  }

  lemma NormalPart(want: set<string>, read: set<string>)
    requires AllNormal(want)
    ensures AllNormal(want - read)
  {
  }

  lemma NudgedMore(h: string -> string, s: Store, t: Store, key: Option<string>, made: set<string>, made': set<string>)
    requires Nudged(h, s, t, key, made) && made <= made'
    ensures Nudged(h, s, t, key, made')
  {
  }

  lemma CreatingStarts(s: Store, g: string, want: seq<NRule>)
    requires ValidStore(s)
    ensures Creating(s, g, if g in s.groups then s.groups[g].rules else [], want, 0)
  {
  }

  lemma CreatingGoesOn(s: Store, g: string, have: seq<StoredRule>, want: seq<NRule>, i: nat)
    requires ValidStore(s) && Creating(s, g, have, want, i) && i < |want|
    ensures HasRule(have, want[i]) ==> Creating(s, g, have, want, i + 1)
    ensures var (u, answer) := CreateRule(s, g, want[i]);
            ValidStore(u) && (u == s || OnlyRulesOf(s, u, g))
            && (!HasRule(have, want[i]) && !answer.Failed? ==> Creating(u, g, have, want, i + 1))
  {
    CreateAllStep(Bodies(have), want, i);
    hide CreateAll, HoldsAlias, Alias;
    CreateRuleValid(s, g, want[i]);
    hide ValidStore, Bodies, NoAliases;
    if g in s.groups && !HasRule(have, want[i]) {
      CreateStep(s, g, have, want, i);
    }
    CreateChanges(s, g, want[i]);
  }

  lemma CreateChanges(s: Store, g: string, body: NRule)
    ensures var u := CreateRule(s, g, body).0; u == s || OnlyRulesOf(s, u, g)
  {
  }

  lemma DeletingStarts(s: Store, g: string, have: seq<StoredRule>, want: seq<NRule>)
    requires Creating(s, g, have, want, |want|)
    ensures Deleting(s, g, have, want, 0)
  {
    RemovedAre(have, want, 0);
    assert want[..|want|] == want;
    hide CreateAll, Removed, NoAliases, Bodies;
    if g in s.groups {
      forall k | 0 <= k < |have| ensures have[k] in s.groups[g].rules { assert have[k] == s.groups[g].rules[k]; }
    }
  }

  lemma DeletingGoesOn(s: Store, g: string, have: seq<StoredRule>, want: seq<NRule>, j: nat)
    requires ValidStore(s) && Deleting(s, g, have, want, j) && j < |have|
    ensures have[j].body in want ==> Deleting(s, g, have, want, j + 1)
    ensures var u := DeleteRule(s, g, have[j].id).0;
            ValidStore(u) && (u == s || OnlyRulesOf(s, u, g))
            && (have[j].body !in want ==> Deleting(u, g, have, want, j + 1))
  {
    RemovedAre(have, want, j);
    hide CreateAll, Removed, Without;
    DeleteRuleValid(s, g, have[j].id);
    if g in s.groups {
      DeleteStep(s, g, have, j);
    }
  }

  lemma DeletingEnds(s: Store, g: string, have: seq<StoredRule>, want: seq<NRule>)
    requires Deleting(s, g, have, want, |have|)
    ensures PassedExactly(s, g, have, want)
  {
    RemovedAre(have, want, |have|);
    PassIs(Bodies(have), want);
  }

  lemma GroupLookedFor(h: string -> string, s: Store, b: BaselineIds, raced: set<string>, t: Task, f: Fault,
                       pick: string)
    requires t.FindGroup? && StoreGood(h, s, b, raced) && TaskSafe(h, s, b, raced, t)
    ensures var r := GroupCall(h, s, t, f, pick); Stepped(h, s, b, raced, t, r.0, r.1)
  {
    hide StoreGood, Nudged, ValidStore, Honest, Stepped, Own, GroupName, Describing;
    GoodIs(h, s, b, raced);
    FoundIsOwn(h, s, t.plan.key, pick);
    NothingNudged(h, s, PassKey(t));
    var t' := GroupCall(h, s, t, f, pick).1;
    StopsHere(h, s, b, raced, t, s);
    if t' != Idle {
      GoesOn(h, s, b, raced, t, s, t');
    }
  }

  lemma RulesRead(h: string -> string, s: Store, b: BaselineIds, raced: set<string>, t: Task, f: Fault, pick: string)
    requires t.ReadRules? && StoreGood(h, s, b, raced) && TaskSafe(h, s, b, raced, t)
    ensures var r := GroupCall(h, s, t, f, pick); Stepped(h, s, b, raced, t, r.0, r.1)
  {
    hide StoreGood, Nudged, ValidStore, Honest, Stepped, Creating, Own, WantOf;
    GoodIs(h, s, b, raced);
    NothingNudged(h, s, PassKey(t));
    StopsHere(h, s, b, raced, t, s);
    var want := WantOf(t.plan.ruleSet.rules, t.peers);
    if f.NoFault? && want.Some? {
      CreatingStarts(s, t.group, want.value);
      GoesOn(h, s, b, raced, t, s, GroupCall(h, s, t, f, pick).1);
    }
  }

  lemma GroupMadeSafe(h: string -> string, s: Store, b: BaselineIds, raced: set<string>, t: Task, f: Fault,
                      pick: string)
    requires t.MakeGroup? && StoreGood(h, s, b, raced) && TaskSafe(h, s, b, raced, t)
    ensures var r := GroupCall(h, s, t, f, pick); Stepped(h, s, b, raced, t, r.0, r.1)
  {
    hide StoreGood, Nudged, CreateGroup, Own, GroupName, Describing;
    NothingNudged(h, s, PassKey(t));
    GroupMade(h, s, b, raced, t.plan.key);
  }

  lemma GroupCorrected(h: string -> string, s: Store, b: BaselineIds, raced: set<string>, t: Task, f: Fault,
                       pick: string)
    requires t.Correct? && StoreGood(h, s, b, raced) && TaskSafe(h, s, b, raced, t)
    ensures var r := GroupCall(h, s, t, f, pick); Stepped(h, s, b, raced, t, r.0, r.1)
  {
    hide StoreGood, Nudged, Describe, GroupOf, GroupName, Describing;
    NothingNudged(h, s, PassKey(t));
    GroupDescribed(h, s, b, raced, t.plan.key, t.group);
    GroupOfKept(h, s, Describe(s, t.group, Describing(t.plan.key)).0, PassKey(t), {}, t.plan.key, t.group);
  }

  lemma FoundIsOwn(h: string -> string, s: Store, key: string, g: string)
    requires ValidStore(s)
    ensures g in s.groups && s.groups[g].name == GroupName(h, key) ==> Own(h, s, key, g)
  {
  }

  lemma RuleAdded(h: string -> string, s: Store, b: BaselineIds, raced: set<string>, t: Task, f: Fault)
    requires t.AddRule? && StoreGood(h, s, b, raced) && TaskSafe(h, s, b, raced, t)
    ensures var r := RuleCall(s, t, f); Stepped(h, s, b, raced, t, r.0, r.1)
  {
    hide StoreGood, Nudged, ValidStore, Honest, Stepped, CreateRule, Creating, Deleting, OnlyRulesOf, HasRule, Own,
         TaskSafe;
    GoodIs(h, s, b, raced);
    RuleTaskIs(h, s, b, raced, t);
    var AddRule(p, g, have, want, i) := t;
    CreatingBound(s, g, have, want, i);
    NothingNudged(h, s, PassKey(t));
    if i < |want| {
      var u := CreateRule(s, g, want[i]).0;
      CreatingGoesOn(s, g, have, want, i);
      RulesChanged(h, s, u, b, raced, p.key, g);
      RuleTaskIs(h, s, b, raced, AddRule(p, g, have, want, i + 1));
      RuleTaskIs(h, u, b, raced, AddRule(p, g, have, want, i + 1));
      OwnRules(h, s, u, b, raced, t, AddRule(p, g, have, want, i + 1));
    } else {
      DeletingStarts(s, g, have, want);
      RuleTaskIs(h, s, b, raced, DropRule(p, g, have, want, 0));
      OwnRules(h, s, s, b, raced, t, DropRule(p, g, have, want, 0));
    }
  }

  lemma RememberIs(h: string -> string, s: Store, b: BaselineIds, raced: set<string>, p: Plan, g: string,
                   have: seq<StoredRule>, want: seq<NRule>)
    requires Own(h, s, p.key, g) && PassedExactly(s, g, have, want)
    ensures TaskSafe(h, s, b, raced, Remember(p, g, have, want))
  {
  }

  lemma OwnRules(h: string -> string, s: Store, u: Store, b: BaselineIds, raced: set<string>, t: Task, t': Task)
    requires StoreGood(h, s, b, raced) && StoreGood(h, u, b, raced)
    requires Nudged(h, s, s, PassKey(t), {}) && Nudged(h, s, u, PassKey(t), {})
    requires (t.AddRule? || t.DropRule?) && PassKey(t') == PassKey(t)
    ensures Stepped(h, s, b, raced, t, s, Idle) && Stepped(h, s, b, raced, t, u, Idle)
    ensures TaskSafe(h, s, b, raced, t') ==> Stepped(h, s, b, raced, t, s, t')
    ensures TaskSafe(h, u, b, raced, t') ==> Stepped(h, s, b, raced, t, u, t')
  {
    hide StoreGood, Nudged, TaskSafe, Stepped;
    StopsHere(h, s, b, raced, t, s);
    StopsHere(h, s, b, raced, t, u);
    if TaskSafe(h, s, b, raced, t') { GoesOn(h, s, b, raced, t, s, t'); }
    if TaskSafe(h, u, b, raced, t') { GoesOn(h, s, b, raced, t, u, t'); }
  }

  lemma RuleDropped(h: string -> string, s: Store, b: BaselineIds, raced: set<string>, t: Task, f: Fault)
    requires t.DropRule? && StoreGood(h, s, b, raced) && TaskSafe(h, s, b, raced, t)
    ensures var r := RuleCall(s, t, f); Stepped(h, s, b, raced, t, r.0, r.1)
  {
    hide StoreGood, Nudged, ValidStore, Honest, Stepped, DeleteRule, Deleting, PassedExactly, OnlyRulesOf, Own,
         TaskSafe;
    GoodIs(h, s, b, raced);
    RuleTaskIs(h, s, b, raced, t);
    var DropRule(p, g, have, want, j) := t;
    DeletingBound(s, g, have, want, j);
    NothingNudged(h, s, PassKey(t));
    if j < |have| {
      var u := DeleteRule(s, g, have[j].id).0;
      DeletingGoesOn(s, g, have, want, j);
      RulesChanged(h, s, u, b, raced, p.key, g);
      RuleTaskIs(h, s, b, raced, DropRule(p, g, have, want, j + 1));
      RuleTaskIs(h, u, b, raced, DropRule(p, g, have, want, j + 1));
      OwnRules(h, s, u, b, raced, t, DropRule(p, g, have, want, j + 1));
    } else {
      DeletingEnds(s, g, have, want);
      RememberIs(h, s, b, raced, p, g, have, want);
      OwnRules(h, s, s, b, raced, t, Remember(p, g, have, want));
    }
  }

  lemma CreatingBound(s: Store, g: string, have: seq<StoredRule>, want: seq<NRule>, i: nat)
    requires Creating(s, g, have, want, i)
    ensures i <= |want|
  {
  }

  lemma DeletingBound(s: Store, g: string, have: seq<StoredRule>, want: seq<NRule>, j: nat)
    requires Deleting(s, g, have, want, j)
    ensures j <= |have|
  {
  }

  lemma RulesChanged(h: string -> string, s: Store, t: Store, b: BaselineIds, raced: set<string>, key: string,
                     g: string)
    requires StoreGood(h, s, b, raced) && Own(h, s, key, g) && ValidStore(t) && (t == s || OnlyRulesOf(s, t, g))
    ensures Nudged(h, s, t, Some(key), {}) && StoreGood(h, t, b, raced) && Own(h, t, key, g)
  {
    hide StoreGood, ValidStore, OnlyRulesOf, Nudged;
    RulesRewritten(h, s, t, b, raced, key, g);
    GroupOfKept(h, s, t, Some(key), {}, key, g);
  }

  lemma PortCallSafe(h: string -> string, s: Store, b: BaselineIds, raced: set<string>, t: Task, f: Fault)
    requires t.ReadPort? || t.WritePort?
    requires StoreGood(h, s, b, raced) && TaskSafe(h, s, b, raced, t)
    ensures var r := PortCall(s, t, f); Stepped(h, s, b, raced, t, r.0, r.1)
  {
    hide StoreGood, Nudged, Ordering.SortStrings;
    NothingNudged(h, s, PassKey(t));
    if t.WritePort? {
      var u := UpdatePort(s, t.port, t.list).0;
      assert u == s.(ports := u.ports);
      PortsRewritten(h, s, u.ports, b, raced);
    }
  }

  lemma DoomedAre(h: string -> string, s: Store, live: set<string>, served: set<string>, g: string)
    requires ValidStore(s) && Honest(h, s) && g in s.groups && Doomed(s.groups[g], live, served)
    ensures PolicyOf(s.groups[g].description) !in live && GroupOf(h, s, PolicyOf(s.groups[g].description), g)
  {
  }

  lemma SweepRead(c: Cluster, h: string -> string, s: Store, b: BaselineIds, raced: set<string>, t: Task, f: Fault,
                  pick: string)
    requires t.ListGroups? || t.ListSets?
    requires StoreGood(h, s, b, raced) && TaskSafe(h, s, b, raced, t)
    ensures var r := SweepCall(c, s, t, f, pick); Stepped(h, s, b, raced, t, r.0, r.1)
  {
    hide StoreGood, Nudged, ValidStore, Stepped, Honest, Doomed, GroupOf, SetOurs, KeptReferences, HasPrefix, PolicyOf;
    GoodIs(h, s, b, raced);
    NothingNudged(h, s, PassKey(t));
    StopsHere(h, s, b, raced, t, s);
    if t.ListGroups? {
      forall g | g in s.groups && Doomed(s.groups[g], t.live, c.served)
        ensures PolicyOf(s.groups[g].description) !in t.live && GroupOf(h, s, PolicyOf(s.groups[g].description), g)
      {
        DoomedAre(h, s, t.live, c.served, g);
      }
    } else {
      forall a | a in s.addressGroups && HasPrefix(s.addressGroups[a].name, PeersPrefix) ensures SetOurs(s, a) {
        ListedIsOurs(s, a);
      }
    }
    var t' := SweepCall(c, s, t, f, pick).1;
    if t' != Idle { GoesOn(h, s, b, raced, t, s, t'); }
  }

  lemma SweepDropsGroup(c: Cluster, h: string -> string, s: Store, b: BaselineIds, raced: set<string>, t: Task,
                        f: Fault, pick: string)
    requires t.DropGroups? && StoreGood(h, s, b, raced) && TaskSafe(h, s, b, raced, t)
    ensures var r := SweepCall(c, s, t, f, pick); Stepped(h, s, b, raced, t, r.0, r.1)
  {
    hide StoreGood, Nudged, GroupOf, DeleteGroup;
    NothingNudged(h, s, PassKey(t));
    if pick in t.doomed {
      GroupDropped(h, s, b, raced, t.doomed[pick], pick);
      forall g | g in t.doomed ensures GroupOf(h, DeleteGroup(s, pick).0, t.doomed[g], g) {
        GroupOfKept(h, s, DeleteGroup(s, pick).0, None, {}, t.doomed[g], g);
      }
    }
  }

  lemma SweepDropsSet(c: Cluster, h: string -> string, s: Store, b: BaselineIds, raced: set<string>, t: Task, f: Fault,
                      pick: string)
    requires t.DropSets? && StoreGood(h, s, b, raced) && TaskSafe(h, s, b, raced, t)
    ensures var r := SweepCall(c, s, t, f, pick); Stepped(h, s, b, raced, t, r.0, r.1)
  {
    hide StoreGood, Nudged, SetOurs, DeleteAddressGroup;
    NothingNudged(h, s, PassKey(t));
    SetDropped(h, s, b, raced, pick);
    forall a | a in t.sets ensures SetOurs(DeleteAddressGroup(s, pick).0, a) {
      SetOursKept(h, s, DeleteAddressGroup(s, pick).0, None, {}, a);
    }
  }

  lemma ListedIsOurs(s: Store, a: string)
    requires ValidStore(s) && a in s.addressGroups && HasPrefix(s.addressGroups[a].name, PeersPrefix)
    ensures SetOurs(s, a)
  {
  }

  /** Any call of any task, succeeding or failing either way. */
  lemma CallSafe(e: Env, c: Cluster, h: string -> string, s: Store, b: BaselineIds, raced: set<string>,
                 t: Task, f: Fault, pick: string)
    requires StoreGood(h, s, b, raced) && TaskSafe(h, s, b, raced, t)
    ensures var r := Call(e, c, h, s, t, f, pick); Stepped(h, s, b, raced, t, r.0, r.1)
  {
    hide StoreGood, Stepped, SetCall, GroupCall, RuleCall, PortCall, SweepCall;
    if t.FindSet? || t.MakeSet? || t.ReadSet? || t.AddTo? || t.TakeFrom? {
      SetCallSafe(e, c, h, s, b, raced, t, f, pick);
    }
    else if t.ReadPort? || t.WritePort? { PortCallSafe(h, s, b, raced, t, f); }
    else if t.ListGroups? || t.ListSets? { SweepRead(c, h, s, b, raced, t, f, pick); }
    else if t.DropGroups? { SweepDropsGroup(c, h, s, b, raced, t, f, pick); }
    else if t.DropSets? { SweepDropsSet(c, h, s, b, raced, t, f, pick); }
    else if t.FindGroup? { GroupLookedFor(h, s, b, raced, t, f, pick); }
    else if t.ReadRules? { RulesRead(h, s, b, raced, t, f, pick); }
    else if t.MakeGroup? { GroupMadeSafe(h, s, b, raced, t, f, pick); }
    else if t.Correct? { GroupCorrected(h, s, b, raced, t, f, pick); }
    else if t.AddRule? { RuleAdded(h, s, b, raced, t, f); }
    else if t.DropRule? { RuleDropped(h, s, b, raced, t, f); }
    else { StoppedSafe(h, s, b, raced, t, f, pick); }
  }

  lemma StoppedSafe(h: string -> string, s: Store, b: BaselineIds, raced: set<string>, t: Task, f: Fault, pick: string)
    requires t.Idle? || t.Remember?
    requires StoreGood(h, s, b, raced) && TaskSafe(h, s, b, raced, t)
    ensures Stepped(h, s, b, raced, t, s, Idle) && GroupCall(h, s, Idle, f, pick) == (s, Idle)
  {
    hide StoreGood, Nudged;
    NothingNudged(h, s, PassKey(t));
  }

  // ----- each move -----

  lemma MoreRaced(h: string -> string, s: Store, b: BaselineIds, raced: set<string>, raced': set<string>)
    requires StoreGood(h, s, b, raced) && raced <= raced'
    ensures StoreGood(h, s, b, raced')
  {
    hide ValidStore, StoredForms, BaselineHolds, Honest, OneGroupEach, OneSet;
  }

  /** What a task with nothing of its own at stake sees of a step. */
  lemma OthersSafe(h: string -> string, x: System, s': Store, raced': set<string>, i: nat, t': Task, j: nat)
    requires Injective(h) && i < |x.tasks| && j < |x.tasks| && i != j && KeysApart(x.tasks)
    requires TaskSafe(h, x.store, x.baseline, x.raced, x.tasks[j])
    requires Stepped(h, x.store, x.baseline, x.raced, x.tasks[i], s', t')
    requires raced' == x.raced + Racing(h, x, i)
    ensures TaskSafe(h, s', x.baseline, raced', x.tasks[j])
  {
    hide StoreGood, Nudged, TaskSafe;
    var made := Making(h, x.tasks[i]);
    forall n | n in Making(h, x.tasks[j]) * made ensures n in raced' {
      assert n in Racing(h, x, i);
    }
    TaskKept(h, x.store, s', x.baseline, x.raced, raced', PassKey(x.tasks[i]), made, x.tasks[j]);
  }

  lemma TaskMoreRaced(h: string -> string, s: Store, b: BaselineIds, raced: set<string>, raced': set<string>, t: Task)
    requires TaskSafe(h, s, b, raced, t) && raced <= raced'
    ensures TaskSafe(h, s, b, raced', t)
  {
  }

  lemma KeysStayApart(tasks: seq<Task>, i: nat, t: Task)
    requires KeysApart(tasks) && i < |tasks| && (PassKey(t) == PassKey(tasks[i]) || PassKey(t) == None)
    ensures KeysApart(tasks[i := t])
  {
    hide PassKey;
  }
}
