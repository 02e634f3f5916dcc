/** Work begun before the last of some older work had ended: what can still be
    said of it, and what it can still do to the pod sets it shares. */
module Aging {
  import opened Wrappers
  import opened Faults
  import opened Text
  import opened NetworkPolicy
  import opened NeutronStore
  import opened NeutronClient
  import opened RuleSync
  import opened Sweeping
  import opened PolicySync
  import opened Protocol
  import opened Interleaving
  import opened InterleavingSafety
  import opened Freshness
  import opened FreshWork
  import opened FreshCalls
  import Ordering

  /** A pod's task goes for the port the pod has. */
  predicate PortNow(w: World, t: Task) {
    t.ReadPort? || t.WritePort? ==> t.pod in w.placed && w.placed[t.pod] == t.port
  }

  /** Begun since the last edit: it wants what is wanted now, whatever it has read. */
  ghost predicate Loose(e: Env, h: string -> string, w: World, s: Store, t: Task) {
    && (PassKey(t).Some? ==> PlanNow(e, w, t.plan))
    && (t.MakeSet? ==> t.i < |t.plan.keys|)
    && (t.ReadSet? || t.AddTo? || t.TakeFrom? ==>
          t.i < |t.plan.keys| && Ours(h, s, t.plan.keys[t.i], t.target) && Wants(e, w, t.plan.keys[t.i], t.want))
    && (t.ListGroups? || t.DropGroups? ==> AllLive(w, t.live))
    && PortNow(w, t)
  }

  /** Nothing wanted that was read has gone since, nothing unwanted has come. */
  ghost predicate HalfwayAt(s: Store, a: string, want: set<string>, read: set<string>) {
    a in s.addressGroups ==> want * read <= s.addressGroups[a].addresses <= read + want
  }

  /** Begun when all other work was loose at least. */
  ghost predicate Half(e: Env, h: string -> string, w: World, s: Store, t: Task) {
    Loose(e, h, w, s, t) && (t.AddTo? || t.TakeFrom? ==> HalfwayAt(s, t.target, t.want, t.read))
  }

  // ----- what any work does to the pod sets -----

  ghost predicate SetsNamed(s: Store, t: Store) {
    && s.next <= t.next
    && (forall a :: a in s.addressGroups && a in t.addressGroups ==> t.addressGroups[a].name == s.addressGroups[a].name)
    && (forall a :: a in t.addressGroups && a !in s.addressGroups ==> New(s, a))
  }

  /** Nothing wanted is taken away, nothing unwanted put in. */
  predicate Inward(want: set<string>, now: set<string>, next: set<string>) {
    now * want <= next <= now + want
  }

  ghost predicate SetInward(e: Env, h: string -> string, w: World, name: string, now: set<string>, next: set<string>) {
    forall k, want :: name == SetName(h, k) && Wants(e, w, k, want) ==> Inward(want, now, next)
  }

  ghost predicate SetsInward(e: Env, h: string -> string, w: World, s: Store, t: Store) {
    && SetsNamed(s, t)
    && forall a :: a in s.addressGroups && a in t.addressGroups ==>
         SetInward(e, h, w, s.addressGroups[a].name, s.addressGroups[a].addresses, t.addressGroups[a].addresses)
  }

  lemma TowardIsInward(want: set<string>, now: set<string>, next: set<string>)
    requires Toward(want, now, next)
    ensures Inward(want, now, next)
  {
    assert next == (next * want) + (next - want) && now == (now * want) + (now - want);
  }

  lemma SetsTowardInward(e: Env, h: string -> string, w: World, s: Store, t: Store)
    requires SetsToward(e, h, w, s, t)
    ensures SetsInward(e, h, w, s, t)
  {
    hide Wants, Toward, Inward;
    forall a | a in s.addressGroups && a in t.addressGroups
      ensures SetInward(e, h, w, s.addressGroups[a].name, s.addressGroups[a].addresses, t.addressGroups[a].addresses)
    {
      var name, now, next := s.addressGroups[a].name, s.addressGroups[a].addresses, t.addressGroups[a].addresses;
      assert SetToward(e, h, w, name, now, next);
      forall k, want | name == SetName(h, k) && Wants(e, w, k, want) ensures Inward(want, now, next) {
        TowardIsInward(want, now, next);
      }
    }
  }

  lemma NudgedNamed(h: string -> string, s: Store, t: Store, key: Option<string>, made: set<string>)
    requires Nudged(h, s, t, key, made)
    ensures SetsNamed(s, t)
  {
  }

  lemma LooseKept(e: Env, h: string -> string, w: World, s: Store, t: Store, task: Task)
    requires SetsNamed(s, t) && Loose(e, h, w, s, task)
    ensures Loose(e, h, w, t, task)
  {
  }

  lemma HalfKept(e: Env, h: string -> string, w: World, s: Store, t: Store, task: Task)
    requires SetsInward(e, h, w, s, t) && Half(e, h, w, s, task)
    ensures Half(e, h, w, t, task)
  {
    hide Wants, Inward, PlanNow;
    LooseKept(e, h, w, s, t, task);
    if (task.AddTo? || task.TakeFrom?) && task.target in t.addressGroups {
      var a, k := task.target, task.plan.keys[task.i];
      assert a in s.addressGroups by { assert !New(s, a); }
      var now, next := s.addressGroups[a].addresses, t.addressGroups[a].addresses;
      assert SetInward(e, h, w, s.addressGroups[a].name, now, next);
      assert Inward(task.want, now, next);
      HalfwayStays(task.want, task.read, now, next);
    }
  }

  lemma HalfwayStays(want: set<string>, read: set<string>, now: set<string>, next: set<string>)
    requires want * read <= now <= read + want && Inward(want, now, next)
    ensures want * read <= next <= read + want
  {
  }

  // ----- calls of loose work -----

  lemma SetsAlone(e: Env, h: string -> string, w: World, s: Store, t: Store)
    requires t.addressGroups == s.addressGroups && s.next <= t.next
    ensures SetsInward(e, h, w, s, t) && SetsToward(e, h, w, s, t)
  {
    SetsUntouched(e, h, w, s, t);
    SetsTowardInward(e, h, w, s, t);
  }

  /** One pod set rewritten inward. */
  lemma RewrittenInward(e: Env, h: string -> string, w: World, s: Store, t: Store, k: string, a: string,
                        want: set<string>)
    requires Faithful(e) && WellFormed(w) && Injective(h) && Ours(h, s, k, a) && Wants(e, w, k, want)
    requires a in s.addressGroups && a in t.addressGroups
    requires t ==
               s.(addressGroups := s.addressGroups[a := s.addressGroups[a].(addresses := t.addressGroups[a].addresses)])
    requires Inward(want, s.addressGroups[a].addresses, t.addressGroups[a].addresses)
    ensures SetsInward(e, h, w, s, t)
  {
    hide Faithful, WellFormed, Wants;
    forall b | b in s.addressGroups
      ensures SetInward(e, h, w, s.addressGroups[b].name, s.addressGroups[b].addresses, t.addressGroups[b].addresses)
    {
      if b == a {
        forall k', want' | s.addressGroups[a].name == SetName(h, k') && Wants(e, w, k', want')
          ensures Inward(want', s.addressGroups[a].addresses, t.addressGroups[a].addresses)
        {
          NamesApart(h, k, k');
          WantsUnique(e, w, k, want, want');
        }
      }
    }
  }

  lemma AddsInward(e: Env, h: string -> string, w: World, s: Store, k: string, a: string, want: set<string>,
                   read: set<string>)
    requires Faithful(e) && WellFormed(w) && Injective(h) && Ours(h, s, k, a) && Wants(e, w, k, want)
    ensures SetsInward(e, h, w, s, AddAddresses(s, a, want - read).0)
    ensures SetsInward(e, h, w, s, RemoveAddresses(s, a, read - want).0)
  {
    hide Faithful, WellFormed, Wants, SetsInward;
    SetsAlone(e, h, w, s, s);
    var (t, x) := AddAddresses(s, a, want - read);
    var (u, y) := RemoveAddresses(s, a, read - want);
    if x.Done? { RewrittenInward(e, h, w, s, t, k, a, want); }
    if y.Done? { RewrittenInward(e, h, w, s, u, k, a, want); }
  }

  /** From halfway, an add that goes through leaves nothing missing, a removal
      nothing over. */
  lemma HalfGoesToward(e: Env, h: string -> string, w: World, s: Store, k: string, a: string, want: set<string>,
                       read: set<string>)
    requires Faithful(e) && WellFormed(w) && Injective(h) && Ours(h, s, k, a) && Wants(e, w, k, want)
    requires HalfwayAt(s, a, want, read)
    ensures SetsToward(e, h, w, s, AddAddresses(s, a, want - read).0)
    ensures SetsToward(e, h, w, s, RemoveAddresses(s, a, read - want).0)
  {
    hide Faithful, WellFormed, Wants, SetsToward;
    SetsAlone(e, h, w, s, s);
    var (t, x) := AddAddresses(s, a, want - read);
    var (u, y) := RemoveAddresses(s, a, read - want);
    if x.Done? {
      HalfAdds(want, read, s.addressGroups[a].addresses);
      RewrittenToward(e, h, w, s, t, k, a, want);
    }
    if y.Done? {
      HalfRemoves(want, read, s.addressGroups[a].addresses);
      RewrittenToward(e, h, w, s, u, k, a, want);
    }
  }

  lemma HalfAdds(want: set<string>, read: set<string>, now: set<string>)
    requires want * read <= now <= read + want && now * (want - read) == {}
    ensures Toward(want, now, now + (want - read))
  {
    assert (now + (want - read)) - want == now - want;
  }

  lemma HalfRemoves(want: set<string>, read: set<string>, now: set<string>)
    requires want * read <= now <= read + want && read - want <= now
    ensures Toward(want, now, now - (read - want))
  {
    assert (now - (read - want)) * want == now * want;
  }

  /** What a call can do to the pod sets. */
  lemma CallSets(e: Env, c: Cluster, h: string -> string, s: Store, t: Task, f: Fault, pick: string)
    ensures var u := Call(e, c, h, s, t, f, pick).0;
            || (u.addressGroups == s.addressGroups && s.next <= u.next)
            || (t.MakeSet? && u == CreateAddressGroup(s, SetName(h, SetKey(t.plan, t.i))))
            || (t.AddTo? && u == AddAddresses(s, t.target, t.want - t.read).0)
            || (t.TakeFrom? && u == RemoveAddresses(s, t.target, t.read - t.want).0)
            || (t.DropSets? && u == DeleteAddressGroup(s, pick).0)
  {
    hide ListedForms, WantOf, OnPort, HoldsAlias, Without, Describing, GroupName, SetName, SetExists, GroupExists,
         HasRule, HasPrefix, DefaultRules, IdOf, PolicyOf, CreateAddressGroup, AddAddresses, RemoveAddresses,
         DeleteAddressGroup;
  }

  lemma LooseSets(e: Env, h: string -> string, w: World, s: Store, t: Task, f: Fault, pick: string)
    requires Faithful(e) && WellFormed(w) && Injective(h) && ValidStore(s) && Loose(e, h, w, s, t)
    ensures SetsInward(e, h, w, s, Call(e, w.cluster, h, s, t, f, pick).0)
    ensures Half(e, h, w, s, t) ==> SetsToward(e, h, w, s, Call(e, w.cluster, h, s, t, f, pick).0)
  {
    hide Faithful, WellFormed, Injective, SetsInward, SetsToward, Call, PlanNow, Wants, CreateAddressGroup,
         AddAddresses, RemoveAddresses, DeleteAddressGroup;
    var u := Call(e, w.cluster, h, s, t, f, pick).0;
    CallSets(e, w.cluster, h, s, t, f, pick);
    if u.addressGroups == s.addressGroups && s.next <= u.next {
      SetsAlone(e, h, w, s, u);
    } else if t.MakeSet? {
      MadeToward(e, h, w, s, SetKey(t.plan, t.i));
      SetsTowardInward(e, h, w, s, u);
    } else if t.DropSets? {
      DroppedToward(e, h, w, s, pick);
      SetsTowardInward(e, h, w, s, u);
    } else {
      AddsInward(e, h, w, s, t.plan.keys[t.i], t.target, t.want, t.read);
      if Half(e, h, w, s, t) { HalfGoesToward(e, h, w, s, t.plan.keys[t.i], t.target, t.want, t.read); }
    }
  }

  // ----- what it goes on as -----

  lemma SetTaskGoesOn(e: Env, h: string -> string, w: World, s: Store, t: Task, f: Fault, pick: string)
    requires ValidStore(s) && Loose(e, h, w, s, t)
    requires t.FindSet? || t.MakeSet? || t.ReadSet? || t.AddTo? || t.TakeFrom?
    ensures var (u, t') := SetCall(e, w.cluster, h, s, t, f, pick);
            && (PassKey(t').Some? ==> t'.plan == t.plan) && !t'.ListGroups? && !t'.DropGroups? && !t'.ReadPort?
               && !t'.WritePort?
            && (t'.MakeSet? ==> t'.i < |t.plan.keys|)
            && (t'.ReadSet? ==> t.FindSet? || t.MakeSet?)
            && (t'.AddTo? ==> t.ReadSet? && t'.i == t.i && t'.target == t.target && t'.want == t.want
                              && (t.target in s.addressGroups && t'.read == s.addressGroups[t.target].addresses)
                                 && u == s)
            && (t'.TakeFrom? ==>
                  t.AddTo? && t'.i == t.i && t'.target == t.target && t'.want == t.want && t'.read == t.read)
  {
    hide ListedForms, SetName, SetExists, CreateAddressGroup, AddAddresses, RemoveAddresses, PlanNow, Wants, Ours, IdOf,
         ValidStore;
  }

  lemma LooseReading(e: Env, h: string -> string, w: World, s: Store, t: Task, f: Fault, pick: string)
    requires ValidStore(s) && Loose(e, h, w, s, t) && (t.FindSet? || t.MakeSet?)
    ensures var (u, t') := SetCall(e, w.cluster, h, s, t, f, pick); t'.ReadSet? ==> Loose(e, h, w, u, t')
  {
    hide PlanNow, Wants, ListedForms, SetName, ValidStore, Ours, CreateAddressGroup, SetExists, IdOf;
    var p, i := t.plan, t.i;
    if i < |p.keys| {
      PlanKeyWants(e, w, p, i);
      PickIsOurs(h, s, p.keys[i], pick);
      MadeToward(e, h, w, s, p.keys[i]);
    }
  }

  lemma LooseSetCall(e: Env, h: string -> string, w: World, s: Store, t: Task, f: Fault, pick: string)
    requires Faithful(e) && WellFormed(w) && Injective(h) && ValidStore(s)
    requires Loose(e, h, w, s, t) && (t.FindSet? || t.MakeSet? || t.ReadSet? || t.AddTo? || t.TakeFrom?)
    ensures var (u, t') := SetCall(e, w.cluster, h, s, t, f, pick);
            Loose(e, h, w, u, t') && (Half(e, h, w, s, t) ==> Half(e, h, w, u, t'))
  {
    hide Faithful, WellFormed, Injective, PlanNow, Wants, Ours, ValidStore, SetCall, SetsInward, SetsToward;
    var (u, t') := SetCall(e, w.cluster, h, s, t, f, pick);
    LooseSets(e, h, w, s, t, f, pick);
    SetTaskGoesOn(e, h, w, s, t, f, pick);
    InwardNamed(e, h, w, s, u);
    hide Call;
    LooseKept(e, h, w, s, u, t);
    if t'.ReadSet? { LooseReading(e, h, w, s, t, f, pick); }
    if Half(e, h, w, s, t) { HalfKept(e, h, w, s, u, t); }
  }

  lemma InwardNamed(e: Env, h: string -> string, w: World, s: Store, t: Store)
    requires SetsInward(e, h, w, s, t)
    ensures SetsNamed(s, t)
  {
    hide SetsNamed;
  }

  lemma OtherTaskGoesOn(e: Env, c: Cluster, h: string -> string, s: Store, t: Task, f: Fault, pick: string)
    requires !(t.FindSet? || t.MakeSet? || t.ReadSet? || t.AddTo? || t.TakeFrom?)
    ensures var t' := Call(e, c, h, s, t, f, pick).1;
            && !(t'.FindSet? || t'.MakeSet? || t'.ReadSet? || t'.AddTo? || t'.TakeFrom?)
            && (PassKey(t').Some? ==> PassKey(t).Some? && t'.plan == t.plan)
            && (t'.ListGroups? || t'.DropGroups? ==> (t.ListGroups? || t.DropGroups?) && t'.live == t.live)
            && (t'.ReadPort? || t'.WritePort? ==> (t.ReadPort? || t.WritePort?) && t'.pod == t.pod && t'.port == t.port)
  {
    hide WantOf, OnPort, Referenced, HoldsAlias, Without, Describing, GroupName, SetName, SetExists, GroupExists,
         HasRule, HasPrefix, DefaultRules, IdOf, Doomed, KeptReferences, PolicyOf, Ordering.SortStrings;
  }

  /** Loose work stays loose and works inward; halfway work stays halfway and
      works toward. */
  lemma CallLoose(e: Env, h: string -> string, w: World, s: Store, t: Task, f: Fault, pick: string)
    requires Faithful(e) && WellFormed(w) && Injective(h) && ValidStore(s) && Loose(e, h, w, s, t)
    ensures var (u, t') := Call(e, w.cluster, h, s, t, f, pick);
            && SetsInward(e, h, w, s, u) && Loose(e, h, w, u, t')
            && (Half(e, h, w, s, t) ==> SetsToward(e, h, w, s, u) && Half(e, h, w, u, t'))
  {
    hide Faithful, WellFormed, Injective, ValidStore, SetsInward, SetsToward, PlanNow, Wants, SetCall, GroupCall,
         RuleCall, PortCall, SweepCall;
    LooseSets(e, h, w, s, t, f, pick);
    if t.FindSet? || t.MakeSet? || t.ReadSet? || t.AddTo? || t.TakeFrom? {
      LooseSetCall(e, h, w, s, t, f, pick);
    } else {
      OtherTaskGoesOn(e, w.cluster, h, s, t, f, pick);
    }
  }
}
