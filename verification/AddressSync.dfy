/** Peer sets in Neutron: EnsureAddressGroup, diffAddresses and SyncAddresses of
    pkg/netpol/neutron.go. */
module AddressSync {
  import opened Wrappers
  import opened Text
  import opened NeutronStore
  import opened NeutronClient
  import Ordering

  predicate IsSpace(c: char) {
    c == ' ' || c == '\t' || c == '\n' || c == '\r'
  }

  function TrimLeft(s: string): string {
    if s != [] && IsSpace(s[0]) then TrimLeft(s[1..]) else s
  }

  function TrimRight(s: string): string {
    if s != [] && IsSpace(s[|s| - 1]) then TrimRight(s[..|s| - 1]) else s
  }

  /** The form Neutron stores: a bare address becomes a one-address CIDR. */
  function Normalize(a: string): string {
    var t := TrimRight(TrimLeft(a));
    if t == "" || HasChar(t, '/') then t
    else if HasChar(t, ':') then t + "/128"
    else t + "/32"
  }

  /** A stored address is compared in the form it already has. */
  predicate Normal(a: string) {
    Normalize(a) == a
  }

  lemma {:induction false} LeftTrimmed(s: string)
    ensures TrimLeft(s) == [] || !IsSpace(TrimLeft(s)[0])
    ensures exists i :: 0 <= i <= |s| && TrimLeft(s) == s[i..]
  {
    if s != [] && IsSpace(s[0]) {
      LeftTrimmed(s[1..]);
      var i :| 0 <= i <= |s[1..]| && TrimLeft(s[1..]) == s[1..][i..];
      assert TrimLeft(s) == s[i + 1..];
    } else {
      assert TrimLeft(s) == s[0..];
    }
  }

  lemma {:induction false} RightTrimmed(s: string)
    ensures TrimRight(s) <= s
    ensures TrimRight(s) == [] || !IsSpace(TrimRight(s)[|TrimRight(s)| - 1])
  {
    if s != [] && IsSpace(s[|s| - 1]) {
      RightTrimmed(s[..|s| - 1]);
    }
  }

  /** The stored form is stable: normalizing it again changes nothing. */
  lemma NormalizeTwice(a: string)
    ensures Normal(Normalize(a))
  {
    var t := TrimRight(TrimLeft(a));
    LeftTrimmed(a);
    RightTrimmed(TrimLeft(a));
    var n := Normalize(a);
    if t != "" {
      assert n[0] == t[0] == TrimLeft(a)[0];
      assert TrimLeft(n) == n;
      assert TrimRight(n) == n;
      assert HasChar(n, '/') by {
        if !HasChar(t, '/') { assert n[|t|] == '/'; }
      }
    }
  }

  predicate Plain(a: string) {
    a != "" && !HasChar(a, '/') && forall i :: 0 <= i < |a| ==> !IsSpace(a[i])
  }

  lemma PlainNormalizes(a: string)
    requires Plain(a)
    ensures Normalize(a) == if HasChar(a, ':') then a + "/128" else a + "/32"
  {
    assert TrimLeft(a) == a;
    assert TrimRight(a) == a;
  }

  predicate Blank(s: string) {
    forall i :: 0 <= i < |s| ==> s[i] in {' ', '\t', '\n', '\r'}
  }

  /** Only blanks around an address are dropped, and a bare one is taken for one
      host of its family. */
  lemma {:induction false} BlanksDropped(before: string, a: string, after: string)
    requires Blank(before) && Plain(a) && Blank(after)
    ensures Normalize(before + (a + after)) == if ':' in a then a + "/128" else a + "/32"
  {
    var s := before + (a + after);
    if before != "" {
      assert s[1..] == before[1..] + (a + after);
      BlanksDropped(before[1..], a, after);
    } else {
      assert s == a + after && TrimLeft(s) == s;
      BlanksCut(a, after);
      PlainNormalizes(a);
      assert TrimLeft(a) == a && TrimRight(a) == a;
    }
  }

  lemma {:induction false} BlanksCut(a: string, after: string)
    requires Plain(a) && Blank(after)
    ensures TrimRight(a + after) == a
  {
    var s := a + after;
    if after == "" {
      assert s == a;
    } else {
      assert s[..|s| - 1] == a + after[..|after| - 1];
      BlanksCut(a, after[..|after| - 1]);
    }
  }

  /** No two bare addresses share a stored form. */
  lemma NormalizeInjective(a: string, b: string)
    requires Plain(a) && Plain(b) && Normalize(a) == Normalize(b)
    ensures a == b
  {
    PlainNormalizes(a);
    PlainNormalizes(b);
    var ra := if HasChar(a, ':') then "128" else "32";
    var rb := if HasChar(b, ':') then "128" else "32";
    assert a + ['/'] + ra == Normalize(a);
    assert b + ['/'] + rb == Normalize(b);
    FirstFieldUnique(a, ra, b, rb, '/');
  }

  function Forms(want: seq<string>): set<string> {
    set a | a in want :: Normalize(a)
  }

  function Members(s: seq<string>): (r: set<string>)
    ensures forall a :: a in r <==> a in s
  {
    set a | a in s
  }

  /** What to add and what to remove to get from have to want. */
  method DiffAddresses(have: set<string>, want: seq<string>) returns (add: seq<string>, remove: seq<string>)
    requires forall a :: a in have ==> Normal(a)
    ensures Members(add) == Forms(want) - have
    ensures Members(remove) == have - Forms(want)
    ensures Ordering.SortedBy(add, Ordering.StrLe) && Ordering.SortedBy(remove, Ordering.StrLe)
  {
    var w: set<string> := {};
    for i := 0 to |want|
      invariant w == Forms(want[..i])
    {
      assert want[..i + 1] == want[..i] + [want[i]];
      w := w + {Normalize(want[i])};
    }
    assert want[..|want|] == want;
    add := Listing(w - have);
    remove := Listing(have - w);
  }

  /** A set in ascending order. */
  method Listing(s: set<string>) returns (out: seq<string>)
    ensures Members(out) == s
    ensures Ordering.SortedBy(out, Ordering.StrLe) && Ordering.NoRepeats(out)
  {
    hide Ordering.SortStrings, Ordering.SortedBy, Ordering.StrLe;
    var rest := s;
    out := [];
    while rest != {}
      invariant rest <= s
      invariant Members(out) == s - rest
      invariant Ordering.NoRepeats(out)
      decreases rest
    {
      var a :| a in rest;
      rest := rest - {a};
      assert a !in Members(out);
      out := out + [a];
      assert a in out;
    }
    Ordering.SortStringsAre(out);
    out := Ordering.SortStrings(out);
  }

  /** A state passed through while one address group is brought to want. */
  ghost predicate Filling(s: Store, t: Store, a: string, want: set<string>) {
    && a in s.addressGroups && a in t.addressGroups
    && t == s.(addressGroups := s.addressGroups[a := s.addressGroups[a].(addresses := t.addressGroups[a].addresses)])
    && s.addressGroups[a].addresses * want <= t.addressGroups[a].addresses <= s.addressGroups[a].addresses + want
  }

  method CallAddressChange(n: Neutron, a: string, addrs: set<string>, adding: bool) returns (answer: Answer)
    requires n.Valid()
    modifies n
    ensures n.Valid() && n.trace == old(n.trace) + [n.store]
    ensures var r := if adding then AddAddresses(old(n.store), a, addrs) else RemoveAddresses(old(n.store), a, addrs);
            && (n.store == old(n.store) || n.store == r.0)
            && (!answer.Failed? ==> (n.store, answer) == r)
            && (old(n.Healthy()) ==> n.Healthy() && (n.store, answer) == r)
  {
    var f := n.NextFault();
    OtherCallsValid(n.store, a, "", addrs, []);
    var r := if adding then AddAddresses(n.store, a, addrs) else RemoveAddresses(n.store, a, addrs);
    answer := if f.NoFault? then r.1 else Failed;
    if !f.Before? {
      n.store := r.0;
    }
    n.trace := n.trace + [n.store];
  }

  /** Sends one half of the difference; "already so" is as good as done. */
  method SendDifference(n: Neutron, a: string, addrs: set<string>, adding: bool) returns (ok: bool)
    requires n.Valid() && a in n.store.addressGroups
    requires adding ==> addrs !! n.store.addressGroups[a].addresses
    requires !adding ==> addrs <= n.store.addressGroups[a].addresses
    modifies n
    ensures n.Valid() && old(n.trace) <= n.trace
    ensures addrs == {} ==> n.trace == old(n.trace) && n.store == old(n.store)
    ensures forall i :: |old(n.trace)| <= i < |n.trace| ==> n.trace[i] == n.store
    ensures n.store == old(n.store) || n.store == Changed(old(n.store), a, addrs, adding)
    ensures ok ==> n.store == Changed(old(n.store), a, addrs, adding)
    ensures old(n.Healthy()) ==> n.Healthy() && ok
  {
    if addrs == {} {
      var g := n.store.addressGroups[a];
      assert g.addresses + addrs == g.addresses && g.addresses - addrs == g.addresses;
      assert n.store.addressGroups[a := g] == n.store.addressGroups;
      return true;
    }
    var answer := CallAddressChange(n, a, addrs, adding);
    ok := !answer.Failed? && !answer.Gone?;
  }

  /** The store with addresses added to one group, or taken out of it. */
  function Changed(s: Store, a: string, addrs: set<string>, adding: bool): Store
    requires a in s.addressGroups
  {
    var have := s.addressGroups[a].addresses;
    var now := if adding then have + addrs else have - addrs;
    s.(addressGroups := s.addressGroups[a := s.addressGroups[a].(addresses := now)])
  }

  /** Read, diff, then write only the difference. */
  method SyncAddresses(n: Neutron, a: string, want: seq<string>) returns (ok: bool)
    requires n.Valid() && a in n.store.addressGroups
    requires forall x :: x in n.store.addressGroups[a].addresses ==> Normal(x)
    modifies n
    ensures n.Valid() && old(n.trace) <= n.trace
    ensures Filling(old(n.store), n.store, a, Forms(want))
    ensures forall i :: |old(n.trace)| <= i < |n.trace| ==> Filling(old(n.store), n.trace[i], a, Forms(want))
    ensures ok ==> n.store.addressGroups[a].addresses == Forms(want)
    ensures old(n.Healthy()) ==> n.Healthy() && ok
    ensures old(n.store).addressGroups[a].addresses == Forms(want) ==>
              n.store == old(n.store) && n.trace == old(n.trace)
  {
    ghost var s := n.store;
    assert s ==
             s.(addressGroups := s.addressGroups[a := s.addressGroups[a].(addresses := s.addressGroups[a].addresses)]);
    var f := n.NextFault();
    if !f.NoFault? {
      return false;
    }
    var have := n.store.addressGroups[a].addresses;
    var add, remove := DiffAddresses(have, want);
    var addSet, removeSet := Members(add), Members(remove);
    ok := SendDifference(n, a, addSet, true);
    if !ok {
      return;
    }
    ok := SendDifference(n, a, removeSet, false);
    assert have + addSet - removeSet == Forms(want);
  }

  /** Only a group of this name appeared, and it is empty. */
  ghost predicate GroupAdded(s: Store, t: Store, name: string) {
    && t == s.(addressGroups := t.addressGroups, next := t.next) && s.next <= t.next
    && (forall a :: a in s.addressGroups ==> a in t.addressGroups && t.addressGroups[a] == s.addressGroups[a])
    && (forall a :: a in t.addressGroups && a !in s.addressGroups ==> t.addressGroups[a] == AddressGroup(name, {}))
  }

  /** At most one address group goes by this name. */
  ghost predicate OneSet(s: Store, name: string) {
    forall a, b :: a in s.addressGroups && s.addressGroups[a].name == name
                   && b in s.addressGroups && s.addressGroups[b].name == name
      ==> a == b
  }

  method EnsureAddressGroup(n: Neutron, name: string) returns (r: Option<string>)
    requires n.Valid()
    modifies n
    ensures n.Valid() && old(n.trace) <= n.trace
    ensures GroupAdded(old(n.store), n.store, name)
    ensures forall i :: |old(n.trace)| <= i < |n.trace| ==> GroupAdded(old(n.store), n.trace[i], name)
    ensures r.Some? ==> r.value in n.store.addressGroups && n.store.addressGroups[r.value].name == name
    ensures old(n.Healthy()) ==> n.Healthy() && r.Some?
    ensures (exists a :: a in old(n.store).addressGroups && old(n.store).addressGroups[a].name == name) ==>
              n.store == old(n.store)
    ensures forall x :: OneSet(old(n.store), x) ==> OneSet(n.store, x)
  {
    var f := n.NextFault();
    if !f.NoFault? {
      return None;
    }
    if a :| a in n.store.addressGroups && n.store.addressGroups[a].name == name {
      return Some(a);
    }
    f := n.NextFault();
    CreateAddressGroupValid(n.store, name);
    r := if f.NoFault? then Some(IdOf(n.store.next)) else None;
    if !f.Before? {
      n.store := CreateAddressGroup(n.store, name);
    }
    n.trace := n.trace + [n.store];
  }
}
