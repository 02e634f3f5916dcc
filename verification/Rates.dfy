/** pkg/provider/stats.go: cumulative CPU counters turned into rates, in 64-bit
    arithmetic. */
module Rates {
  import opened Wrappers

  const Second := 1_000_000_000
  const TwoTo63 := 0x8000_0000_0000_0000
  const TwoTo64 := 0x1_0000_0000_0000_0000

  /** The most core time one interval can hold before used * Second wraps. */
  const Fits := 18446744073

  /** A container's counter as the runtime's clock saw it; a restart makes a new
      generation and starts the counter again. */
  datatype Reading = Reading(at: int, core: int, generation: string)

  predicate Representable(r: Reading) {
    0 <= r.at < TwoTo63 && 0 <= r.core < TwoTo64
  }

  /** Two readings a rate can be drawn from. */
  predicate Comparable(a: Reading, b: Reading) {
    a.generation == b.generation && a.at < b.at && a.core <= b.core
  }

  /** The rate as the machine computes it, wrap and all. */
  function Rate(a: Reading, b: Reading): int
    requires Comparable(a, b)
  {
    ((b.core - a.core) * Second) % TwoTo64 / (b.at - a.at)
  }

  class Table {
    var last: map<string, Reading>

    constructor ()
      ensures last == map[]
    {
      last := map[];
    }

    /** Remembers a reading, and gives a rate only against an earlier one of the
        same generation that both clock and counter have moved on from. */
    method Observe(key: string, s: Reading) returns (r: Option<int>)
      requires Representable(s) && forall k :: k in last ==> Representable(last[k])
      modifies this
      ensures last == old(last)[key := s]
      ensures r.Some? <==>
              && key in old(last) && old(last)[key].generation == s.generation
              && old(last)[key].at < s.at && old(last)[key].core <= s.core
      ensures r.Some? ==>
                && Comparable(old(last)[key], s) && r.value == Rate(old(last)[key], s) && 0 <= r.value < TwoTo64
    {
      var had := key in last;
      var prev := if had then last[key] else s;
      last := last[key := s];
      if !had || prev.generation != s.generation {
        return None;
      }
      if s.at <= prev.at || s.core < prev.core {
        return None;
      }
      var elapsed := s.at - prev.at;
      var used := s.core - prev.core;
      QuotientBelow(used * Second % TwoTo64, elapsed);
      return Some(used * Second % TwoTo64 / elapsed);
    }

    /** Drops the readings of everything not live, and nothing else. */
    method Forget(live: set<string>)
      modifies this
      ensures last == map k | k in old(last) && k in live :: old(last)[k]
    {
      var rest := last.Keys;
      while rest != {}
        invariant rest <= last.Keys <= old(last).Keys
        invariant forall k :: k in last ==> last[k] == old(last)[k]
        invariant forall k :: k in old(last) ==> (k in last <==> k in live || k in rest)
        decreases rest
      {
        var k :| k in rest;
        rest := rest - {k};
        if k !in live {
          last := last - {k};
        }
      }
    }
  }

  lemma QuotientBelow(x: int, d: int)
    requires 0 <= x < TwoTo64 && d > 0
    ensures 0 <= x / d < TwoTo64
  {
    DivisionBounds(x, d);
    TimesAtLeast(x / d, d);
  }

  lemma {:induction false} TimesAtLeast(q: nat, d: nat)
    requires d >= 1
    ensures q * d >= q
  {
    if d > 1 { TimesAtLeast(q, d - 1); }
  }

  lemma TimesOrdered(a: int, b: int, d: int)
    requires d > 0 && a <= b
    ensures a * d <= b * d
  {
  }

  /** Numbers further apart than the divisor have different quotients. */
  lemma QuotientsApart(x: int, y: int, d: int)
    requires d > 0 && x - y >= d
    ensures x / d > y / d
  {
    DivisionBounds(x, d);
    DivisionBounds(y, d);
    if x / d <= y / d { TimesOrdered(x / d, y / d, d); }
  }

  lemma DivisionBounds(x: int, d: int)
    requires d > 0
    ensures x - d < x / d * d <= x
  {
  }

  lemma WrappedApart(x: int)
    requires x >= TwoTo64
    ensures x - x % TwoTo64 >= TwoTo64
  {
  }

  /** The rate is the true one - core time per second, rounded down - exactly
      when the interval's core time fits. */
  lemma RateExact(a: Reading, b: Reading)
    requires Comparable(a, b) && Representable(a) && Representable(b)
    ensures Rate(a, b) == (b.core - a.core) * Second / (b.at - a.at) <==> b.core - a.core <= Fits
  {
    var x, d := (b.core - a.core) * Second, b.at - a.at;
    if b.core - a.core <= Fits {
      assert 0 <= x < TwoTo64;
    } else {
      WrappedApart(x);
      QuotientsApart(x, x % TwoTo64, d);
    }
  }

  // ----- a run of readings of one container -----

  predicate Accepted(rs: seq<Reading>) {
    forall i :: 0 < i < |rs| ==>
      Comparable(rs[i - 1], rs[i]) && rs[i].core - rs[i - 1].core <= Fits
  }

  /** The core time the rates account for: each rate over its own interval. */
  function Accounted(rs: seq<Reading>): int
    requires Accepted(rs)
  {
    if |rs| < 2 then 0
    else
      var a, b := rs[|rs| - 2], rs[|rs| - 1];
      Accounted(rs[..|rs| - 1]) + Rate(a, b) * (b.at - a.at)
  }

  /** However many readings, what the rates add up to is the core time really
      used, short of it by less than one unit for each nanosecond elapsed. */
  lemma {:induction false} RatesAddUp(rs: seq<Reading>)
    requires Accepted(rs) && |rs| >= 2 && forall i :: 0 <= i < |rs| ==> Representable(rs[i])
    ensures var used, elapsed := rs[|rs| - 1].core - rs[0].core, rs[|rs| - 1].at - rs[0].at;
            used * Second - elapsed < Accounted(rs) <= used * Second
  {
    var init := rs[..|rs| - 1];
    var a, b := rs[|rs| - 2], rs[|rs| - 1];
    assert init[|init| - 1] == a;
    assert Comparable(rs[|rs| - 1 - 1], rs[|rs| - 1]) && b.core - a.core <= Fits;
    RateExact(a, b);
    DivisionBounds((b.core - a.core) * Second, b.at - a.at);
    if |init| >= 2 {
      RatesAddUp(init);
      Scaled(a.core - rs[0].core, b.core - a.core);
    } else {
      assert Accounted(init) == 0;
    }
  }

  lemma Scaled(x: int, y: int)
    ensures (x + y) * Second == x * Second + y * Second
  {
  }

  /** The rates the table gives for the readings of one key in turn. */
  method ObserveAll(t: Table, key: string, rs: seq<Reading>) returns (rates: seq<int>)
    requires Accepted(rs) && forall i :: 0 <= i < |rs| ==> Representable(rs[i])
    requires forall k :: k in t.last ==> Representable(t.last[k])
    requires key !in t.last
    modifies t
    ensures |rates| == if |rs| == 0 then 0 else |rs| - 1
    ensures forall i :: 0 <= i < |rates| ==> Comparable(rs[i], rs[i + 1]) && rates[i] == Rate(rs[i], rs[i + 1])
  {
    rates := [];
    for i := 0 to |rs|
      invariant forall k :: k in t.last ==> Representable(t.last[k])
      invariant |rates| == if i == 0 then 0 else i - 1
      invariant if i == 0 then key !in t.last else key in t.last && t.last[key] == rs[i - 1]
      invariant forall j :: 0 <= j < |rates| ==> Comparable(rs[j], rs[j + 1]) && rates[j] == Rate(rs[j], rs[j + 1])
    {
      assert i > 0 ==> Comparable(rs[i - 1], rs[i]);
      var r := t.Observe(key, rs[i]);
      if r.Some? {
        rates := rates + [r.value];
      }
    }
  }
}
