/** The string operations the source leans on: ASCII lower-casing, decimal
    rendering, prefixes, and joining fields with a separator. */
module Text {

  predicate HasChar(s: string, c: char) {
    exists i :: 0 <= i < |s| && s[i] == c
  }

  predicate HasPrefix(s: string, p: string) {
    p <= s
  }

  function ToLowerChar(c: char): char {
    if 'A' <= c <= 'Z' then c - 'A' + 'a' else c
  }

  function ToLower(s: string): (r: string)
    ensures |r| == |s|
    ensures forall i :: 0 <= i < |s| ==> r[i] == ToLowerChar(s[i])
  {
    seq(|s|, i requires 0 <= i < |s| => ToLowerChar(s[i]))
  }

  // ----- decimal rendering -----

  function Digit(d: nat): char
    requires d < 10
  {
    '0' + d as char
  }

  function Decimal(n: int): string {
    if n < 0 then "-" + DecimalNat(-n) else DecimalNat(n)
  }

  function DecimalNat(n: nat): (s: string)
    ensures |s| > 0
    ensures forall i :: 0 <= i < |s| ==> '0' <= s[i] <= '9'
  {
    if n < 10 then [Digit(n)] else DecimalNat(n / 10) + [Digit(n % 10)]
  }

  /** Reads back a run of digits; the inverse of DecimalNat. */
  function ParseNat(s: string): nat
    requires forall i :: 0 <= i < |s| ==> '0' <= s[i] <= '9'
  {
    if s == [] then 0
    else 10 * ParseNat(s[..|s| - 1]) + (s[|s| - 1] - '0') as nat
  }

  lemma {:induction false} ParseOfDecimal(n: nat)
    ensures ParseNat(DecimalNat(n)) == n
  {
    var s := DecimalNat(n);
    if n < 10 {
      assert s == [Digit(n)] && s[..|s| - 1] == [];
    } else {
      ParseOfDecimal(n / 10);
      assert s[..|s| - 1] == DecimalNat(n / 10);
    }
  }

  lemma DecimalNatInjective(m: nat, n: nat)
    requires DecimalNat(m) == DecimalNat(n)
    ensures m == n
  {
    ParseOfDecimal(m);
    ParseOfDecimal(n);
  }

  lemma SignShown(n: int)
    ensures |Decimal(n)| > 0
    ensures n < 0 <==> Decimal(n)[0] == '-'
    ensures n < 0 ==> Decimal(n)[1..] == DecimalNat(-n)
  {
    if n >= 0 { assert '0' <= DecimalNat(n)[0] <= '9'; }
  }

  lemma DecimalInjective(m: int, n: int)
    requires Decimal(m) == Decimal(n)
    ensures m == n
  {
    SignShown(m);
    SignShown(n);
    if m < 0 { DecimalNatInjective(-m, -n); } else { DecimalNatInjective(m, n); }
  }

  lemma DecimalHasNo(n: int, c: char)
    requires !('0' <= c <= '9') && c != '-'
    ensures !HasChar(Decimal(n), c)
  {
  }

  // ----- separators -----

  /** When two joined strings agree and one first field is shorter, the other
      one swallowed a separator. */
  lemma LongerFieldHasSeparator(a: string, b: string, a': string, b': string, sep: char)
    requires a + [sep] + b == a' + [sep] + b'
    requires |a| < |a'|
    ensures HasChar(a', sep)
  {
    assert (a + [sep] + b)[|a|] == sep;
    assert (a' + [sep] + b')[|a|] == a'[|a|];
  }

  lemma LongerRestHasSeparator(a: string, b: string, a': string, b': string, sep: char)
    requires a + [sep] + b == a' + [sep] + b'
    requires |a| < |a'|
    ensures HasChar(b, sep)
  {
    assert (a' + [sep] + b')[|a'|] == sep;
    assert (a + [sep] + b)[|a'|] == b[|a'| - |a| - 1];
  }

  /** The same from the other end. */
  lemma LastFieldUnique(a: string, b: string, a': string, b': string, sep: char)
    requires !HasChar(b, sep) && !HasChar(b', sep)
    requires a + [sep] + b == a' + [sep] + b'
    ensures a == a' && b == b'
  {
    var s, t := a + [sep] + b, a' + [sep] + b';
    assert |a| == |a'| by {
      if |a| < |a'| { LongerRestHasSeparator(a, b, a', b', sep); }
      if |a'| < |a| { LongerRestHasSeparator(a', b', a, b, sep); }
    }
    assert a == s[..|a|] && a' == t[..|a|];
    assert b == s[|a| + 1..] && b' == t[|a| + 1..];
  }

  /** A field without the separator is recovered from the joined string. */
  lemma FirstFieldUnique(a: string, b: string, a': string, b': string, sep: char)
    requires !HasChar(a, sep) && !HasChar(a', sep)
    requires a + [sep] + b == a' + [sep] + b'
    ensures a == a' && b == b'
  {
    var s, t := a + [sep] + b, a' + [sep] + b';
    assert |a| == |a'| by {
      if |a| < |a'| { LongerFieldHasSeparator(a, b, a', b', sep); }
      if |a'| < |a| { LongerFieldHasSeparator(a', b', a, b, sep); }
    }
    assert a == s[..|a|] && a' == t[..|a|];
    assert b == s[|a| + 1..] && b' == t[|a| + 1..];
  }
}
