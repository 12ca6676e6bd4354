/** Numbers as Python and TOML write them. */
module Decimal {

  predicate IsNumeral(c: char) { '0' <= c <= '9' }

  function NumeralOf(n: nat): (c: char)
    requires n < 10
    ensures IsNumeral(c) && ValueOf(c) == n
  {
    '0' + n as char
  }

  function ValueOf(c: char): (n: nat)
    requires IsNumeral(c)
    ensures n < 10
  {
    (c - '0') as nat
  }

  predicate AreNumerals(s: string) { forall k | 0 <= k < |s| :: IsNumeral(s[k]) }

  /** `str(n)` */
  function Numerals(n: nat): (s: string)
    ensures s != "" && AreNumerals(s)
  {
    if n < 10 then [NumeralOf(n)] else Numerals(n / 10) + [NumeralOf(n % 10)]
  }

  function NumberOf(s: string): nat
    requires AreNumerals(s)
  {
    if s == "" then 0 else NumberOf(s[..|s| - 1]) * 10 + ValueOf(s[|s| - 1])
  }

  lemma {:induction false} NumeralsRoundTrip(n: nat)
    ensures NumberOf(Numerals(n)) == n
  {
    if n < 10 {
      assert [NumeralOf(n)][..0] == "" && NumberOf("") == 0;
    } else {
      NumeralsRoundTrip(n / 10);
      assert (Numerals(n / 10) + [NumeralOf(n % 10)])[..|Numerals(n / 10)|] == Numerals(n / 10);
    }
  }

  /** No numeral but the one for zero begins with a zero. */
  lemma {:induction false} NoLeadingZero(n: nat)
    requires n > 0
    ensures Numerals(n)[0] != '0'
  {
    if n < 10 {
      assert ValueOf('0') == 0;
    } else {
      NoLeadingZero(n / 10);
      assert Numerals(n)[0] == Numerals(n / 10)[0];
    }
  }

  /** How many numerals `t` begins with. */
  function NumeralRun(t: string): (n: nat)
    ensures n <= |t| && AreNumerals(t[..n]) && (n < |t| ==> !IsNumeral(t[n]))
  {
    if t != "" && IsNumeral(t[0]) then
      var n := NumeralRun(t[1..]);
      assert t[..n + 1] == [t[0]] + t[1..][..n];
      n + 1
    else 0
  }

  lemma {:induction false} RunOf(s: string, rest: string)
    requires AreNumerals(s) && (rest == "" || !IsNumeral(rest[0]))
    ensures NumeralRun(s + rest) == |s|
  {
    if s == "" {
      assert s + rest == rest;
    } else {
      assert (s + rest)[1..] == s[1..] + rest;
      RunOf(s[1..], rest);
    }
  }

  /** `str(n)` of an integer. */
  function Written(n: int): string { if n < 0 then "-" + Numerals(-n) else Numerals(n) }

  datatype Number = Number(n: int) | NotANumber

  /** A decimal integer of TOML v1.0.0, without underscores or a plus sign. */
  function ReadNumber(t: string): Number {
    if t != "" && t[0] == '-' then
      if IsNatural(t[1..]) then Number(0 - NumberOf(t[1..])) else NotANumber
    else if IsNatural(t) then Number(NumberOf(t)) else NotANumber
  }

  predicate IsNatural(t: string) {
    t != "" && AreNumerals(t) && (t[0] == '0' ==> t == "0")
  }

  lemma {:induction false} NumeralsAreNatural(n: nat)
    ensures IsNatural(Numerals(n))
  {
    if n > 0 {
      NoLeadingZero(n);
    } else {
      assert ValueOf('0') == 0;
    }
  }

  lemma {:induction false} NumberRoundTrip(n: int)
    ensures ReadNumber(Written(n)) == Number(n)
  {
    var m := if n < 0 then -n else n;
    NumeralsRoundTrip(m);
    NumeralsAreNatural(m);
    if n < 0 {
      assert ("-" + Numerals(m))[1..] == Numerals(m);
    } else {
      assert IsNumeral(Numerals(m)[0]);
    }
  }
}
