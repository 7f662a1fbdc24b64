/** Decimal rendering of natural numbers, as Go's `strconv.Itoa` produces it for
    the non-negative values the index manager passes, and the reading back that
    shows the rendering loses nothing. */
module Decimal {

  predicate IsDigit(c: char) {
    '0' <= c <= '9'
  }

  predicate AllDigits(s: string) {
    forall i :: 0 <= i < |s| ==> IsDigit(s[i])
  }

  function DigitChar(d: nat): (c: char)
    requires d < 10
    ensures IsDigit(c)
  {
    (d + '0' as int) as char
  }

  function DigitValue(c: char): (d: nat)
    requires IsDigit(c)
    ensures d < 10
  {
    c as int - '0' as int
  }

  /** `strconv.Itoa(n)`: the shortest decimal numeral of `n`, most significant
      digit first, with no leading zero. */
  function Itoa(n: nat): (s: string)
    ensures |s| > 0
    ensures AllDigits(s)
    ensures s[0] == '0' <==> n == 0
    decreases n
  {
    if n < 10 then [DigitChar(n)] else Itoa(n / 10) + [DigitChar(n % 10)]
  }

  /** The value of a numeral, read most significant digit first. */
  function Atoi(s: string): nat
    requires AllDigits(s)
  {
    if |s| == 0 then 0 else Atoi(s[..|s| - 1]) * 10 + DigitValue(s[|s| - 1])
  }

  /** Reading a rendered number gives the number back. */
  lemma {:induction false} AtoiItoa(n: nat)
    ensures Atoi(Itoa(n)) == n
    decreases n
  {
    if n >= 10 {
      var s := Itoa(n);
      assert s == Itoa(n / 10) + [DigitChar(n % 10)];
      assert s[..|s| - 1] == Itoa(n / 10);
      AtoiItoa(n / 10);
    }
  }

  /** Distinct numbers have distinct numerals. */
  lemma ItoaInjective(m: nat, n: nat)
    ensures Itoa(m) == Itoa(n) <==> m == n
  {
    AtoiItoa(m);
    AtoiItoa(n);
  }

  /** Two strings that share a prefix and end in numerals are equal exactly
      when the numbers are: a prefix followed by a numeral determines the
      number. */
  lemma SuffixedInjective(p: string, m: nat, n: nat)
    ensures p + Itoa(m) == p + Itoa(n) <==> m == n
  {
    if p + Itoa(m) == p + Itoa(n) {
      assert Itoa(m) == (p + Itoa(m))[|p|..];
      assert Itoa(n) == (p + Itoa(n))[|p|..];
      ItoaInjective(m, n);
    }
  }
}
