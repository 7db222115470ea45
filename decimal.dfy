/** PHP's `(string)` cast of a non-negative integer: its decimal rendering,
    together with the reading back that shows nothing is lost. */
module Decimal {

  predicate IsDigit(c: char) {
    '0' <= c <= '9'
  }

  predicate AllDigits(s: string) {
    forall i :: 0 <= i < |s| ==> IsDigit(s[i])
  }

  /** The form PHP produces: at least one digit, and no leading zero unless
      the whole string is "0". */
  predicate IsCanonical(s: string) {
    |s| > 0 && AllDigits(s) && (s[0] == '0' ==> |s| == 1)
  }

  function DigitChar(d: nat): (c: char)
    requires d < 10
    ensures IsDigit(c)
  {
    ('0' as int + d) as char
  }

  function DigitValue(c: char): (d: nat)
    requires IsDigit(c)
    ensures d < 10 && DigitChar(d) == c
  {
    c as int - '0' as int
  }

  /** `(string) $n` for `$n >= 0`. */
  function ToDecimal(n: nat): (s: string)
    ensures |s| > 0
    decreases n
  {
    if n < 10 then [DigitChar(n)] else ToDecimal(n / 10) + [DigitChar(n % 10)]
  }

  /** The value of a string of digits, most significant first. */
  function ParseDecimal(s: string): nat
    requires AllDigits(s)
  {
    if s == [] then 0 else ParseDecimal(s[..|s| - 1]) * 10 + DigitValue(s[|s| - 1])
  }

  /** The rendering has PHP's canonical form. */
  lemma {:induction false} ToDecimalIsCanonical(n: nat)
    ensures IsCanonical(ToDecimal(n))
    ensures n > 0 ==> ToDecimal(n)[0] != '0'
    decreases n
  {
    if n >= 10 {
      ToDecimalIsCanonical(n / 10);
    }
  }

  /** Reading the rendering back gives the number. */
  lemma {:induction false} ParseToDecimal(n: nat)
    ensures AllDigits(ToDecimal(n)) && ParseDecimal(ToDecimal(n)) == n
    decreases n
  {
    ToDecimalIsCanonical(n);
    if n >= 10 {
      var s := ToDecimal(n);
      ParseToDecimal(n / 10);
      assert s[..|s| - 1] == ToDecimal(n / 10);
    }
  }

  /** Rendering the value of a canonical string gives that string back. */
  lemma {:induction false} ToDecimalParse(s: string)
    requires IsCanonical(s)
    ensures ToDecimal(ParseDecimal(s)) == s
    decreases |s|
  {
    if |s| > 1 {
      var init := s[..|s| - 1];
      assert IsCanonical(init);
      ParseNonZeroLead(init);
      ToDecimalParse(init);
      assert s == init + [s[|s| - 1]];
    }
  }

  /** A canonical string of two or more digits has a value of at least 1. */
  lemma {:induction false} ParseNonZeroLead(s: string)
    requires IsCanonical(s)
    ensures s[0] != '0' ==> ParseDecimal(s) > 0
    decreases |s|
  {
    if |s| > 1 {
      ParseNonZeroLead(s[..|s| - 1]);
    }
  }

  /** Distinct sizes give distinct renderings. */
  lemma ToDecimalInjective(m: nat, n: nat)
    requires ToDecimal(m) == ToDecimal(n)
    ensures m == n
  {
    ParseToDecimal(m);
    ParseToDecimal(n);
  }
}
