/**
 * Decimal rendering of unsigned integers, as Rust's `format!("{}", n)`
 * writes a `u8` or `u32`: the shortest string of ASCII digits, with no
 * sign and no leading zero.
 */
module Decimal {

  predicate IsDigit(c: char) {
    '0' <= c <= '9'
  }

  function DigitValue(c: char): nat
    requires IsDigit(c)
  {
    c as int - '0' as int
  }

  function DigitChar(d: nat): (c: char)
    requires d < 10
    ensures IsDigit(c) && DigitValue(c) == d
  {
    ('0' as int + d) as char
  }

  /** The canonical decimal form of `n`. */
  function ToDecimal(n: nat): (s: string)
    ensures |s| > 0
    ensures forall i :: 0 <= i < |s| ==> IsDigit(s[i])
    ensures |s| > 1 ==> s[0] != '0'
    decreases n
  {
    if n < 10 then [DigitChar(n)] else ToDecimal(n / 10) + [DigitChar(n % 10)]
  }

  /** The value of a string of digits, most significant digit first. */
  function Value(s: string): nat
    requires forall i :: 0 <= i < |s| ==> IsDigit(s[i])
  {
    if s == [] then 0 else 10 * Value(s[..|s| - 1]) + DigitValue(s[|s| - 1])
  }

  /** Reading back the decimal form gives the number it was written from. */
  lemma {:induction false} ValueOfToDecimal(n: nat)
    ensures Value(ToDecimal(n)) == n
    decreases n
  {
    var s := ToDecimal(n);
    if n >= 10 {
      ValueOfToDecimal(n / 10);
      assert s[..|s| - 1] == ToDecimal(n / 10);
    }
  }

  /** Different numbers are written differently. */
  lemma ToDecimalInjective(m: nat, n: nat)
    requires ToDecimal(m) == ToDecimal(n)
    ensures m == n
  {
    ValueOfToDecimal(m);
    ValueOfToDecimal(n);
  }
}
