/** Decimal rendering of unsigned integers, as Rust's `format!("{}", n)` writes a `u64`. */
module Decimal {

  predicate IsDigit(c: char) {
    '0' <= c <= '9'
  }

  function DigitChar(d: nat): (c: char)
    requires d < 10
    ensures IsDigit(c)
    ensures c as int - '0' as int == d
  {
    ('0' as int + d) as char
  }

  /** The decimal digits of `n`, most significant first, without sign or leading zero. */
  function Format(n: nat): (s: string)
    ensures |s| > 0
    ensures forall i :: 0 <= i < |s| ==> IsDigit(s[i])
    ensures s[0] == '0' <==> n == 0
    ensures |s| >= 2 <==> n >= 10
    decreases n
  {
    if n < 10 then [DigitChar(n)] else Format(n / 10) + [DigitChar(n % 10)]
  }

  /** The number a string of decimal digits denotes, most significant digit first. */
  function DigitsValue(s: string): nat
    requires forall i :: 0 <= i < |s| ==> IsDigit(s[i])
  {
    if s == [] then 0
    else
      assert IsDigit(s[|s| - 1]);
      10 * DigitsValue(s[..|s| - 1]) + (s[|s| - 1] as int - '0' as int)
  }

  /** The digits `Format` writes denote `n`. */
  lemma {:induction false} FormatValue(n: nat)
    ensures DigitsValue(Format(n)) == n
    decreases n
  {
    var s := Format(n);
    if n >= 10 {
      assert s[..|s| - 1] == Format(n / 10);
      FormatValue(n / 10);
    } else {
      assert s[..0] == [];
    }
  }

  /** Distinct numbers are rendered as distinct strings. */
  lemma FormatInjective(a: nat, b: nat)
    requires Format(a) == Format(b)
    ensures a == b
  {
    FormatValue(a);
    FormatValue(b);
  }
}
