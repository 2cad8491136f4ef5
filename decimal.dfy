/** Decimal text for Swift's 64-bit `Int`: the parse done by `Int(_: String)`
    (used on the minimum lengths of the pattern table) and the rendering done
    by `String(_: Int)` (used on the test fixtures). */
module Decimal {
  import opened Wrappers

  const Int64Min: int := -0x8000_0000_0000_0000
  const Int64Max: int := 0x7FFF_FFFF_FFFF_FFFF

  /** Swift's `Int` on a 64-bit platform. */
  type Int64 = x: int | Int64Min <= x <= Int64Max

  predicate IsDigit(c: char) {
    '0' <= c <= '9'
  }

  predicate AllDigits(s: string) {
    forall i :: 0 <= i < |s| ==> IsDigit(s[i])
  }

  function DigitValue(c: char): nat
    requires IsDigit(c)
  {
    c as int - '0' as int
  }

  function DigitChar(d: nat): (c: char)
    requires d < 10
    ensures IsDigit(c) && DigitValue(c) == d
  {
    ('0' as int + d) as char
  }

  /** The value of a run of decimal digits, most significant digit first. */
  function DigitsValue(s: string): nat
    requires AllDigits(s)
  {
    if s == [] then 0 else 10 * DigitsValue(s[..|s| - 1]) + DigitValue(s[|s| - 1])
  }

  /** `Int(s)`: an optional `+` or `-` followed by at least one digit, and a
      value that fits in 64 bits; anything else gives `nil`. */
  function ParseInt(s: string): Option<Int64>
  {
    var negative := |s| > 0 && s[0] == '-';
    var digits := if |s| > 0 && (s[0] == '+' || s[0] == '-') then s[1..] else s;
    if |digits| == 0 || !AllDigits(digits) then None
    else
      var magnitude: int := DigitsValue(digits);
      var v := if negative then -magnitude else magnitude;
      if Int64Min <= v <= Int64Max then Some(v) else None
  }

  /** The shortest decimal digits of `n`: no leading zero except for `0` itself. */
  function NatDigits(n: nat): (s: string)
    ensures |s| > 0 && AllDigits(s)
    ensures s[0] == '0' ==> n == 0
  {
    if n < 10 then [DigitChar(n)] else NatDigits(n / 10) + [DigitChar(n % 10)]
  }

  /** `String(n)`: a minus sign for negative numbers, then the digits. */
  function DecimalString(n: int): (s: string)
    ensures |s| > 0
  {
    if n < 0 then "-" + NatDigits(-n) else NatDigits(n)
  }

  lemma {:induction false} NatDigitsValue(n: nat)
    ensures DigitsValue(NatDigits(n)) == n
  {
    if n >= 10 {
      var s := NatDigits(n);
      assert s[..|s| - 1] == NatDigits(n / 10);
      NatDigitsValue(n / 10);
    }
  }

  /** Parsing the rendering of an `Int` gives that `Int` back. */
  lemma ParseDecimalString(n: Int64)
    ensures ParseInt(DecimalString(n)) == Some(n)
  {
    var s := DecimalString(n);
    var m: int := n;
    if m < 0 {
      assert s[0] == '-' && s[1..] == NatDigits(-m);
      NatDigitsValue(-m);
    } else {
      assert IsDigit(s[0]);
      NatDigitsValue(n);
    }
  }

  /** The round trip for every `Int` at once. */
  lemma ParseDecimalStrings()
    ensures forall n: Int64 :: ParseInt(DecimalString(n)) == Some(n)
  {
    forall n: Int64 ensures ParseInt(DecimalString(n)) == Some(n) {
      ParseDecimalString(n);
    }
  }

  /** Distinct numbers render to distinct strings. */
  lemma DecimalStringInjective(a: Int64, b: Int64)
    ensures DecimalString(a) == DecimalString(b) ==> a == b
  {
    ParseDecimalString(a);
    ParseDecimalString(b);
  }
}
