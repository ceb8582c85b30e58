/**
 Numeric conversions the players rely on: Swift's `Int.description` (decimal
 rendering of an integer) together with a parser that inverts it, and the
 `Int(_:)` initialiser on a floating-point value, which truncates toward zero.
 */
module Conversions {
  import opened Wrappers

  /** Swift's `Int` on 64-bit platforms. */
  type Int64 = x: int | -0x8000_0000_0000_0000 <= x < 0x8000_0000_0000_0000

  predicate IsDigit(c: char) {
    '0' <= c <= '9'
  }

  predicate AllDigits(s: string) {
    forall i :: 0 <= i < |s| ==> IsDigit(s[i])
  }

  function DigitChar(d: nat): (c: char)
    requires d < 10
    ensures IsDigit(c)
  {
    ('0' as int + d) as char
  }

  function DigitValue(c: char): (d: nat)
    requires IsDigit(c)
    ensures d < 10
    ensures DigitChar(d) == c
  {
    c as int - '0' as int
  }

  /** Decimal digits of `n`, most significant first. */
  function NatDigits(n: nat): (s: string)
    ensures 1 <= |s|
    ensures AllDigits(s)
    ensures n > 0 ==> s[0] != '0'
    decreases n
  {
    if n < 10 then [DigitChar(n)] else NatDigits(n / 10) + [DigitChar(n % 10)]
  }

  /** `Int.description`: a minus sign for negative values, then the digits of the magnitude. */
  function Description(i: int): (s: string)
    ensures 1 <= |s|
    ensures s[0] == '-' <==> i < 0
    ensures s[0] == '-' || IsDigit(s[0])
    ensures var digits := if i < 0 then s[1..] else s;
              && 1 <= |digits| && AllDigits(digits)
              && (digits[0] == '0' ==> |digits| == 1)
  {
    if i < 0 then "-" + NatDigits(-i) else NatDigits(i)
  }

  /** Value of a string of decimal digits (the empty string reads as 0). */
  function ParseDigits(s: string): nat
    requires AllDigits(s)
    decreases |s|
  {
    if |s| == 0 then 0 else ParseDigits(s[..|s| - 1]) * 10 + DigitValue(s[|s| - 1])
  }

  /** Reads back a string produced by `Description`; anything else that is not a number is rejected. */
  function Parse(s: string): Option<int> {
    if 2 <= |s| && s[0] == '-' && AllDigits(s[1..]) then Some(-(ParseDigits(s[1..]) as int))
    else if 1 <= |s| && AllDigits(s) then Some(ParseDigits(s))
    else None
  }

  lemma {:induction false} ParseNatDigits(n: nat)
    ensures ParseDigits(NatDigits(n)) == n
    decreases n
  {
    var s := NatDigits(n);
    if n < 10 {
      assert s[..|s| - 1] == [];
    } else {
      assert s[..|s| - 1] == NatDigits(n / 10);
      ParseNatDigits(n / 10);
    }
  }

  /** Rendering an integer and parsing it back gives the integer again. */
  lemma DescriptionRoundTrip(i: int)
    ensures Parse(Description(i)) == Some(i)
  {
    var s := Description(i);
    if i < 0 {
      assert s[1..] == NatDigits(-i);
      ParseNatDigits(-i);
    } else {
      ParseNatDigits(i);
    }
  }

  /** Distinct integers have distinct renderings. */
  lemma DescriptionInjective(a: int, b: int)
    ensures Description(a) == Description(b) ==> a == b
  {
    DescriptionRoundTrip(a);
    DescriptionRoundTrip(b);
  }

  /** `Int(x)` for a finite `Double`: the integer part, truncating toward zero. */
  function Truncate(x: real): (n: int)
    ensures 0.0 <= x ==> 0 <= n && n as real <= x < n as real + 1.0
    ensures x < 0.0 ==> n <= 0 && n as real - 1.0 < x <= n as real
  {
    if 0.0 <= x then x.Floor else -((-x).Floor)
  }
}
