/** Decimal text and integers, as the source gets them from `strconv`:
    `Itoa` renders numbers (src/value.go) and `Atoi` reads number literals
    (src/parser.go) and the argument of the `num` built-in (src/runtime.go).
    Numbers are Go `int`s, 64 bits wide: `Atoi` reports a range error past
    that width, and arithmetic wraps around (`Wrap64`). */
module Numerals {

  const MaxInt64: int := 0x7FFF_FFFF_FFFF_FFFF
  const MinInt64: int := -0x8000_0000_0000_0000

  /** Two's complement wrap-around of Go's 64-bit `int` arithmetic. */
  function Wrap64(x: int): (r: int)
    ensures MinInt64 <= r <= MaxInt64
    ensures MinInt64 <= x <= MaxInt64 ==> r == x
    ensures (r - x) % 0x1_0000_0000_0000_0000 == 0
  {
    (x - MinInt64) % 0x1_0000_0000_0000_0000 + MinInt64
  }

  predicate IsDigitChar(c: char)
  {
    '0' <= c <= '9'
  }

  predicate AllDigits(s: string)
  {
    forall i | 0 <= i < |s| :: IsDigitChar(s[i])
  }

  function DigitChar(d: nat): (c: char)
    requires d < 10
    ensures IsDigitChar(c)
  {
    ('0' as int + d) as char
  }

  function DigitValue(c: char): (d: nat)
    requires IsDigitChar(c)
    ensures d < 10 && DigitChar(d) == c
  {
    c as int - '0' as int
  }

  /** The value of a string of decimal digits. */
  function DigitsValue(s: string): nat
    requires AllDigits(s)
  {
    if |s| == 0 then 0 else DigitsValue(s[..|s| - 1]) * 10 + DigitValue(s[|s| - 1])
  }

  /** Decimal digits of a natural number, without leading zeros. */
  function NatToString(n: nat): (s: string)
    ensures |s| >= 1 && AllDigits(s)
    ensures s[0] == '0' ==> n == 0
    decreases n
  {
    if n < 10 then [DigitChar(n)] else NatToString(n / 10) + [DigitChar(n % 10)]
  }

  /** `strconv.Itoa`: a minus sign for negative numbers, then the digits. */
  function IntToString(n: int): string
  {
    if n < 0 then "-" + NatToString(-n) else NatToString(n)
  }

  /** What `strconv.Atoi` reports. */
  datatype AtoiResult = Parsed(n: int) | SyntaxError | RangeError

  /** `strconv.Atoi` on a 64-bit platform: an optional sign, then one or more
      decimal digits, within the range of int64. */
  function Atoi(s: string): (r: AtoiResult)
    ensures r.Parsed? ==> MinInt64 <= r.n <= MaxInt64
    ensures r.SyntaxError? <==> (
      var digits := if |s| > 0 && (s[0] == '+' || s[0] == '-') then s[1..] else s;
      |digits| == 0 || !AllDigits(digits))
  {
    var negative := |s| > 0 && s[0] == '-';
    var digits := if |s| > 0 && (s[0] == '+' || s[0] == '-') then s[1..] else s;
    if |digits| == 0 || !AllDigits(digits) then SyntaxError
    else
      var magnitude: int := DigitsValue(digits);
      var v := if negative then 0 - magnitude else magnitude;
      if v < MinInt64 || v > MaxInt64 then RangeError else Parsed(v)
  }

  /** The text of the error `strconv.Atoi` returns. */
  function AtoiMessage(s: string, r: AtoiResult): string
  {
    "strconv.Atoi: parsing \"" + s + "\": " + (if r.RangeError? then "value out of range" else "invalid syntax")
  }

  lemma {:induction false} DigitsValueOfNat(n: nat)
    ensures DigitsValue(NatToString(n)) == n
    decreases n
  {
    if n >= 10 {
      var s := NatToString(n);
      assert s[..|s| - 1] == NatToString(n / 10);
      DigitsValueOfNat(n / 10);
    }
  }

  /** Reading back a rendered number gives the number: `Atoi` inverts `Itoa`
      on the whole int64 range. */
  lemma AtoiOfIntToString(n: int)
    requires MinInt64 <= n <= MaxInt64
    ensures Atoi(IntToString(n)) == Parsed(n)
  {
    var s := IntToString(n);
    if n < 0 {
      assert s[1..] == NatToString(-n);
      DigitsValueOfNat(-n);
    } else {
      DigitsValueOfNat(n);
    }
  }
}
