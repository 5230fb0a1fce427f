/** Decimal text of the numbers the writer prints, as XMLString::binToText with radix 10 gives it. */
module Numerals {

  predicate IsDigit(c: char) { '0' <= c <= '9' }

  function DigitChar(d: nat): (c: char)
    requires d < 10
    ensures IsDigit(c)
  {
    '0' + d as char
  }

  function Decimal(n: nat): (s: string)
    ensures s != "" && forall k :: 0 <= k < |s| ==> IsDigit(s[k])
  {
    if n < 10 then [DigitChar(n)] else Decimal(n / 10) + [DigitChar(n % 10)]
  }

  /** The number a string of digits denotes. */
  function Number(s: string): nat
    requires forall k :: 0 <= k < |s| ==> IsDigit(s[k])
  {
    if s == "" then 0
    else
      assert IsDigit(s[|s| - 1]);
      Number(s[..|s| - 1]) * 10 + (s[|s| - 1] as int - '0' as int)
  }

  lemma {:induction false} NumberOfDecimal(n: nat)
    ensures Number(Decimal(n)) == n
  {
    if n >= 10 {
      NumberOfDecimal(n / 10);
      assert Decimal(n)[..|Decimal(n)| - 1] == Decimal(n / 10);
    } else {
      assert Decimal(n)[..0] == "";
    }
  }

  /** The digits a string ends with. */
  function DigitTail(s: string): (r: string)
    ensures forall k :: 0 <= k < |r| ==> IsDigit(r[k])
  {
    if s == "" || !IsDigit(s[|s| - 1]) then "" else DigitTail(s[..|s| - 1]) + [s[|s| - 1]]
  }

  /** A number put after text that does not end in a digit can be read off again. */
  lemma {:induction false} TailIsNumeral(stem: string, digits: string)
    requires stem == "" || !IsDigit(stem[|stem| - 1])
    requires forall k :: 0 <= k < |digits| ==> IsDigit(digits[k])
    ensures DigitTail(stem + digits) == digits
    decreases |digits|
  {
    var s := stem + digits;
    if digits == "" {
      assert s == stem;
    } else {
      TailIsNumeral(stem, digits[..|digits| - 1]);
      assert s[..|s| - 1] == stem + digits[..|digits| - 1];
    }
  }
}
