/** Lines of a UCM file: comments, white space, and numbers as strtoul reads them. */
module IcuText {
  predicate IsSpace(c: char) { c == ' ' || '\t' <= c <= '\r' }

  /** The text in front of the first comment sign. */
  function BeforeComment(s: string): (r: string)
    ensures r <= s && '#' !in r && (|r| < |s| ==> s[|r|] == '#')
  {
    if s == "" || s[0] == '#' then "" else [s[0]] + BeforeComment(s[1..])
  }

  function TrimRight(s: string): (r: string)
    ensures r <= s && (r != "" ==> !IsSpace(r[|r| - 1])) && forall i :: |r| <= i < |s| ==> IsSpace(s[i])
  {
    if s == "" || !IsSpace(s[|s| - 1]) then s else TrimRight(s[..|s| - 1])
  }

  /** A line without its comment and without white space at its end. */
  function Clean(s: string): string { TrimRight(BeforeComment(s)) }

  function SkipSpaces(s: string): (r: string)
    ensures |r| <= |s| && r == s[|s| - |r|..] && (r != "" ==> !IsSpace(r[0]))
  {
    if s == "" || !IsSpace(s[0]) then s else SkipSpaces(s[1..])
  }

  // -------------------------------------------------------------------------
  //  Numbers
  // -------------------------------------------------------------------------

  const ULONG_LIMIT := 0x1_0000_0000_0000_0000
  const UINT_LIMIT := 0x1_0000_0000

  /** The value of a digit or letter; 36 for other characters. */
  function DigitValue(c: char): nat {
    if '0' <= c <= '9' then (c - '0') as nat
    else if 'a' <= c <= 'z' then (c - 'a') as nat + 10
    else if 'A' <= c <= 'Z' then (c - 'A') as nat + 10
    else 36
  }

  datatype Base = Dec | Hex {
    function Size(): nat { if Hex? then 16 else 10 }

    /** A number with one more digit behind it, a zero. */
    function Shift(n: nat): nat { if Hex? then 16 * n else 10 * n }
  }

  predicate AllDigits(s: string, base: Base) {
    forall i :: 0 <= i < |s| ==> DigitValue(s[i]) < base.Size()
  }

  /** How many digits s starts with. */
  function DigitRun(s: string, base: Base): (n: nat)
    ensures n <= |s| && AllDigits(s[..n], base) && (n < |s| ==> DigitValue(s[n]) >= base.Size())
  {
    if s == "" || DigitValue(s[0]) >= base.Size() then 0 else 1 + DigitRun(s[1..], base)
  }

  function Numeral(s: string, base: Base): nat {
    if s == "" then 0 else base.Shift(Numeral(s[..|s| - 1], base)) + DigitValue(s[|s| - 1])
  }

  datatype Parsed = Parsed(value: nat, consumed: nat)

  /** What strtoul makes of a string, and how many of its characters it uses up; longs have 64 bits. */
  function Strtoul(s: string, base: Base): (r: Parsed)
    ensures r.consumed <= |s|
  {
    var signed := SkipSpaces(s);
    var negative := signed != "" && signed[0] == '-';
    var unsigned := if signed != "" && (signed[0] == '-' || signed[0] == '+') then signed[1..] else signed;
    var digits := if base == Hex && HexPrefix(unsigned) then unsigned[2..] else unsigned;
    var n := DigitRun(digits, base);
    if n == 0 then Parsed(0, 0)
    else
      var v := Numeral(digits[..n], base);
      Parsed(if v >= ULONG_LIMIT then ULONG_LIMIT - 1 else if negative then (ULONG_LIMIT - v) % ULONG_LIMIT else v,
             |s| - |digits| + n)
  }

  predicate HexPrefix(s: string) {
    |s| > 2 && s[0] == '0' && (s[1] == 'x' || s[1] == 'X') && DigitValue(s[2]) < 16
  }

  lemma HexDigitIsPlain(c: char)
    requires DigitValue(c) < 16
    ensures !IsSpace(c) && c != '-' && c != '+' && c != 'x' && c != 'X' && c != '#' && c != '\\'
  {
  }

  /** What a number becomes in 32 bits; one too large for 64 bits counts as the largest. */
  function Word32(v: nat): nat { if v < 0x1_0000_0000_0000_0000 then v % 0x1_0000_0000 else 0xFFFF_FFFF }

  /** Digits are read whole; a number that is too large counts as the largest. */
  lemma StrtoulDigits(s: string, base: Base)
    requires s != "" && AllDigits(s, base)
    ensures var r := Strtoul(s, base);
            && r == Parsed(if Numeral(s, base) >= ULONG_LIMIT then ULONG_LIMIT - 1 else Numeral(s, base), |s|)
            && r.value % UINT_LIMIT == Word32(Numeral(s, base))
  {
    hide DigitValue, IsSpace, Numeral;
    HexDigitIsPlain(s[0]);
    if base.Hex? {
      NoHexPrefix(s);
    }
    assert SkipSpaces(s) == s;
    var n := DigitRun(s, base);
    assert n == |s| && s[..n] == s;
  }

  /** Digits are read up to the first character that is none. */
  lemma StrtoulStops(digits: string, junk: string, base: Base)
    requires digits != "" && AllDigits(digits, base) && junk != "" && DigitValue(junk[0]) >= base.Size()
    requires base.Hex? ==> !HexPrefix(digits + junk)
    ensures Strtoul(digits + junk, base).consumed == |digits|
  {
    hide DigitValue, IsSpace, Numeral;
    var s := digits + junk;
    HexDigitIsPlain(digits[0]);
    assert s[0] == digits[0] && SkipSpaces(s) == s;
    var n := DigitRun(s, base);
    assert forall i :: 0 <= i < n ==> s[..n][i] == s[i];
    assert forall i :: 0 <= i < |digits| ==> s[i] == digits[i];
    assert s[|digits|] == junk[0];
    assert n == |digits|;
  }

  lemma NoHexPrefix(s: string)
    requires AllDigits(s, Hex)
    ensures !HexPrefix(s)
  {
    if |s| > 1 {
      HexDigitIsPlain(s[1]);
    }
  }

  function PowerOf16(n: nat): nat { if n == 0 then 1 else 16 * PowerOf16(n - 1) }

  lemma {:induction false} NumeralBound(s: string)
    requires AllDigits(s, Hex)
    ensures Numeral(s, Hex) < PowerOf16(|s|)
    decreases |s|
  {
    if s != "" {
      NumeralBound(s[..|s| - 1]);
    }
  }

  /** The n low hexadecimal digits of v. */
  function HexText(v: nat, n: nat): (r: string)
    ensures |r| == n && AllDigits(r, Hex)
  {
    if n == 0 then "" else HexText(v / 16, n - 1) + [HexDigit(v % 16)]
  }

  function HexDigit(d: nat): (c: char)
    requires d < 16
    ensures DigitValue(c) == d
  {
    if d < 10 then '0' + d as char else 'A' + (d - 10) as char
  }

  lemma {:induction false} HexReadsBack(v: nat, n: nat)
    requires v < PowerOf16(n)
    ensures Numeral(HexText(v, n), Hex) == v
    decreases n
  {
    if n > 0 {
      HexReadsBack(v / 16, n - 1);
      assert HexText(v, n)[..n - 1] == HexText(v / 16, n - 1);
    }
  }
}
