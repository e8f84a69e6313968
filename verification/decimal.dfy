/** Invariant-culture decimal text of integers, as string interpolation writes
    them, and the parser that reads them back. */
module Decimal {
  import opened Optional

  predicate IsDigit(c: char)
  {
    '0' <= c <= '9'
  }

  predicate AllDigits(s: string)
  {
    forall i :: 0 <= i < |s| ==> IsDigit(s[i])
  }

  function DigitChar(d: nat): (c: char)
    requires d < 10
    ensures IsDigit(c)
  {
    ('0' as int + d) as char
  }

  function DigitValue(c: char): (d: nat)
    requires IsDigit(c)
    ensures d < 10
  {
    c as int - '0' as int
  }

  /** Digits of a natural number, most significant first, without leading zeros. */
  function FormatNat(n: nat): (s: string)
    ensures 1 <= |s| && AllDigits(s)
    ensures |s| > 1 ==> s[0] != '0'
  {
    if n < 10 then [DigitChar(n)] else FormatNat(n / 10) + [DigitChar(n % 10)]
  }

  /** `n.ToString()`: a minus sign before the digits of a negative number. */
  function Format(n: int): (s: string)
    ensures 1 <= |s|
    ensures n >= 0 <==> AllDigits(s)
    ensures n < 0 <==> s[0] == '-'
  {
    if n < 0 then
      var s := "-" + FormatNat(-n);
      assert !IsDigit(s[0]);
      s
    else FormatNat(n)
  }

  function ParseNat(s: string): nat
    requires AllDigits(s)
  {
    if |s| == 0 then 0 else ParseNat(s[..|s| - 1]) * 10 + DigitValue(s[|s| - 1])
  }

  /** Reads an optionally negative decimal number; None for anything else. */
  function Parse(s: string): (r: Option<int>)
    ensures |s| == 0 ==> r.None?
    ensures r.Some? && r.value < 0 ==> s[0] == '-'
  {
    if |s| > 1 && s[0] == '-' && AllDigits(s[1..]) then Some(0 - ParseNat(s[1..]) as int)
    else if |s| > 0 && AllDigits(s) then Some(ParseNat(s))
    else None
  }

  lemma {:induction false} ParseFormatNat(n: nat)
    ensures ParseNat(FormatNat(n)) == n
  {
    if n >= 10 {
      var s := FormatNat(n);
      assert s[..|s| - 1] == FormatNat(n / 10);
      ParseFormatNat(n / 10);
    }
  }

  /** Formatting loses nothing: the text reads back as the same number. */
  lemma ParseFormat(n: int)
    ensures Parse(Format(n)) == Some(n)
  {
    var s := Format(n);
    if n < 0 {
      var digits := FormatNat(-n);
      assert s == "-" + digits;
      assert s[1..] == digits;
      ParseFormatNat(-n);
      assert Parse(s) == Some(0 - ParseNat(digits) as int);
    } else {
      assert IsDigit(s[0]);
      ParseFormatNat(n);
    }
  }
}
