/** Decimal rendering of an unsigned integer, as `printf` does for `%u` and
    `%lu`, with the parser that reads it back. */
module Decimal {
  import opened Esp

  predicate IsDigit(c: char) {
    '0' <= c <= '9'
  }

  predicate AllDigits(s: string) {
    forall i :: 0 <= i < |s| ==> IsDigit(s[i])
  }

  function DigitChar(d: nat): (c: char)
    requires d < 10
    ensures IsDigit(c)
  {
    ['0', '1', '2', '3', '4', '5', '6', '7', '8', '9'][d]
  }

  function DigitValue(c: char): (d: nat)
    requires IsDigit(c)
    ensures d < 10
  {
    (c as int) - ('0' as int)
  }

  lemma DigitValueOfChar(d: nat)
    requires d < 10
    ensures DigitValue(DigitChar(d)) == d
  {
  }

  /** The digits of n, most significant first, without leading zeros. */
  function Render(n: nat): (s: string)
    ensures |s| >= 1 && AllDigits(s)
    ensures s[0] == '0' ==> n == 0
  {
    if n < 10 then [DigitChar(n)] else Render(n / 10) + [DigitChar(n % 10)]
  }

  /** The value of a non-empty digit string. */
  function Parse(s: string): nat
    requires |s| >= 1 && AllDigits(s)
  {
    if |s| == 1 then DigitValue(s[0])
    else 10 * Parse(s[..|s| - 1]) + DigitValue(s[|s| - 1])
  }

  /** Reading the rendering back gives the number: rendering is lossless. */
  lemma {:induction false} ParseRender(n: nat)
    ensures Parse(Render(n)) == n
  {
    if n < 10 {
      DigitValueOfChar(n);
    } else {
      var s := Render(n);
      assert s[..|s| - 1] == Render(n / 10);
      ParseRender(n / 10);
      DigitValueOfChar(n % 10);
    }
  }

  function Pow10(k: nat): (p: nat)
    ensures p >= 1
  {
    if k == 0 then 1 else 10 * Pow10(k - 1)
  }

  /** A number below 10^k has at most k digits. */
  lemma {:induction false} RenderLength(n: nat, k: nat)
    requires 1 <= k && n < Pow10(k)
    ensures |Render(n)| <= k
  {
    if n >= 10 {
      RenderLength(n / 10, k - 1);
    }
  }

  /** A 32-bit unsigned value has at most ten decimal digits. */
  lemma RenderUint32Length(n: Uint32)
    ensures |Render(n)| <= 10
  {
    assert Pow10(10) == 10000000000;
    RenderLength(n, 10);
  }

  /** The longest prefix of s made of digits. */
  function DigitRun(s: string): (r: string)
    ensures AllDigits(r) && r <= s
    ensures |r| < |s| ==> !IsDigit(s[|r|])
  {
    if |s| == 0 || !IsDigit(s[0]) then [] else [s[0]] + DigitRun(s[1..])
  }

  /** A digit string followed by a non-digit is read back whole. */
  lemma {:induction false} DigitRunOfDigits(d: string, t: string)
    requires AllDigits(d)
    requires |t| > 0 && !IsDigit(t[0])
    ensures DigitRun(d + t) == d
  {
    if |d| > 0 {
      assert (d + t)[1..] == d[1..] + t;
      DigitRunOfDigits(d[1..], t);
    }
  }
}
