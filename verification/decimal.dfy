/** Java's decimal rendering of a `long` (what string concatenation with a
    `Long` produces) and a reader that recovers the number from that text.
    The reader exists to show that the rendering loses no information. */
module Decimal {
  import opened Wrappers

  predicate IsDigit(c: char) {
    '0' <= c <= '9'
  }

  predicate AllDigits(s: string) {
    forall i :: 0 <= i < |s| ==> IsDigit(s[i])
  }

  function DigitChar(d: nat): (c: char)
    requires d < 10
    ensures IsDigit(c)
  {
    "0123456789"[d]
  }

  function DigitValue(c: char): (d: nat)
    requires IsDigit(c)
    ensures d < 10
  {
    c as int - '0' as int
  }

  lemma DigitRoundTrip(d: nat)
    requires d < 10
    ensures DigitValue(DigitChar(d)) == d
  {
  }

  /** The decimal digits of `n`, most significant first, with no leading zero. */
  function NatText(n: nat): (s: string)
    ensures |s| >= 1 && AllDigits(s)
    ensures |s| > 1 ==> s[0] != '0'
    ensures n < 10 <==> |s| == 1
    decreases n
  {
    if n < 10 then [DigitChar(n)] else NatText(n / 10) + [DigitChar(n % 10)]
  }

  /** `Long.toString(n)`: a minus sign before the magnitude's digits when negative. */
  function LongText(n: int): (s: string)
    ensures |s| >= 1
    ensures n < 0 <==> s[0] == '-'
    ensures n >= 0 ==> AllDigits(s)
    ensures n < 0 ==> AllDigits(s[1..]) && |s| >= 2
  {
    if n < 0 then "-" + NatText(-n) else NatText(n)
  }

  /** Reads an unsigned decimal numeral; `None` when `s` is empty or holds a non-digit. */
  function ParseNat(s: string): (r: Option<nat>)
    ensures r.Some? <==> |s| >= 1 && AllDigits(s)
  {
    if |s| == 0 || !IsDigit(s[|s| - 1]) then None
    else if |s| == 1 then Some(DigitValue(s[0]))
    else
      match ParseNat(s[..|s| - 1])
      case None => None
      case Some(v) => Some(10 * v + DigitValue(s[|s| - 1]))
  }

  /** Reads an optionally negative decimal numeral. */
  function ParseLong(s: string): (r: Option<int>)
    ensures r.Some? && |s| >= 1 && s[0] == '-' ==> r.value <= 0
    ensures r.Some? && (|s| == 0 || s[0] != '-') ==> r.value >= 0
  {
    if |s| >= 1 && s[0] == '-' then
      match ParseNat(s[1..])
      case None => None
      case Some(v) => Some(-(v as int))
    else
      match ParseNat(s)
      case None => None
      case Some(v) => Some(v)
  }

  /** Reading the digits back gives the number that was written. */
  lemma {:induction false} ParseNatText(n: nat)
    ensures ParseNat(NatText(n)) == Some(n)
    decreases n
  {
    var s := NatText(n);
    if n < 10 {
      DigitRoundTrip(n);
    } else {
      assert s[..|s| - 1] == NatText(n / 10);
      ParseNatText(n / 10);
      DigitRoundTrip(n % 10);
    }
  }

  /** A text that is a minus sign before a numeral reads as its negation. */
  lemma ParseNegative(t: string, v: nat)
    requires ParseNat(t) == Some(v)
    ensures ParseLong("-" + t) == Some(-(v as int))
  {
    var s := "-" + t;
    assert s[0] == '-' && s[1..] == t;
  }

  /** A numeral that does not start with a minus sign reads as itself. */
  lemma ParseUnsigned(t: string, v: nat)
    requires ParseNat(t) == Some(v)
    ensures ParseLong(t) == Some(v as int)
  {
    assert IsDigit(t[0]);
  }

  /** Reading `Long.toString(n)` back gives `n`. */
  lemma ParseLongText(n: int)
    ensures ParseLong(LongText(n)) == Some(n)
  {
    if n < 0 {
      ParseNatText(-n);
      ParseNegative(NatText(-n), -n);
    } else {
      ParseNatText(n);
      ParseUnsigned(NatText(n), n);
    }
  }

  /** Distinct numbers are rendered as distinct texts. */
  lemma LongTextInjective(a: int, b: int)
    ensures LongText(a) == LongText(b) <==> a == b
  {
    if LongText(a) == LongText(b) {
      ParseLongText(a);
      ParseLongText(b);
    }
  }
}
