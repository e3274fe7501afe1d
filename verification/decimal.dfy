/**
 * Decimal numerals: the subset of Python's `float(str)` grammar that plain
 * decimal distances use, a digit printer that is its inverse, and
 * `round(x, 2)` taken on exact reals.
 */
module Decimal {
  import opened Wrappers

  predicate IsDigit(c: char)
  {
    '0' <= c <= '9'
  }

  predicate AllDigits(s: string)
  {
    forall i :: 0 <= i < |s| ==> IsDigit(s[i])
  }

  function DigitValue(c: char): nat
    requires IsDigit(c)
  {
    c as int - '0' as int
  }

  function DigitChar(d: nat): (c: char)
    requires d < 10
    ensures IsDigit(c) && DigitValue(c) == d
  {
    ('0' as int + d) as char
  }

  /** The value of a run of decimal digits, most significant first. */
  function DigitsValue(s: string): nat
    requires AllDigits(s)
    decreases |s|
  {
    if |s| == 0 then 0 else 10 * DigitsValue(s[..|s| - 1]) + DigitValue(s[|s| - 1])
  }

  function Pow10(n: nat): (p: nat)
    ensures p >= 1
  {
    if n == 0 then 1 else 10 * Pow10(n - 1)
  }

  /** The position of the first '.' in `s`, or `|s|` when it has none. */
  function PointIndex(s: string): (k: nat)
    ensures k <= |s|
    ensures forall i :: 0 <= i < k ==> s[i] != '.'
    ensures k < |s| ==> s[k] == '.'
  {
    if |s| == 0 || s[0] == '.' then 0 else 1 + PointIndex(s[1..])
  }

  /**
   * An unsigned numeral `digits`, `digits.`, `digits.digits` or `.digits`;
   * None when `s` is anything else (what Python reports as ValueError).
   */
  function ParseUnsigned(s: string): (v: Option<real>)
    ensures v.Some? ==> v.value >= 0.0
  {
    var k := PointIndex(s);
    var whole := s[..k];
    var frac := if k < |s| then s[k + 1..] else "";
    if AllDigits(whole) && AllDigits(frac) && |whole| + |frac| > 0 then
      Some(DigitsValue(whole) as real + DigitsValue(frac) as real / Pow10(|frac|) as real)
    else
      None
  }

  /** `float(s)` for a token without whitespace, limited to plain decimals. */
  function ParseFloat(s: string): (v: Option<real>)
    ensures v.Some? ==> |s| > 0
    ensures v.Some? && v.value < 0.0 ==> s[0] == '-'
    ensures |s| > 0 && s[0] == '-' ==> (v.Some? <==> ParseUnsigned(s[1..]).Some?)
    ensures |s| > 0 && s[0] == '-' && v.Some? ==> v.value == -ParseUnsigned(s[1..]).value
  {
    if |s| > 0 && (s[0] == '+' || s[0] == '-') then
      match ParseUnsigned(s[1..])
      case Some(v) => if s[0] == '-' then Some(-v) else Some(v)
      case None => None
    else
      ParseUnsigned(s)
  }

  /** The shortest decimal digits of `n`. */
  function NatDigits(n: nat): (s: string)
    ensures |s| > 0 && AllDigits(s)
  {
    if n < 10 then [DigitChar(n)] else NatDigits(n / 10) + [DigitChar(n % 10)]
  }

  lemma {:induction false} NatDigitsValue(n: nat)
    ensures DigitsValue(NatDigits(n)) == n
  {
    var s := NatDigits(n);
    if n >= 10 {
      NatDigitsValue(n / 10);
      assert s[..|s| - 1] == NatDigits(n / 10);
    }
  }

  /** `c` cents written as a decimal with exactly two fraction digits: 630 is "6.30". */
  function FormatCents(c: nat): string
  {
    NatDigits(c / 100) + "." + [DigitChar(c % 100 / 10), DigitChar(c % 10)]
  }

  lemma PointIndexAfterDigits(d: string, rest: string)
    requires AllDigits(d)
    requires |rest| > 0 && rest[0] == '.'
    ensures PointIndex(d + rest) == |d|
  {
    var s := d + rest;
    assert s[|d|] == '.';
    assert forall i :: 0 <= i < |d| ==> s[i] == d[i];
  }

  /** Parsing what `FormatCents` prints gives back the amount. */
  lemma ParseFormatCents(c: nat)
    ensures ParseFloat(FormatCents(c)) == Some(c as real / 100.0)
  {
    var whole := NatDigits(c / 100);
    var frac := [DigitChar(c % 100 / 10), DigitChar(c % 10)];
    var s := FormatCents(c);
    assert s == whole + ("." + frac);
    PointIndexAfterDigits(whole, "." + frac);
    assert s[..|whole|] == whole;
    assert s[|whole| + 1..] == frac;
    NatDigitsValue(c / 100);
    assert frac[..1] == [DigitChar(c % 100 / 10)];
    assert frac[..1][..0] == [];
    assert DigitsValue(frac[..1]) == c % 100 / 10;
    assert DigitsValue(frac) == c % 100;
    assert s[0] != '+' && s[0] != '-' by {
      assert s[0] == whole[0];
      assert IsDigit(whole[0]);
    }
    assert Pow10(|frac|) == 100;
    assert (c / 100) as real + (c % 100) as real / 100.0 == c as real / 100.0;
    assert ParseUnsigned(s) == Some(c as real / 100.0);
  }

  /** A leading minus negates the amount. */
  lemma ParseNegativeCents(c: nat)
    ensures ParseFloat("-" + FormatCents(c)) == Some(-(c as real / 100.0))
  {
    var s := "-" + FormatCents(c);
    assert s[1..] == FormatCents(c);
    ParseFormatCents(c);
    assert s[0] == '-';
    var f := FormatCents(c);
    assert f[0] != '+' && f[0] != '-' by {
      assert f[0] == NatDigits(c / 100)[0];
      assert IsDigit(NatDigits(c / 100)[0]);
    }
  }

  /**
   * `round(x, 2)` on the exact value of `x`, as a whole number of cents:
   * the nearest cent, ties going to the even cent.
   */
  function RoundCents(x: real): (c: int)
    ensures -0.5 <= c as real - x * 100.0 <= 0.5
    ensures c as real - x * 100.0 == 0.5 || c as real - x * 100.0 == -0.5 ==> c % 2 == 0
  {
    var scaled := x * 100.0;
    var f := scaled.Floor;
    var rem := scaled - f as real;
    if rem < 0.5 then f
    else if rem > 0.5 then f + 1
    else if f % 2 == 0 then f
    else f + 1
  }

  /** Rounding to cents never reverses an order. */
  lemma RoundCentsMonotone(x: real, y: real)
    requires x <= y
    ensures RoundCents(x) <= RoundCents(y)
  {
  }

  /** An amount that is already a whole number of cents is left as it is. */
  lemma RoundCentsExact(c: int)
    ensures RoundCents(c as real / 100.0) == c
  {
    assert (c as real / 100.0) * 100.0 == c as real;
  }
}
