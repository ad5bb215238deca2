/**
 * Exact decimal arithmetic standing in for Python floats: `float(text)` on a
 * restricted decimal grammar and `round(x, n)`.
 */
module Numbers {
  import opened Wrappers
  import opened Text

  /** `x * 10^n`, one factor of ten at a time (linear steps only). */
  function Scale(x: real, n: nat): real
  {
    if n == 0 then x else Scale(x, n - 1) * 10.0
  }

  /** `x / 10^n`, one factor of ten at a time. */
  function Unscale(x: real, n: nat): real
  {
    if n == 0 then x else Unscale(x, n - 1) / 10.0
  }

  lemma {:induction false} ScaleTenth(x: real, n: nat)
    ensures Scale(x / 10.0, n) == Scale(x, n) / 10.0
  {
    if n > 0 {
      ScaleTenth(x, n - 1);
    }
  }

  lemma {:induction false} UnscaleTen(x: real, n: nat)
    ensures Unscale(x * 10.0, n) == Unscale(x, n) * 10.0
  {
    if n > 0 {
      UnscaleTen(x, n - 1);
    }
  }

  lemma {:induction false} ScaleUnscale(x: real, n: nat)
    ensures Scale(Unscale(x, n), n) == x
  {
    if n > 0 {
      ScaleTenth(Unscale(x, n - 1), n - 1);
      ScaleUnscale(x, n - 1);
    }
  }

  lemma {:induction false} UnscaleScale(x: real, n: nat)
    ensures Unscale(Scale(x, n), n) == x
  {
    if n > 0 {
      UnscaleTen(Scale(x, n - 1), n - 1);
      UnscaleScale(x, n - 1);
    }
  }

  lemma {:induction false} ScaleSub(a: real, b: real, n: nat)
    ensures Scale(a - b, n) == Scale(a, n) - Scale(b, n)
  {
    if n > 0 {
      ScaleSub(a, b, n - 1);
    }
  }

  lemma {:induction false} ScaleSign(x: real, n: nat)
    ensures x >= 0.0 ==> Scale(x, n) >= 0.0
    ensures x >= 0.0 ==> Unscale(x, n) >= 0.0
  {
    if n > 0 {
      ScaleSign(x, n - 1);
    }
  }

  /**
   * The integer nearest to `y`; a tie goes to the even neighbour,
   * as Python's `round` does.
   */
  function RoundHalfEven(y: real): (k: int)
    ensures y - 0.5 <= k as real <= y + 0.5
    ensures y - 0.5 == k as real || k as real == y + 0.5 ==> k % 2 == 0
  {
    var f := y.Floor;
    var d := y - f as real;
    if d < 0.5 then f
    else if d > 0.5 then f + 1
    else if f % 2 == 0 then f
    else f + 1
  }

  /** `round(x, n)`: `x` rounded to `n` decimal places. */
  function Round(x: real, n: nat): real
  {
    Unscale(RoundHalfEven(Scale(x, n)) as real, n)
  }

  /** `round` lands on a multiple of 10^-n within half a unit of its argument. */
  lemma RoundIsNearest(x: real, n: nat)
    ensures Scale(Round(x, n), n) == RoundHalfEven(Scale(x, n)) as real
    ensures -0.5 <= Scale(Round(x, n) - x, n) <= 0.5
  {
    ScaleUnscale(RoundHalfEven(Scale(x, n)) as real, n);
    ScaleSub(Round(x, n), x, n);
  }

  /** A value that already has at most `n` decimals is left as it is. */
  lemma RoundExact(x: real, n: nat, k: int)
    requires Scale(x, n) == k as real
    ensures Round(x, n) == x
  {
    assert RoundHalfEven(Scale(x, n)) == k;
    UnscaleScale(x, n);
  }

  lemma RoundNonNegative(x: real, n: nat)
    requires x >= 0.0
    ensures Round(x, n) >= 0.0
  {
    ScaleSign(x, n);
    ScaleSign(RoundHalfEven(Scale(x, n)) as real, n);
  }

  predicate IsDigit(c: char)
  {
    '0' <= c <= '9'
  }

  predicate AllDigits(s: string)
  {
    forall i :: 0 <= i < |s| ==> IsDigit(s[i])
  }

  /** The value of a string of decimal digits. */
  function DigitsValue(s: string): (v: nat)
    requires AllDigits(s)
  {
    if s == [] then 0 else 10 * DigitsValue(s[..|s| - 1]) + (s[|s| - 1] as int - '0' as int)
  }

  lemma DigitsValueSnoc(s: string, c: char)
    requires AllDigits(s) && IsDigit(c)
    ensures AllDigits(s + [c])
    ensures DigitsValue(s + [c]) == 10 * DigitsValue(s) + (c as int - '0' as int)
  {
    assert (s + [c])[..|s|] == s;
  }

  /**
   * An unsigned decimal: digits with at most one '.', and at least one digit
   * on either side of it ("5", "5.", ".5", "5.25").
   */
  function ParseUnsigned(t: string): (r: Option<real>)
    ensures r.Some? ==> r.value >= 0.0
  {
    match IndexOf(t, '.')
    case None =>
      if t != [] && AllDigits(t) then Some(DigitsValue(t) as real) else None
    case Some(i) =>
      var whole, frac := t[..i], t[i + 1..];
      if |whole| + |frac| > 0 && AllDigits(whole) && AllDigits(frac) then
        assert AllDigits(whole + frac);
        ScaleSign(DigitsValue(whole + frac) as real, |frac|);
        Some(Unscale(DigitsValue(whole + frac) as real, |frac|))
      else None
  }

  /** Only digits and points. */
  predicate DecimalChars(t: string)
  {
    forall i :: 0 <= i < |t| ==> IsDigit(t[i]) || t[i] == '.'
  }

  /** No two points. */
  predicate AtMostOneDot(t: string)
  {
    forall i, j :: 0 <= i < j < |t| && t[i] == '.' ==> t[j] != '.'
  }

  /**
   * The grammar and the value of an unsigned decimal: it is accepted exactly
   * when it is made of digits and at most one point, with at least one digit.
   * Without a point its value is its digits; with its (only) point at `i` it
   * is the digits on both sides, read together, scaled down by the number of
   * digits after the point.
   */
  lemma ParseUnsignedGrammar(t: string)
    ensures ParseUnsigned(t).Some? <==>
      DecimalChars(t) && AtMostOneDot(t) && exists k :: 0 <= k < |t| && IsDigit(t[k])
    ensures '.' !in t && ParseUnsigned(t).Some? ==>
      AllDigits(t) && ParseUnsigned(t).value == DigitsValue(t) as real
    ensures IndexOf(t, '.').Some? && ParseUnsigned(t).Some? ==>
      var i := IndexOf(t, '.').value;
      && AllDigits(t[..i] + t[i + 1..])
      && ParseUnsigned(t).value == Unscale(DigitsValue(t[..i] + t[i + 1..]) as real, |t| - i - 1)
  {
    match IndexOf(t, '.')
    case None =>
      NoPointGrammar(t);
    case Some(i) =>
      PointGrammar(t, i);
  }

  /** `ParseUnsignedGrammar` when there is no point. */
  lemma NoPointGrammar(t: string)
    requires '.' !in t
    ensures ParseUnsigned(t).Some? <==>
      DecimalChars(t) && AtMostOneDot(t) && exists k :: 0 <= k < |t| && IsDigit(t[k])
    ensures ParseUnsigned(t).Some? ==> AllDigits(t) && ParseUnsigned(t).value == DigitsValue(t) as real
  {
    if DecimalChars(t) {
      assert AllDigits(t);
    }
    if ParseUnsigned(t).Some? {
      assert IsDigit(t[0]);
    }
  }

  /** `ParseUnsignedGrammar` when the first point is at `i`. */
  lemma PointGrammar(t: string, i: nat)
    requires IndexOf(t, '.') == Some(i)
    ensures ParseUnsigned(t).Some? <==>
      DecimalChars(t) && AtMostOneDot(t) && exists k :: 0 <= k < |t| && IsDigit(t[k])
    ensures ParseUnsigned(t).Some? ==>
      && AllDigits(t[..i] + t[i + 1..])
      && ParseUnsigned(t).value == Unscale(DigitsValue(t[..i] + t[i + 1..]) as real, |t| - i - 1)
  {
    if ParseUnsigned(t).Some? {
      PointAccepted(t, i);
    }
    if DecimalChars(t) && AtMostOneDot(t) && exists k :: 0 <= k < |t| && IsDigit(t[k]) {
      PointGrammarAccepted(t, i);
    }
  }

  /** What accepting a decimal with its point at `i` means. */
  lemma PointParts(t: string, i: nat)
    requires IndexOf(t, '.') == Some(i) && ParseUnsigned(t).Some?
    ensures AllDigits(t[..i]) && AllDigits(t[i + 1..]) && |t| >= 2
    ensures AllDigits(t[..i] + t[i + 1..])
    ensures ParseUnsigned(t).value == Unscale(DigitsValue(t[..i] + t[i + 1..]) as real, |t| - i - 1)
  {
  }

  /** An accepted decimal with its point at `i` has digits everywhere else. */
  lemma PointAccepted(t: string, i: nat)
    requires IndexOf(t, '.') == Some(i) && ParseUnsigned(t).Some?
    ensures forall k :: 0 <= k < |t| && k != i ==> IsDigit(t[k])
    ensures DecimalChars(t) && AtMostOneDot(t) && exists k :: 0 <= k < |t| && IsDigit(t[k])
    ensures AllDigits(t[..i] + t[i + 1..])
    ensures ParseUnsigned(t).value == Unscale(DigitsValue(t[..i] + t[i + 1..]) as real, |t| - i - 1)
  {
    PointParts(t, i);
    var whole, frac := t[..i], t[i + 1..];
    forall k | 0 <= k < |t| && k != i
      ensures IsDigit(t[k])
    {
      if k < i {
        assert t[k] == whole[k];
      } else {
        assert t[k] == frac[k - i - 1];
      }
    }
    var k := if i > 0 then 0 else 1;
    assert IsDigit(t[k]);
  }

  /** A string of the grammar with its first point at `i` is accepted. */
  lemma PointGrammarAccepted(t: string, i: nat)
    requires IndexOf(t, '.') == Some(i)
    requires DecimalChars(t) && AtMostOneDot(t) && exists k :: 0 <= k < |t| && IsDigit(t[k])
    ensures ParseUnsigned(t).Some?
  {
    var whole, frac := t[..i], t[i + 1..];
    forall k | 0 <= k < |whole|
      ensures IsDigit(whole[k])
    {
      assert whole[k] in whole;
    }
    forall k | 0 <= k < |frac|
      ensures IsDigit(frac[k])
    {
      assert t[i + 1 + k] == frac[k];
    }
    var k :| 0 <= k < |t| && IsDigit(t[k]);
    assert k != i;
    assert |whole| + |frac| > 0;
  }

  /**
   * `float(s)` on the decimal grammar: surrounding whitespace, an optional
   * sign, then an unsigned decimal.
   */
  function ParseNumber(s: string): Option<real>
  {
    var t := Strip(s);
    if |t| > 0 && (t[0] == '+' || t[0] == '-') then
      match ParseUnsigned(t[1..])
      case None => None
      case Some(v) => Some(if t[0] == '-' then -v else v)
    else ParseUnsigned(t)
  }

  /**
   * `float()` on an unsigned decimal `u` and on `u` with a sign in front: no
   * sign and '+' give its value, '-' gives its negation.
   */
  lemma ParseNumberSigned(u: string)
    requires ParseUnsigned(u).Some?
    ensures ParseNumber(u) == ParseUnsigned(u)
    ensures ParseNumber("-" + u) == Some(-ParseUnsigned(u).value)
    ensures ParseNumber("+" + u) == Some(ParseUnsigned(u).value)
  {
    UnsignedValue(u);
    NegativeValue(u);
    PositiveValue(u);
  }

  /** No sign: `float(u)` is the unsigned value. */
  lemma UnsignedValue(u: string)
    requires ParseUnsigned(u).Some?
    ensures ParseNumber(u) == ParseUnsigned(u)
  {
    UnsignedEnds(u);
    StripUnchanged(u);
  }

  /** A minus sign negates the value. */
  lemma NegativeValue(u: string)
    requires ParseUnsigned(u).Some?
    ensures ParseNumber("-" + u) == Some(-ParseUnsigned(u).value)
  {
    UnsignedEnds(u);
    StripUnchanged("-" + u);
    assert ("-" + u)[1..] == u;
  }

  /** A plus sign keeps the value. */
  lemma PositiveValue(u: string)
    requires ParseUnsigned(u).Some?
    ensures ParseNumber("+" + u) == Some(ParseUnsigned(u).value)
  {
    UnsignedEnds(u);
    StripUnchanged("+" + u);
    assert ("+" + u)[1..] == u;
  }

  /** An accepted unsigned decimal begins and ends with a digit or a point. */
  lemma UnsignedEnds(u: string)
    requires ParseUnsigned(u).Some?
    ensures |u| > 0
    ensures IsDigit(u[0]) || u[0] == '.'
    ensures IsDigit(u[|u| - 1]) || u[|u| - 1] == '.'
  {
    ParseUnsignedGrammar(u);
    var k :| 0 <= k < |u| && IsDigit(u[k]);
  }

  /** Surrounding whitespace does not change what `float()` gives. */
  lemma ParseNumberStrip(s: string)
    ensures ParseNumber(s) == ParseNumber(Strip(s))
  {
    StripIdempotent(s);
  }

  /** A number written with a minus sign never parses to a positive value. */
  lemma ParseSign(s: string)
    requires ParseNumber(s).Some?
    ensures var t := Strip(s); |t| > 0 && t[0] == '-' ==> ParseNumber(s).value <= 0.0
    ensures var t := Strip(s); !(|t| > 0 && t[0] == '-') ==> ParseNumber(s).value >= 0.0
  {
  }
}
