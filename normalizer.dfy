/**
 * `normalizar_valor`: turns one spreadsheet cell holding a percentage in any
 * of the export formats ("95,50 %", "0,9550", 95.5, 0.955) into a fraction.
 */
module Normalizer {
  import opened Wrappers
  import opened Text
  import opened Numbers
  import opened Sheets

  /** Removes every space and every '%', then turns ',' into '.'. */
  function Clean(s: string): (r: string)
    ensures forall i :: 0 <= i < |r| ==> r[i] != ' ' && r[i] != '%' && r[i] != ','
    ensures |r| <= |s|
  {
    WithoutRemoves(s, ' ');
    WithoutRemoves(Without(s, ' '), '%');
    ReplaceChar(Without(Without(s, ' '), '%'), ',', '.')
  }

  /** Cleaning works character by character: it distributes over concatenation. */
  lemma CleanConcat(a: string, b: string)
    ensures Clean(a + b) == Clean(a) + Clean(b)
  {
    WithoutConcat(a, b, ' ');
    WithoutConcat(Without(a, ' '), Without(b, ' '), '%');
    ReplaceCharConcat(Without(Without(a, ' '), '%'), Without(Without(b, ' '), '%'), ',', '.');
  }

  /** What cleaning does to one character: spaces and '%' go, ',' becomes '.', the rest stays. */
  lemma CleanChar(c: char)
    ensures Clean([c]) == if c == ' ' || c == '%' then [] else if c == ',' then "." else [c]
  {
    assert [c][1..] == [];
  }

  /**
   * The scale rule: above 10 the value is a 0-100 percentage, from 0 to 1 it
   * is already a fraction, from 1 to 10 it is again taken as a percentage,
   * and a negative value is rejected. The result has four decimals.
   */
  function Scale4(v: real): Option<real>
  {
    if v > 10.0 then Some(Round(v / 100.0, 4))
    else if 0.0 <= v <= 1.0 then Some(Round(v, 4))
    else if 1.0 < v <= 10.0 then Some(Round(v / 100.0, 4))
    else None
  }

  /** The number a cell holds, before the scale rule; `None` when it holds none. */
  function CellNumber(c: Cell): Option<real>
  {
    match c
    case Empty => None
    case Str(s) =>
      if s == "" then None
      else
        var t := Clean(s);
        if t == "" then None else ParseNumber(t)
    case Num(v, _) => Some(v)
  }

  /** `normalizar_valor(valor)` */
  function Normalize(c: Cell): Option<real>
  {
    match CellNumber(c)
    case None => None
    case Some(v) => Scale4(v)
  }

  /**
   * The two branches above 1 agree: a value is rejected exactly when it is
   * negative, kept (rounded) up to 1, and divided by 100 above 1. Every
   * result is non-negative.
   */
  lemma Scale4Rule(v: real)
    ensures Scale4(v).None? <==> v < 0.0
    ensures 0.0 <= v <= 1.0 ==> Scale4(v) == Some(Round(v, 4))
    ensures v > 1.0 ==> Scale4(v) == Some(Round(v / 100.0, 4))
    ensures Scale4(v).Some? ==> Scale4(v).value >= 0.0
  {
    if v >= 0.0 {
      RoundNonNegative(v, 4);
      RoundNonNegative(v / 100.0, 4);
    }
  }

  /**
   * `Normalize` gives `None` exactly for a missing cell, an empty string, a
   * string that is empty after cleaning or does not parse, and a negative
   * number; otherwise a non-negative value.
   */
  lemma NormalizeNone(c: Cell)
    ensures Normalize(c).None? <==>
      || c.Empty?
      || c == Str("")
      || (c.Str? && Clean(c.s) == "")
      || (c.Str? && c.s != "" && Clean(c.s) != "" && ParseNumber(Clean(c.s)).None?)
      || (CellNumber(c).Some? && CellNumber(c).value < 0.0)
    ensures Normalize(c).Some? ==> Normalize(c).value >= 0.0
  {
    if CellNumber(c).Some? {
      Scale4Rule(CellNumber(c).value);
    }
  }

  /** A numeric cell is scaled with the same rule as a parsed string. */
  lemma NormalizeNumber(v: real, text: string)
    ensures 0.0 <= v <= 1.0 ==> Normalize(Num(v, text)) == Some(Round(v, 4))
    ensures v > 1.0 ==> Normalize(Num(v, text)) == Some(Round(v / 100.0, 4))
    ensures v < 0.0 ==> Normalize(Num(v, text)) == None
  {
    Scale4Rule(v);
  }

  /** The result is not bounded by 1: a value of 250 becomes 2.5. */
  lemma NormalizeUnbounded()
    ensures Normalize(Num(250.0, "250")) == Some(2.5)
  {
    RoundExact(2.5, 4, 25000);
  }
}

/** The worked examples of `normalizar_valor`'s documentation, checked against the model. */
module NormalizerExamples {
  import opened Wrappers
  import opened Text
  import opened Numbers
  import opened Sheets
  import opened Normalizer

  lemma DropTrailingSpace()
    ensures Without("95,50 ", ' ') == "95,50"
  {
    assert "95,50 " == "95,50" + " ";
    WithoutConcat("95,50", " ", ' ');
    WithoutAbsent("95,50", ' ');
  }

  lemma DropSpacePercent()
    ensures Without("95,50 %", ' ') == "95,50%"
  {
    assert "95,50 %" == "95,50 " + "%";
    WithoutConcat("95,50 ", "%", ' ');
    DropTrailingSpace();
    WithoutAbsent("%", ' ');
  }

  lemma DropPercentSign()
    ensures Without("95,50%", '%') == "95,50"
  {
    assert "95,50%" == "95,50" + "%";
    WithoutConcat("95,50", "%", '%');
    WithoutAbsent("95,50", '%');
    assert Without("%", '%') == "";
  }

  lemma StripSpacesPercent()
    ensures Without(Without("95,50 %", ' '), '%') == "95,50"
  {
    DropSpacePercent();
    DropPercentSign();
  }

  lemma CleanLocalePercent()
    ensures Clean("95,50 %") == "95.50"
  {
    StripSpacesPercent();
    CommaToPointPercent();
  }

  lemma CommaToPointPercent()
    ensures ReplaceChar("95,50", ',', '.') == "95.50"
  {
    var r := ReplaceChar("95,50", ',', '.');
    assert r[0] == '9' && r[1] == '5' && r[2] == '.' && r[3] == '5' && r[4] == '0';
  }

  lemma DigitsLocalePercent()
    ensures AllDigits("9550") && DigitsValue("9550") == 9550
  {
    DigitsValueSnoc("", '9');
    assert [] + ['9'] == "9";
    DigitsValueSnoc("9", '5');
    assert "9" + ['5'] == "95";
    DigitsValueSnoc("95", '5');
    assert "95" + ['5'] == "955";
    DigitsValueSnoc("955", '0');
    assert "955" + ['0'] == "9550";
  }

  /** A decimal without sign or surrounding spaces parses to its digits scaled down by its decimals. */
  lemma ParseDecimal(t: string, i: nat, v: nat)
    requires i < |t| && IndexOf(t, '.') == Some(i)
    requires Strip(t) == t && t[0] != '+' && t[0] != '-'
    requires AllDigits(t[..i]) && AllDigits(t[i + 1..]) && |t| >= 2
    requires DigitsValue(t[..i] + t[i + 1..]) == v
    ensures ParseNumber(t) == Some(Unscale(v as real, |t| - i - 1))
  {
  }

  lemma PercentParts()
    ensures IndexOf("95.50", '.') == Some(2) && Strip("95.50") == "95.50"
    ensures "95.50"[..2] + "95.50"[3..] == "9550"
  {
    StripUnchanged("95.50");
    assert "95.50"[..2] == "95" && "95.50"[3..] == "50";
  }

  lemma ParseLocalePercent()
    ensures ParseNumber("95.50") == Some(95.5)
  {
    PercentParts();
    DigitsLocalePercent();
    ParseDecimal("95.50", 2, 9550);
    assert Unscale(9550.0, 2) == 95.5;
  }

  /** The documented example "95,50 %" gives 0.955. */
  lemma NormalizeLocalePercent()
    ensures Normalize(Str("95,50 %")) == Some(0.955)
  {
    CleanLocalePercent();
    ParseLocalePercent();
    ScaleLocale();
  }

  lemma NoSpaceFraction()
    ensures Without("0,9550", ' ') == "0,9550"
  {
    WithoutAbsent("0,9550", ' ');
  }

  lemma StripSpacesFraction()
    ensures Without(Without("0,9550", ' '), '%') == "0,9550"
  {
    NoSpaceFraction();
    WithoutAbsent("0,9550", '%');
  }

  lemma CleanLocaleFraction()
    ensures Clean("0,9550") == "0.9550"
  {
    StripSpacesFraction();
    CommaToPointFraction();
  }

  lemma CommaToPointFraction()
    ensures ReplaceChar("0,9550", ',', '.') == "0.9550"
  {
    var r := ReplaceChar("0,9550", ',', '.');
    assert r[0] == '0' && r[1] == '.' && r[2] == '9' && r[3] == '5' && r[4] == '5' && r[5] == '0';
  }

  lemma DigitsLocaleFraction()
    ensures AllDigits("09550") && DigitsValue("09550") == 9550
  {
    DigitsValueSnoc("", '0');
    assert [] + ['0'] == "0";
    DigitsValueSnoc("0", '9');
    assert "0" + ['9'] == "09";
    DigitsValueSnoc("09", '5');
    assert "09" + ['5'] == "095";
    DigitsValueSnoc("095", '5');
    assert "095" + ['5'] == "0955";
    DigitsValueSnoc("0955", '0');
    assert "0955" + ['0'] == "09550";
  }

  lemma FractionParts()
    ensures IndexOf("0.9550", '.') == Some(1) && Strip("0.9550") == "0.9550"
    ensures "0.9550"[..1] + "0.9550"[2..] == "09550"
  {
    StripUnchanged("0.9550");
    assert "0.9550"[..1] == "0" && "0.9550"[2..] == "9550";
  }

  lemma ParseLocaleFraction()
    ensures ParseNumber("0.9550") == Some(0.955)
  {
    FractionParts();
    DigitsLocaleFraction();
    ParseDecimal("0.9550", 1, 9550);
    assert Unscale(9550.0, 4) == 0.955;
  }

  /** The documented example "0,9550" gives 0.955. */
  lemma NormalizeLocaleFraction()
    ensures Normalize(Str("0,9550")) == Some(0.955)
  {
    CleanLocaleFraction();
    ParseLocaleFraction();
    ScaleLocale();
  }

  /** Both documented strings parse to a value the scale rule keeps at 0.955. */
  lemma ScaleLocale()
    ensures Scale4(95.5) == Some(0.955) && Scale4(0.955) == Some(0.955)
  {
    RoundExact(0.955, 4, 9550);
  }

  /** The documented numeric examples: 95.5 gives 0.955 and 1 stays 1. */
  lemma NormalizeNumericExamples()
    ensures Normalize(Num(95.5, "95.5")) == Some(0.955)
    ensures Normalize(Num(1.0, "1")) == Some(1.0)
  {
    RoundExact(0.955, 4, 9550);
    RoundExact(1.0, 4, 10000);
  }
}
