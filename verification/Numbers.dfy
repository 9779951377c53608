/**
 The fixed-point `Number` of the wire protocol: a 64-bit whole part and a
 fraction kept as a plain integer, so that the digits `05` and `5` after the
 point are the same fraction.
 */
module Numbers {
  import opened Wrappers
  import opened Bytes
  import opened Decimal
  import P = Patterns

  type Fraction = x: int | 0 <= x <= MAX_INT64

  datatype Number = NaN | Num(whole: Int64, frac: Fraction) {
    /** `Whole` and `Frac`: both parts of the NaN value are zero. */
    function Whole(): Int64 { if NaN? then 0 else whole }
    function Frac(): Fraction { if NaN? then 0 else frac }

    /** Verb `%d`. */
    function FormatD(): Bytes { if NaN? then "NaN" else Print(whole) }

    /** Verb `%f`. */
    function FormatF(): Bytes { if NaN? then "NaN" else Print(whole) + ("." + Print(frac)) }
  }

  datatype NumberError = EmptyNumber | InvalidFormat | BadInteger(e: IntError)

  /** The fraction digits of a match; none when the group did not take part. */
  function FractionDigits(c: P.Captures): Bytes { if P.Frac in c then c[P.Frac] else "" }

  function ParseFraction(f: Bytes): (r: Result<Fraction, IntError>)
    requires AllDigits(f)
  {
    if f == "" then Ok(0)
    else
      match ParseInt(f)
      case Ok(v) => assert IsDigit(f[0]); Ok(v)
      case Err(e) => Err(e)
  }

  function ParseNumber(buf: Bytes): Result<Number, NumberError> {
    var t := TrimSpace(buf);
    if t == "" then Err(EmptyNumber)
    else if t == "NaN" then Ok(NaN)
    else
      match P.ScanNumber(t)
      case None => Err(InvalidFormat)
      case Some(c) =>
        match ParseInt(c[P.Whole])
        case Err(e) => Err(BadInteger(e))
        case Ok(w) =>
          match ParseFraction(FractionDigits(c))
          case Err(e) => Err(BadInteger(e))
          case Ok(f) => Ok(Num(w, f))
  }

  // ----- printing, then parsing

  /** The printed form in the parts the patterns are made of. */
  lemma FormatParts(n: Number) returns (g: Bytes, d: Bytes, f: Bytes)
    requires n.Num?
    ensures P.AmountParts(g, d, f, true) && n.FormatF() == g + (d + f)
    ensures g + d == Print(n.whole) && f == "." + Print(n.frac)
    ensures n.whole >= 0 ==> g == ""
    ensures Tight(n.FormatF()) && |n.FormatF()| >= 3
  {
    PrintShape(n.whole);
    PrintShape(n.frac);
    hide Print, Numeral, SignedValue, Tight;
    var s := Print(n.whole);
    if n.whole < 0 {
      g, d := "-", s[1..];
      assert s == "-" + s[1..];
    } else {
      g, d := "", s;
    }
    f := "." + Print(n.frac);
    assert f[1..] == Print(n.frac);
    assert g + (d + f) == g + d + f;
    AmountTight(g, d, f);
  }

  /** Parsing an amount in parts: only the values of its digits count. */
  lemma ParseParts(g: Bytes, d: Bytes, f: Bytes)
    requires P.AmountParts(g, d, f, true)
    ensures IsNumeral(g + d) && AllDigits(f[if f == "" then 0 else 1..])
    ensures Tight(g + (d + f)) && P.ScanNumber(g + (d + f)) == Some(map[P.Whole := g + d] + P.FractionCapture(f))
    ensures ParseNumber(g + (d + f)) ==
      match ParseInt(g + d)
      case Err(e) => Err(BadInteger(e))
      case Ok(w) =>
        match ParseFraction(f[if f == "" then 0 else 1..])
        case Err(e) => Err(BadInteger(e))
        case Ok(v) => Ok(Num(w, v))
  {
    hide P.ScanNumber, TrimSpace, ParseInt, ParseFraction;
    var t := g + (d + f);
    P.ScanNumberParts("", g, d, f, "");
    assert "" + (g + (d + (f + ""))) == t by { assert f + "" == f; assert "" + t == t; }
    AmountTight(g, d, f);
    TrimTight(t);
    assert Magnitude(g + d) == d by { P.SignLengthOf(g, d); }
    assert (map[P.Whole := g + d] + P.FractionCapture(f))[P.Whole] == g + d;
  }

  lemma AmountTight(g: Bytes, d: Bytes, f: Bytes)
    requires P.AmountParts(g, d, f, true)
    ensures Tight(g + (d + f)) && g + (d + f) != "" && g + (d + f) != "NaN"
  {
    var t := g + (d + f);
    assert t[0] == if g != "" then g[0] else d[0];
    assert IsDigit(d[0]);
    var last := t[|t| - 1];
    assert last == '.' || IsDigit(last) by {
      if f == "" { assert last == d[|d| - 1]; }
      else if |f| == 1 { assert last == f[0]; }
      else { assert last == f[1..][|f| - 2]; }
    }
    assert "NaN"[0] == 'N';
  }

  /** Parsing the `%f` form of any number gives it back. */
  lemma NumberRoundTrip(n: Number)
    ensures ParseNumber(n.FormatF()) == Ok(n)
  {
    if n.NaN? {
      assert TrimSpace("NaN") == "NaN";
    } else {
      hide ParseNumber, ParseInt;
      var g, d, f := FormatParts(n);
      ParseParts(g, d, f);
      assert f[1..] == Print(n.frac);
      ParseIntRoundTrip(n.whole);
      ParseIntRoundTrip(n.frac);
    }
  }

  // ----- parsing, then printing: when the value survives

  function Pow10(k: nat): (p: nat)
    ensures p > 0
  {
    if k == 0 then 1 else 10 * Pow10(k - 1)
  }

  lemma {:induction false} Pow10Monotone(a: nat, b: nat)
    requires a < b
    ensures Pow10(a) < Pow10(b)
  {
    if a < b - 1 { Pow10Monotone(a, b - 1); }
  }

  /** The mathematical value of whole digits and fraction digits. */
  ghost function DecimalValue(whole: Bytes, frac: Bytes): real
    requires IsNumeral(whole) && AllDigits(frac)
  {
    var m := NumeralValue(Magnitude(whole)) as real + Fractional(NumeralValue(frac), |frac|);
    if Negative(whole) then -m else m
  }

  ghost function Fractional(f: nat, digits: nat): (r: real)
    ensures r >= 0.0 && (r == 0.0 <==> f == 0)
  {
    f as real / Pow10(digits) as real
  }

  /** What a text denotes as a decimal, NaN aside. */
  ghost function Denotes(text: Bytes): Option<real> {
    match P.ScanNumber(TrimSpace(text))
    case Some(c) => Some(DecimalValue(c[P.Whole], FractionDigits(c)))
    case None => None
  }

  lemma FractionalInjective(f: nat, a: nat, b: nat)
    requires f > 0 && a != b
    ensures Fractional(f, a) != Fractional(f, b)
  {
    if a < b { Pow10Monotone(a, b); } else { Pow10Monotone(b, a); }
    var p, q, x := Pow10(a) as real, Pow10(b) as real, f as real;
    assert x == (x / p) * p && x == (x / q) * q;
    assert (x / p) * p != (x / p) * q;
  }

  /** A run of digits survives as a fraction exactly when nothing leads it or it is all zeros. */
  lemma FractionFidelity(f: Bytes)
    requires AllDigits(f)
    ensures var v := NumeralValue(f);
            Fractional(v, |Numeral(v)|) == Fractional(v, |f|) <==> AllZeros(f) || f[0] != '0'
  {
    var v := NumeralValue(f);
    ZeroValue(f);
    if v > 0 {
      NumeralLength(f);
      if f[0] == '0' { FractionalInjective(v, |Numeral(v)|, |f|); }
    }
  }

  /** What parsing kept of an accepted numeric text. */
  lemma ParsedParts(text: Bytes, n: Number) returns (whole: Bytes, frac: Bytes)
    requires ParseNumber(text) == Ok(n) && n.Num?
    ensures P.ScanNumber(TrimSpace(text)).Some?
    ensures whole == P.ScanNumber(TrimSpace(text)).value[P.Whole]
    ensures frac == FractionDigits(P.ScanNumber(TrimSpace(text)).value)
    ensures IsNumeral(whole) && AllDigits(frac)
    ensures n.whole == SignedValue(whole) && n.frac == NumeralValue(frac)
  {
    hide P.ScanNumber;
    var c := P.ScanNumber(TrimSpace(text)).value;
    whole, frac := c[P.Whole], FractionDigits(c);
    if frac != "" { assert IsDigit(frac[0]); }
  }

  lemma DenotesMatch(text: Bytes, c: P.Captures)
    requires P.ScanNumber(TrimSpace(text)) == Some(c)
    ensures Denotes(text) == Some(DecimalValue(c[P.Whole], FractionDigits(c)))
  {
  }

  lemma DenotesPrinted(n: Number)
    requires n.Num?
    ensures IsNumeral(Print(n.whole))
    ensures Denotes(n.FormatF()) == Some(DecimalValue(Print(n.whole), Numeral(n.frac)))
  {
    hide Denotes, P.ScanNumber, TrimSpace, ParseNumber, DecimalValue, IsNumeral, ParseInt, ParseFraction;
    var g, d, f := FormatParts(n);
    ParseParts(g, d, f);
    TrimTight(n.FormatF());
    var c := map[P.Whole := g + d] + P.FractionCapture(f);
    assert f[1..] == Numeral(n.frac);
    assert c[P.Whole] == Print(n.whole) && FractionDigits(c) == Numeral(n.frac);
    DenotesMatch(n.FormatF(), c);
  }

  lemma SameMagnitude(neg: bool, w: nat, x: real, y: real)
    requires x >= 0.0 && y >= 0.0 && (x == 0.0 <==> y == 0.0)
    ensures var m, p := w as real + x, w as real + y;
            (if neg then -m else m) == (if neg && w > 0 then -p else p)
            <==> x == y && (x == 0.0 || !(neg && w == 0))
  {
  }

  lemma ReprintedValue(whole: Bytes, frac: Bytes)
    requires IsNumeral(whole) && AllDigits(frac)
    ensures IsNumeral(Print(SignedValue(whole)))
    ensures DecimalValue(Print(SignedValue(whole)), Numeral(NumeralValue(frac))) == DecimalValue(whole, frac)
       <==> AllZeros(frac) || (frac[0] != '0' && !(Negative(whole) && SignedValue(whole) == 0))
  {
    PrintShape(SignedValue(whole));
    hide Print, Numeral, NumeralValue, Fractional;
    ZeroValue(frac);
    FractionFidelity(frac);
    var w, v := NumeralValue(Magnitude(whole)), NumeralValue(frac);
    NumeralRoundTrip(w);
    NumeralRoundTrip(v);
    SameMagnitude(Negative(whole), w, Fractional(v, |frac|), Fractional(v, |Numeral(v)|));
  }

  /**
   Exact fidelity. Printing an accepted number denotes what the text denoted if
   and only if the fraction is empty or all zeros, or its first digit is not a
   zero and the text is not a minus sign on a zero whole part.
   */
  lemma NumericFidelity(text: Bytes, n: Number)
    requires ParseNumber(text) == Ok(n) && n.Num?
    ensures P.ScanNumber(TrimSpace(text)).Some?
    ensures var c := P.ScanNumber(TrimSpace(text)).value;
            var frac := FractionDigits(c);
            Denotes(n.FormatF()) == Denotes(text)
            <==> AllZeros(frac) || (frac[0] != '0' && !(c[P.Whole][0] == '-' && n.whole == 0))
  {
    var whole, frac := ParsedParts(text, n);
    assert whole != "";
    hide Denotes, DecimalValue, ParseNumber, P.ScanNumber, TrimSpace, Print, Numeral, NumeralValue, IsNumeral;
    DenotesPrinted(n);
    DenotesMatch(text, P.ScanNumber(TrimSpace(text)).value);
    ReprintedValue(whole, frac);
  }

  /** The two ways a value changes: a leading zero in the fraction, and a lost minus sign. */
  lemma FidelityFails()
    ensures ParseNumber("1.05") == Ok(Num(1, 5)) && Num(1, 5).FormatF() == "1.5"
    ensures ParseNumber("-0.5") == Ok(Num(0, 5)) && Num(0, 5).FormatF() == "0.5"
  {
    hide ParseNumber;
    LeadingZeroLost();
    MinusLost();
    assert Numeral(5) == "5" && Numeral(1) == "1" && Numeral(0) == "0";
  }

  lemma LeadingZeroLost()
    ensures ParseNumber("1.05") == Ok(Num(1, 5))
  {
    hide ParseNumber, P.ScanNumber, TrimSpace, NumeralValue, P.FractionCapture, Tight;
    ParseParts("", "1", ".05");
    assert "" + ("1" + ".05") == "1.05" && "" + "1" == "1" && ".05"[1..] == "05";
    LeadingZero("5");
    assert "0" + "5" == "05";
    NumeralRoundTrip(5);
    NumeralRoundTrip(1);
    assert Numeral(5) == "5" && Numeral(1) == "1";
  }

  lemma MinusLost()
    ensures ParseNumber("-0.5") == Ok(Num(0, 5))
  {
    hide ParseNumber, P.ScanNumber, TrimSpace, NumeralValue, P.FractionCapture, Tight;
    ParseParts("-", "0", ".5");
    assert "-" + ("0" + ".5") == "-0.5" && "-" + "0" == "-0" && "-0"[1..] == "0" && ".5"[1..] == "5";
    NumeralRoundTrip(5);
    NumeralRoundTrip(0);
    assert Numeral(5) == "5" && Numeral(0) == "0";
  }
}
