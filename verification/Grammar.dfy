/**
 What numbers and commands mean, said of their bytes: every text the parsers
 accept is one of the forms below, and each form has the value of its digits.
 */
module Grammar {
  import opened Wrappers
  import opened Bytes
  import opened Decimal
  import opened Numbers
  import opened Commands
  import P = Patterns

  /** White space of the patterns, and that which is trimmed. */
  lemma WhiteSpace(c: char)
    ensures IsPatternSpace(c) <==> c as int in {9, 10, 12, 13, 32}
    ensures IsTrimSpace(c) <==> c as int in {9, 10, 11, 12, 13, 32}
  {
  }

  predicate Blank(s: Bytes) { forall i | 0 <= i < |s| :: s[i] as int in {9, 10, 12, 13, 32} }

  predicate SignText(g: Bytes) { g == "" || g == "+" || g == "-" }

  /** Nothing, or a point and any digits. */
  predicate PointText(f: Bytes) { f == "" || (f[0] == '.' && AllDigits(f[1..])) }

  predicate DigitsText(d: Bytes) { d != "" && AllDigits(d) }

  /** The number that a sign, digits and a fraction stand for, if 64 bits hold both parts. */
  function AmountOf(g: Bytes, d: Bytes, f: Bytes): Result<Number, NumberError>
    requires AllDigits(d) && PointText(f)
  {
    var w: int := if g == "-" then -(NumeralValue(d) as int) else NumeralValue(d);
    var x := if f == "" then 0 else NumeralValue(f[1..]);
    if -9_223_372_036_854_775_808 <= w <= 9_223_372_036_854_775_807 && x <= 9_223_372_036_854_775_807 then Ok(Num(w, x))
    else Err(BadInteger(OutOfRange))
  }

  lemma PartsOfText(g: Bytes, d: Bytes, f: Bytes)
    requires SignText(g) && DigitsText(d) && PointText(f)
    ensures P.AmountParts(g, d, f, true) && (g == "" ==> P.AmountParts(g, d, f, false))
  {
    assert P.AllIn(P.Digit, d) && (f != "" ==> P.AllIn(P.Digit, f[1..]));
  }

  // ----- numbers

  /** A number text has the value of its digits: a minus negates the whole part, and a plus changes nothing. */
  lemma NumberText(g: Bytes, d: Bytes, f: Bytes)
    requires SignText(g) && DigitsText(d) && PointText(f)
    ensures var w: int := if g == "-" then -(NumeralValue(d) as int) else NumeralValue(d);
            var x := if f == "" then 0 else NumeralValue(f[1..]);
            ParseNumber(g + (d + f))
            == if -9_223_372_036_854_775_808 <= w <= 9_223_372_036_854_775_807 && x <= 9_223_372_036_854_775_807
               then Ok(Num(w, x)) else Err(BadInteger(OutOfRange))
    ensures ParseNumber(g + (d + f)) == AmountOf(g, d, f)
  {
    hide ParseNumber, ParseInt, ParseFraction, P.ScanNumber, P.FractionCapture, Tight, IsNumeral, NumeralValue;
    PartsOfText(g, d, f);
    ParseParts(g, d, f);
    WholeText(g, d);
    if f == "" { FractionText(""); } else { FractionText(f[1..]); }
  }

  lemma WholeText(g: Bytes, d: Bytes)
    requires SignText(g) && DigitsText(d)
    ensures var w: int := if g == "-" then -(NumeralValue(d) as int) else NumeralValue(d);
            ParseInt(g + d)
            == if -9_223_372_036_854_775_808 <= w <= 9_223_372_036_854_775_807 then Ok(w) else Err(OutOfRange)
  {
    SignedDigits(g, d);
    Int64Limits();
    hide NumeralValue, Magnitude, Negative;
  }

  lemma FractionText(f: Bytes)
    requires AllDigits(f)
    ensures NumeralValue("") == 0
    ensures ParseFraction(f)
            == if NumeralValue(f) <= 9_223_372_036_854_775_807 then Ok(NumeralValue(f)) else Err(OutOfRange)
  {
    if f != "" {
      assert IsDigit(f[0]) && "" + f == f;
      WholeText("", f);
    }
    hide ParseInt;
  }

  lemma PlusSign(d: Bytes, f: Bytes)
    requires DigitsText(d) && PointText(f)
    ensures ParseNumber("+" + (d + f)) == ParseNumber(d + f)
  {
    hide ParseNumber;
    NumberText("+", d, f);
    NumberText("", d, f);
    assert "" + (d + f) == d + f;
  }

  /** White space around a number counts for nothing. */
  lemma TrimmedNumber(buf: Bytes)
    ensures ParseNumber(buf) == ParseNumber(TrimSpace(buf))
  {
    TrimSpaceTight(buf);
    TrimTight(TrimSpace(buf));
    hide TrimSpace, P.ScanNumber, ParseInt, ParseFraction;
  }

  /** What is not a number: nothing, or what has not the form of one. */
  lemma NumberErrors(buf: Bytes)
    ensures ParseNumber(buf) == Err(EmptyNumber) <==> TrimSpace(buf) == ""
    ensures ParseNumber(buf) == Ok(NaN) <==> TrimSpace(buf) == "NaN"
    ensures ParseNumber(buf) == Err(InvalidFormat)
       <==> TrimSpace(buf) != "" && TrimSpace(buf) != "NaN"
            && forall caps :: !P.Matches(P.NUMBER_PATTERN, TrimSpace(buf), caps)
  {
    hide TrimSpace, P.ScanNumber, P.Matches, ParseInt, ParseFraction;
    NumberMatches(TrimSpace(buf));
  }

  lemma NumberMatches(t: Bytes)
    ensures P.ScanNumber(t).None? <==> forall caps :: !P.Matches(P.NUMBER_PATTERN, t, caps)
  {
    hide P.ScanNumber, P.Matches;
    forall caps ensures P.Matches(P.NUMBER_PATTERN, t, caps) <==> P.ScanNumber(t) == Some(caps) {
      P.NumberUnambiguous(t, caps);
    }
    if P.ScanNumber(t).Some? { assert P.Matches(P.NUMBER_PATTERN, t, P.ScanNumber(t).value); }
  }

  /** Every other text is a sign, digits and a fraction. */
  lemma NumberForm(buf: Bytes) returns (g: Bytes, d: Bytes, f: Bytes)
    requires P.ScanNumber(TrimSpace(buf)).Some?
    ensures SignText(g) && DigitsText(d) && PointText(f) && TrimSpace(buf) == g + (d + f)
    ensures ParseNumber(buf) == AmountOf(g, d, f)
  {
    TrimSpaceTight(buf);
    TrimmedNumber(buf);
    g, d, f := TightForm(TrimSpace(buf));
    NumberText(g, d, f);
  }

  lemma TightForm(t: Bytes) returns (g: Bytes, d: Bytes, f: Bytes)
    requires Tight(t) && P.ScanNumber(t).Some?
    ensures SignText(g) && DigitsText(d) && PointText(f) && t == g + (d + f)
  {
    var n, k := TightScanned(t);
    hide SignText, DigitsText, PointText, Tight, P.ScanNumber, P.ScanTail;
    g, d, f := ThreeParts(t, n, k);
    TailForm(t, f);
  }

  /** A tight text is scanned from its first byte. */
  lemma TightScanned(t: Bytes) returns (n: nat, k: nat)
    requires Tight(t) && P.ScanNumber(t).Some?
    ensures t != "" && !IsPatternSpace(t[|t| - 1])
    ensures n + k <= |t| && SignText(t[..n]) && DigitsText(t[n..][..k]) && P.ScanTail(t[n + k..]).Some?
  {
    assert P.Span(P.Space, t) == 0 && t[0..] == t;
    hide P.Span, P.ScanTail;
    n := P.SignLength(t);
    k := P.Span(P.Digit, t[n..]);
    assert n > 0 ==> t[..n] == [t[0]];
    assert P.AllIn(P.Digit, t[n..][..k]);
  }

  lemma ThreeParts(t: Bytes, n: nat, k: nat) returns (g: Bytes, d: Bytes, f: Bytes)
    requires n + k <= |t|
    ensures g == t[..n] && d == t[n..][..k] && f == t[n + k..]
    ensures t == g + (d + f) && |f| <= |t| && f == t[|t| - |f|..]
  {
    g, d, f := t[..n], t[n..][..k], t[n + k..];
  }

  /** What follows the whole part at the end of a tight text. */
  lemma TailForm(t: Bytes, u: Bytes)
    requires t != "" && !IsPatternSpace(t[|t| - 1]) && |u| <= |t| && u == t[|t| - |u|..] && P.ScanTail(u).Some?
    ensures PointText(u)
  {
    hide P.Span;
    if u != "" {
      assert u[|u| - 1] == t[|t| - 1];
      if u[0] == '.' {
        var k := P.Span(P.Digit, u[1..]);
        if k < |u| - 1 { LastBlank(u, k + 1); }
        assert u[1..][..k] == u[1..];
      } else {
        assert u[0..] == u;
        LastBlank(u, 0);
      }
    }
  }

  lemma LastBlank(u: Bytes, k: nat)
    requires k < |u| && P.AllIn(P.Space, u[k..])
    ensures IsPatternSpace(u[|u| - 1])
  {
    assert u[k..][|u| - k - 1] == u[|u| - 1];
  }

  // ----- the decimal that a text denotes

  /** Each digit after the point counts a tenth of the one before. */
  lemma TenthParts(c: char, s: Bytes)
    requires IsDigit(c) && AllDigits(s)
    ensures AllDigits([c] + s) && Fractional(NumeralValue(""), 0) == 0.0
    ensures Fractional(NumeralValue([c] + s), |s| + 1)
         == (DigitValue(c) as real + Fractional(NumeralValue(s), |s|)) / 10.0
  {
    NoDigits();
    LeadingDigit(c, s);
    hide NumeralValue, DigitValue, Fractional;
    FractionalStep(NumeralValue([c] + s), DigitValue(c), NumeralValue(s), |s|);
  }

  lemma FractionalStep(x: nat, c: nat, v: nat, k: nat)
    requires c < 10 && x == c * Pow10(k) + v
    ensures Fractional(x, k + 1) == (c as real + Fractional(v, k)) / 10.0
  {
    var p := Pow10(k);
    assert Pow10(k + 1) == 10 * p;
    hide Pow10;
    SumAsReal(x, c, p, v);
    Tenth(c as real, v as real, p as real);
    assert (10 * p) as real == 10.0 * p as real;
  }

  lemma SumAsReal(x: nat, c: nat, p: nat, v: nat)
    requires c < 10 && x == c * p + v
    ensures x as real == c as real * p as real + v as real
  {
    var n := 0;
    while n < c
      invariant n <= c && (n * p) as real == n as real * p as real
    {
      assert (n + 1) * p == n * p + p;
      n := n + 1;
    }
  }

  lemma NoDigits()
    ensures NumeralValue("") == 0 && Fractional(0, 0) == 0.0
  {
  }

  lemma Tenth(c: real, v: real, p: real)
    requires p > 0.0
    ensures (c * p + v) / (10.0 * p) == (c + v / p) / 10.0
  {
    assert v == (v / p) * p;
    assert (c + v / p) / 10.0 * (10.0 * p) == c * p + v;
  }

  lemma {:induction false} LeadingDigit(c: char, s: Bytes)
    requires IsDigit(c) && AllDigits(s)
    ensures AllDigits([c] + s) && NumeralValue([c] + s) == DigitValue(c) * Pow10(|s|) + NumeralValue(s)
  {
    var t := [c] + s;
    if s == "" {
      assert t[..0] == "" && NumeralValue(t[..0]) == 0;
    } else {
      var m := |s| - 1;
      assert t[..m + 1] == [c] + s[..m] && t[m + 1] == s[m];
      LeadingDigit(c, s[..m]);
      assert NumeralValue(t) == NumeralValue(t[..m + 1]) * 10 + DigitValue(s[m]);
      hide NumeralValue, DigitValue;
      OneMoreDigit(DigitValue(c), Pow10(m), NumeralValue(s[..m]), DigitValue(s[m]));
    }
  }

  lemma OneMoreDigit(c: int, p: int, v: int, x: int)
    ensures (c * p + v) * 10 + x == c * (10 * p) + (v * 10 + x)
  {
  }

  /** A text denotes the decimal it shows: a minus negates all of it, and a plus changes nothing. */
  lemma DenotesText(g: Bytes, d: Bytes, f: Bytes)
    requires SignText(g) && DigitsText(d) && PointText(f)
    ensures var digits := if f == "" then "" else f[1..];
            var m := NumeralValue(d) as real + Fractional(NumeralValue(digits), |digits|);
            Denotes(g + (d + f)) == Some(if g == "-" then -m else m)
  {
    hide P.ScanNumber, TrimSpace, ParseNumber, NumeralValue, DecimalValue, Denotes, Tight, P.AmountParts;
    PartsOfText(g, d, f);
    ParseParts(g, d, f);
    TrimTight(g + (d + f));
    var c := map[P.Whole := g + d] + P.FractionCapture(f);
    DenotesMatch(g + (d + f), c);
    assert c[P.Whole] == g + d && FractionDigits(c) == if f == "" then "" else f[1..];
    DecimalOf(g, d, FractionDigits(c));
  }

  lemma DecimalOf(g: Bytes, d: Bytes, digits: Bytes)
    requires SignText(g) && DigitsText(d) && AllDigits(digits)
    ensures IsNumeral(g + d)
    ensures var m := NumeralValue(d) as real + Fractional(NumeralValue(digits), |digits|);
            DecimalValue(g + d, digits) == if g == "-" then -m else m
  {
    SignedDigits(g, d);
    assert IsDigit(d[0]);
    assert Negative(g + d) <==> g == "-" by { assert (g + d)[0] == if g == "" then d[0] else g[0]; }
    hide NumeralValue, Fractional, Magnitude, Negative;
  }

  // ----- commands

  lemma BlankIsSpace(s: Bytes)
    ensures Blank(s) <==> P.AllIn(P.Space, s)
  {
    forall i | 0 <= i < |s| ensures s[i] as int in {9, 10, 12, 13, 32} <==> P.In(P.Space, s[i]) { WhiteSpace(s[i]); }
  }

  lemma DigitsAreIn(s: Bytes)
    ensures AllDigits(s) <==> P.AllIn(P.Digit, s)
  {
    forall i | 0 <= i < |s| ensures IsDigit(s[i]) <==> P.In(P.Digit, s[i]) { }
  }

  /**
   A write: the variable's digits, a gap, and the amount. A plus in front of the
   amount changes nothing, and a minus negates its whole part.
   */
  lemma WriteText(v: Bytes, w: Bytes, g: Bytes, d: Bytes, f: Bytes, z: Bytes)
    requires DigitsText(v) && w != "" && Blank(w) && Blank(z) && SignText(g) && DigitsText(d) && PointText(f)
    ensures ParseCommand("?E" + (v + (w + ((g + (d + f)) + z)))) ==
              match AmountOf("", v, "")
              case Err(e) => Err(BadVariable(e))
              case Ok(n) =>
                match AmountOf(g, d, f)
                case Err(e) => Err(BadValue(e))
                case Ok(x) => Ok(Write(n, x))
  {
    hide ParseCommand, ParseWrite, P.ScanWrite, AmountOf, ParseNumber, P.AmountParts;
    BlankIsSpace(w);
    BlankIsSpace(z);
    DigitsAreIn(v);
    PartsOfText(g, d, f);
    var a := g + (d + f);
    var args := v + (w + (a + z));
    P.ScanWriteParts(v, w, a, z, g, d, f);
    ParsePrefixed(args);
    NumberText(g, d, f);
    NumberText("", v, "");
    assert "" + (v + "") == v;
    ScannedWrite(args, v, a);
  }

  lemma ScannedWrite(args: Bytes, v: Bytes, a: Bytes)
    requires P.ScanWrite(args) == Some(map[P.Variable := v, P.Value := a]) && v != "" && a != ""
    ensures ParseWrite(args) ==
              match ParseNumber(v)
              case Err(e) => Err(BadVariable(e))
              case Ok(n) =>
                match ParseNumber(a)
                case Err(e) => Err(BadValue(e))
                case Ok(x) => Ok(Write(n, x))
  {
    hide P.ScanWrite, ParseNumber;
  }

  /** Nothing else is a write: any other text after `?E` has not its form. */
  lemma WriteForm(args: Bytes) returns (v: Bytes, w: Bytes, g: Bytes, d: Bytes, f: Bytes, z: Bytes)
    requires args != "" && ParseCommand("?E" + args) != Err(BadWrite)
    ensures DigitsText(v) && w != "" && Blank(w) && Blank(z) && SignText(g) && DigitsText(d) && PointText(f)
    ensures args == v + (w + ((g + (d + f)) + z))
  {
    ParsePrefixed(args);
    assert P.ScanWrite(args).Some? by { hide P.ScanWrite, ParseNumber; }
    var t;
    v, w, t, z := WritePieces(args);
    hide ParseCommand, P.AmountLength, P.ScanWrite;
    g, d, f := P.AmountSplit(t, true);
    BlankIsSpace(w);
    BlankIsSpace(z);
    DigitsAreIn(v);
    AmountIsText(g, d, f);
  }

  lemma WritePieces(args: Bytes) returns (v: Bytes, w: Bytes, t: Bytes, z: Bytes)
    requires P.ScanWrite(args).Some?
    ensures v != "" && P.AllIn(P.Digit, v) && w != "" && P.AllIn(P.Space, w) && P.AllIn(P.Space, z)
    ensures P.AmountLength(t, true) > 0 && args == v + (w + (t[..P.AmountLength(t, true)] + z))
  {
    var i := P.Span(P.Digit, args);
    var rest := args[i..];
    var j := P.Span(P.Space, rest);
    t := rest[j..];
    var n := P.AmountLength(t, true);
    v, w, z := args[..i], rest[..j], t[n..];
    FourPieces(args, i, j, n);
  }

  lemma AmountIsText(g: Bytes, d: Bytes, f: Bytes)
    requires P.AmountParts(g, d, f, true)
    ensures SignText(g) && DigitsText(d) && PointText(f)
  {
    DigitsAreIn(d);
    if f != "" { DigitsAreIn(f[1..]); }
    if g != "" { assert g == [g[0]]; }
  }

  /** A query by number alone. Number 600 needs a variable. */
  lemma BareText(c: Bytes, z: Bytes)
    requires DigitsText(c) && Blank(z)
    ensures ParseCommand("?Q" + (c + z)) ==
              match AmountOf("", c, "")
              case Err(e) => Err(BadCommand(e))
              case Ok(n) => if n == Num(600, 0) then Err(NoVariable) else Ok(Basic(n))
  {
    hide ParseCommand, ParseQuery, P.ScanQuery, ParseNumber;
    BlankIsSpace(z);
    DigitsAreIn(c);
    P.ScanBareQuery(c, z);
    ParsePrefixed(c + z);
    NumberText("", c, "");
    assert "" + (c + "") == c;
    ScannedQuery(c + z, map[P.Command := c]);
  }

  /** A query with a variable, which counts for number 600 only. */
  lemma QueryText(c: Bytes, w: Bytes, d: Bytes, f: Bytes, z: Bytes)
    requires DigitsText(c) && w != "" && Blank(w) && Blank(z) && DigitsText(d) && PointText(f)
    ensures ParseCommand("?Q" + (c + (w + ((d + f) + z)))) ==
              match AmountOf("", c, "")
              case Err(e) => Err(BadCommand(e))
              case Ok(n) =>
                if n != Num(600, 0) then Ok(Basic(n))
                else
                  match AmountOf("", d, f)
                  case Err(e) => Err(BadVariable(e))
                  case Ok(v) => Ok(Query(v))
  {
    hide ParseCommand, ParseQuery, P.ScanQuery, ParseNumber, P.AmountParts;
    BlankIsSpace(w);
    BlankIsSpace(z);
    DigitsAreIn(c);
    PartsOfText("", d, f);
    var a := d + f;
    var args := c + (w + (a + z));
    P.ScanFullQuery(c, w, a, z, d, f);
    ParsePrefixed(args);
    NumberText("", c, "");
    NumberText("", d, f);
    assert "" + (c + "") == c && "" + a == a;
    ScannedQuery(args, map[P.Command := c, P.Variable := a]);
  }

  lemma ScannedQuery(args: Bytes, m: P.Captures)
    requires P.ScanQuery(args) == Some(m) && P.Command in m
    ensures ParseQuery(args) ==
              match ParseNumber(m[P.Command])
              case Err(e) => Err(BadCommand(e))
              case Ok(n) =>
                if n.Frac() != 0 then Err(FractionalCommand)
                else if n.Whole() != 600 then Ok(Basic(n))
                else if P.Variable !in m || m[P.Variable] == "" then Err(NoVariable)
                else
                  match ParseNumber(m[P.Variable])
                  case Err(e) => Err(BadVariable(e))
                  case Ok(v) => Ok(Query(v))
  {
    hide P.ScanQuery, ParseNumber;
  }

  /** Nothing else is a query. */
  lemma QueryForm(args: Bytes) returns (bare: bool, c: Bytes, w: Bytes, d: Bytes, f: Bytes, z: Bytes)
    requires args != "" && ParseCommand("?Q" + args) != Err(BadQuery)
    ensures DigitsText(c) && Blank(w) && Blank(z)
    ensures if bare then args == c + z else w != "" && DigitsText(d) && PointText(f) && args == c + (w + ((d + f) + z))
  {
    ParsePrefixed(args);
    assert P.ScanQuery(args).Some? by { hide P.ScanQuery, ParseNumber; }
    var t;
    c, w, t, z := QueryPieces(args);
    hide ParseCommand, P.AmountLength, P.ScanQuery;
    bare, d, f := t == "", "", "";
    BlankIsSpace(w);
    BlankIsSpace(z);
    DigitsAreIn(c);
    if !bare {
      var g;
      g, d, f := P.AmountSplit(t, false);
      AmountIsText(g, d, f);
      assert g + (d + f) == d + f;
    }
  }

  lemma QueryPieces(args: Bytes) returns (c: Bytes, w: Bytes, t: Bytes, z: Bytes)
    requires P.ScanQuery(args).Some?
    ensures c != "" && P.AllIn(P.Digit, c) && P.AllIn(P.Space, w) && P.AllIn(P.Space, z)
    ensures if t == "" then args == c + z
            else w != "" && P.AmountLength(t, false) > 0 && args == c + (w + (t[..P.AmountLength(t, false)] + z))
  {
    var i := P.Span(P.Digit, args);
    var rest := args[i..];
    var j := P.Span(P.Space, rest);
    t := rest[j..];
    var n := P.AmountLength(t, false);
    c, w, z := args[..i], rest[..j], if t == "" then rest[..j] else t[n..];
    FourPieces(args, i, j, n);
    hide P.Span, P.AmountLength, P.AllIn, P.ScanQuery;
    if t == "" { assert args == c + rest && rest == z; }
  }

  lemma FourPieces(s: Bytes, i: nat, j: nat, n: nat)
    requires i + j + n <= |s|
    ensures var t := s[i..][j..];
            |t| == |s| - i - j && s == s[..i] + (s[i..][..j] + (t[..n] + t[n..]))
  {
  }

  /** Every other text is refused for its first two bytes, or for having none after them. */
  lemma OtherText(b: Bytes)
    ensures |b| < 3 ==> ParseCommand(b) == Err(Undersized)
    ensures |b| >= 3 && b[0] != '?' ==> ParseCommand(b) == Err(NoQuestionMark)
    ensures |b| >= 3 && b[0] == '?' && b[1] != 'E' && b[1] != 'Q' ==> ParseCommand(b) == Err(BadCharacter)
  {
  }
}
