/**
 Commands cut short. When a connection breaks while a command is written, the
 other side may find any beginning of its text. This module says exactly which
 beginnings still parse to the command itself.
 */
module Truncation {
  import opened Wrappers
  import opened Bytes
  import opened Decimal
  import opened Numbers
  import opened Commands
  import P = Patterns

  /** How much of the end of a command's line the parser can do without. */
  function Slack(c: Command): nat {
    match c
    case Basic(_) => 0
    case Query(v) => FractionSlack(v)
    case Write(_, x) => FractionSlack(x)
  }

  /** A point and a single zero add nothing to what comes before. */
  function FractionSlack(x: Number): nat { if x.Frac() == 0 then 2 else 0 }

  // ----- digits cut short

  /** No proper beginning of a printed numeral has its value. */
  lemma NumeralPrefix(s: Bytes, k: nat)
    requires AllDigits(s) && NoLeadingZero(s) && 0 < k <= |s|
    ensures AllDigits(s[..k]) && NoLeadingZero(s[..k])
    ensures NumeralValue(s[..k]) == NumeralValue(s) <==> k == |s|
  {
    assert s[..k][0] == s[0];
    NumeralOfValue(s[..k]);
    NumeralOfValue(s);
    assert s[..|s|] == s;
  }

  /** A beginning of digits has at most their value. */
  lemma {:induction false} PrefixLess(s: Bytes, k: nat)
    requires AllDigits(s) && k <= |s|
    ensures AllDigits(s[..k]) && NumeralValue(s[..k]) <= NumeralValue(s)
    decreases |s|
  {
    if k < |s| {
      var before := s[..|s| - 1];
      PrefixLess(before, k);
      assert before[..k] == s[..k];
    } else {
      assert s[..k] == s;
    }
  }

  lemma NumeralShape(n: nat)
    ensures AllDigits(Numeral(n)) && NoLeadingZero(Numeral(n)) && NumeralValue(Numeral(n)) == n
  {
    NumeralRoundTrip(n);
    assert n < 10 ==> |Numeral(n)| == 1;
    assert n >= 10 ==> Numeral(n)[0] != '0';
  }

  /** The sign and the digits of a printed whole part. */
  function Sign(w: int): Bytes { if w < 0 then "-" else "" }

  function Abs(w: int): nat { if w < 0 then -w else w }

  function Digits(w: int): Bytes { Numeral(Abs(w)) }

  lemma SignAndDigits(w: int)
    ensures Print(w) == Sign(w) + Digits(w) && AllDigits(Digits(w)) && NoLeadingZero(Digits(w))
  {
    NumeralShape(Abs(w));
    if w >= 0 { assert "" + Digits(w) == Digits(w); }
  }

  /** A beginning of a printed integer is read as that integer only if it is all of it. */
  lemma IntegerPrefix(w: Int64, k: nat)
    requires 0 < k <= |Digits(w)|
    ensures ParseInt(Sign(w) + Digits(w)[..k]).Ok?
    ensures ParseInt(Sign(w) + Digits(w)[..k]) == Ok(w) <==> k == |Digits(w)|
  {
    NumeralShape(Abs(w));
    NumeralPrefix(Digits(w), k);
    PrefixLess(Digits(w), k);
    SignedNumeral(Sign(w), Digits(w)[..k]);
    hide Digits, Numeral, NumeralValue, IsNumeral;
  }

  lemma SignedNumeral(g: Bytes, d: Bytes)
    requires (g == "" || g == "-") && d != "" && AllDigits(d)
    ensures IsNumeral(g + d) && SignedValue(g + d) == (var v: int := NumeralValue(d); if g == "-" then -v else v)
  {
    assert IsDigit(d[0]);
    P.SignLengthOf(g, d);
    assert Magnitude(g + d) == d;
  }

  // ----- amounts cut short

  /** The parts of the first j bytes of a printed number, j past its sign. */
  lemma AmountPrefix(x: Number, j: nat) returns (g: Bytes, d: Bytes, f: Bytes)
    requires x.Num? && |Sign(x.whole)| < j <= |x.FormatF()|
    ensures P.AmountParts(g, d, f, true) && x.FormatF()[..j] == g + (d + f) && g == Sign(x.whole)
    ensures ParseNumber(x.FormatF()[..j]).Ok?
    ensures ParseNumber(x.FormatF()[..j]) == Ok(x) <==> j + FractionSlack(x) >= |x.FormatF()|
  {
    hide ParseNumber, P.AmountParts, Sign, Digits, Numeral, Number.FormatF;
    PrintedParts(x);
    g, d, f := Sign(x.whole), Digits(x.whole), "";
    var k := j - |g|;
    if k <= |d| {
      CutWhole(g, d, "." + Numeral(x.frac), j);
      WholeCut(x, k);
      d := d[..k];
    } else {
      k := k - |d| - 1;
      CutFraction(g, d, Numeral(x.frac), k);
      FractionCut(x, k);
      f := "." + Numeral(x.frac)[..k];
    }
  }

  lemma PrintedParts(x: Number)
    requires x.Num?
    ensures x.FormatF() == Sign(x.whole) + Digits(x.whole) + ("." + Numeral(x.frac))
    ensures Numeral(x.frac) != "" && (x.frac == 0 ==> |Numeral(x.frac)| == 1)
  {
    SignAndDigits(x.whole);
    NumeralShape(x.frac);
    hide Digits;
    assert Print(x.frac) == Numeral(x.frac);
  }

  lemma CutWhole(g: Bytes, d: Bytes, r: Bytes, j: nat)
    requires |g| <= j <= |g| + |d|
    ensures (g + d + r)[..j] == g + (d[..j - |g|] + "")
  {
  }

  lemma CutFraction(g: Bytes, d: Bytes, f: Bytes, k: nat)
    requires k <= |f|
    ensures (g + d + ("." + f))[..|g| + |d| + 1 + k] == g + (d + ("." + f[..k]))
  {
  }

  /** Cut in the whole digits, or right after them. */
  lemma WholeCut(x: Number, k: nat)
    requires x.Num? && 0 < k <= |Digits(x.whole)|
    ensures P.AmountParts(Sign(x.whole), Digits(x.whole)[..k], "", true)
    ensures ParseNumber(Sign(x.whole) + (Digits(x.whole)[..k] + "")).Ok?
    ensures ParseNumber(Sign(x.whole) + (Digits(x.whole)[..k] + "")) == Ok(x) <==> k == |Digits(x.whole)| && x.frac == 0
  {
    SignAndDigits(x.whole);
    IntegerPrefix(x.whole, k);
    var g, d := Sign(x.whole), Digits(x.whole)[..k];
    hide ParseNumber, ParseInt, Digits;
    assert P.AllIn(P.Digit, d);
    ParseParts(g, d, "");
  }

  /** Cut after the point or in the fraction. */
  lemma FractionCut(x: Number, k: nat)
    requires x.Num? && k <= |Numeral(x.frac)|
    ensures P.AmountParts(Sign(x.whole), Digits(x.whole), "." + Numeral(x.frac)[..k], true)
    ensures ParseNumber(Sign(x.whole) + (Digits(x.whole) + ("." + Numeral(x.frac)[..k]))).Ok?
    ensures ParseNumber(Sign(x.whole) + (Digits(x.whole) + ("." + Numeral(x.frac)[..k]))) == Ok(x)
       <==> k == |Numeral(x.frac)| || (k == 0 && x.frac == 0)
  {
    SignAndDigits(x.whole);
    IntegerPrefix(x.whole, |Digits(x.whole)|);
    FractionPrefix(x.frac, k);
    var g, d, f := Sign(x.whole), Digits(x.whole), "." + Numeral(x.frac)[..k];
    hide ParseNumber, ParseInt, Digits, Numeral, ParseFraction;
    assert d[..|d|] == d && f[1..] == Numeral(x.frac)[..k];
    assert P.AllIn(P.Digit, d) && P.AllIn(P.Digit, f[1..]);
    ParseParts(g, d, f);
  }

  lemma FractionPrefix(frac: Fraction, k: nat)
    requires k <= |Numeral(frac)|
    ensures AllDigits(Numeral(frac)[..k])
    ensures ParseFraction(Numeral(frac)[..k]).Ok?
    ensures ParseFraction(Numeral(frac)[..k]) == Ok(frac) <==> k == |Numeral(frac)| || (k == 0 && frac == 0)
    ensures frac == 0 ==> |Numeral(frac)| == 1
  {
    NumeralShape(frac);
    if k > 0 {
      assert Sign(frac) + Numeral(frac)[..k] == Numeral(frac)[..k];
      IntegerPrefix(frac, k);
    }
  }

  // ----- commands cut short

  /** Where the amount of a command starts in its line. */
  function Head(c: Command): Bytes
    requires !c.Basic?
  {
    if c.Query? then "?Q" + ("600" + " ") else "?E" + (c.variable.FormatD() + " ")
  }

  function Amount(c: Command): Number
    requires !c.Basic?
  {
    if c.Query? then c.variable else c.value
  }

  lemma LineParts(c: Command)
    requires !c.Basic?
    ensures c.Line() == Head(c) + Amount(c).FormatF()
  {
    hide Number.FormatD, Number.FormatF;
    if c.Query? { Regroup("?Q", "600" + " ", c.variable.FormatF()); }
    if c.Write? { Regroup("?E", c.variable.FormatD() + " ", c.value.FormatF()); }
  }

  lemma Regroup(a: Bytes, b: Bytes, c: Bytes)
    ensures a + b + c == a + (b + c)
  {
  }

  /** Enough of the line for a whole amount: it parses to the command exactly when the amount does to its number. */
  lemma AmountReached(c: Command, j: nat)
    requires WellFormed(c) && !c.Basic? && |Sign(Amount(c).whole)| < j <= |Amount(c).FormatF()|
    ensures ParseCommand(Head(c) + Amount(c).FormatF()[..j]) == Ok(c)
       <==> j + FractionSlack(Amount(c)) >= |Amount(c).FormatF()|
  {
    var x := Amount(c);
    var g, d, f := AmountPrefix(x, j);
    var a := x.FormatF()[..j];
    if c.Query? {
      Print600();
      ParsePrinted(600);
      assert "" + (d + f) == d + f;
      QueryReached("600", a, x, d, f);
    } else {
      ParsePrinted(c.variable.whole);
      FormatDOf(c.variable);
      WriteReached(c.variable.FormatD(), a, c.variable, x, g, d, f);
    }
  }

  lemma QueryReached(n: Bytes, a: Bytes, v: Number, d: Bytes, f: Bytes)
    requires n != "" && AllDigits(n) && ParseNumber(n) == Ok(MACRO_VARIABLE)
    requires P.AmountParts("", d, f, false) && a == d + f
    ensures ParseCommand("?Q" + (n + " ") + a) == Ok(Query(v)) <==> ParseNumber(a) == Ok(v)
  {
    hide ParseNumber, ParseQuery, ParseCommand, P.ScanQuery;
    var args := n + (" " + (a + ""));
    assert P.AllIn(P.Digit, n) && P.AllIn(P.Space, " ");
    P.ScanFullQuery(n, " ", a, "", d, f);
    ParsePrefixed(args);
    assert "?Q" + (n + " ") + a == "?Q" + args;
    QueryOf(args, n, a);
  }

  lemma QueryOf(args: Bytes, n: Bytes, a: Bytes)
    requires P.ScanQuery(args) == Some(map[P.Command := n, P.Variable := a]) && a != ""
             && ParseNumber(n) == Ok(MACRO_VARIABLE)
    ensures ParseQuery(args) == match ParseNumber(a)
                                case Err(e) => Err(BadVariable(e))
                                case Ok(v) => Ok(Query(v))
  {
    hide ParseNumber, P.ScanQuery;
  }

  lemma WriteReached(n: Bytes, a: Bytes, v: Number, x: Number, g: Bytes, d: Bytes, f: Bytes)
    requires n != "" && AllDigits(n) && ParseNumber(n) == Ok(v) && P.AmountParts(g, d, f, true) && a == g + (d + f)
    ensures ParseCommand("?E" + (n + " ") + a) == Ok(Write(v, x)) <==> ParseNumber(a) == Ok(x)
  {
    hide ParseNumber, ParseWrite, ParseCommand, P.ScanWrite;
    var args := n + (" " + (a + ""));
    assert P.AllIn(P.Digit, n) && P.AllIn(P.Space, " ");
    P.ScanWriteParts(n, " ", a, "", g, d, f);
    ParsePrefixed(args);
    assert "?E" + (n + " ") + a == "?E" + args;
    WriteTo(args, n, a, v);
  }

  lemma WriteTo(args: Bytes, n: Bytes, a: Bytes, v: Number)
    requires P.ScanWrite(args) == Some(map[P.Variable := n, P.Value := a]) && n != "" && a != ""
             && ParseNumber(n) == Ok(v)
    ensures ParseWrite(args) == match ParseNumber(a)
                                case Err(e) => Err(BadValue(e))
                                case Ok(x) => Ok(Write(v, x))
  {
    hide ParseNumber, P.ScanWrite;
  }

  /** The beginnings of a query without its variable are basic commands or nothing. */
  lemma QueryMissing(t: Bytes, m: nat)
    requires m <= 6 && t == ("?Q" + ("600" + " "))[..m]
    ensures var r := ParseCommand(t); r.Ok? ==> r.value.Basic?
  {
    hide ParseQuery, ParseWrite, P.ScanQuery;
    if m >= 3 {
      var k := if m == 6 then 3 else m - 2;
      var d, w := "600"[..k], if m == 6 then " " else "";
      assert d + w == "600 "[..m - 2] && t == "?Q" + (d + w);
      assert P.AllIn(P.Digit, "600") && P.AllIn(P.Digit, d);
      P.ScanBareQuery(d, w);
      ParsePrefixed(d + w);
      BareQuery(d + w, d);
    }
  }

  lemma BareQuery(args: Bytes, d: Bytes)
    requires P.ScanQuery(args) == Some(map[P.Command := d])
    ensures var r := ParseQuery(args); r.Ok? ==> r.value.Basic?
  {
    hide ParseNumber, P.ScanQuery;
  }

  /** The beginnings of a write without a digit of its value are nothing. */
  lemma WriteMissing(v: Bytes, g: Bytes, t: Bytes, m: nat)
    requires v != "" && AllDigits(v) && (g == "" || g == "-")
    requires m <= |v| + 3 + |g| && t == ("?E" + (v + " ") + g)[..m]
    ensures ParseCommand(t).Err?
  {
    hide ParseQuery, ParseWrite, P.ScanWrite;
    if m >= 3 {
      var args := (v + (" " + g))[..m - 2];
      assert t == "?E" + args;
      ParsePrefixed(args);
      NoValueScanned(v, g, m - 2);
      assert ParseWrite(args).Err? by { NoScan(args); }
    }
  }

  lemma NoScan(args: Bytes)
    requires P.ScanWrite(args) == None
    ensures ParseWrite(args).Err?
  {
    hide P.ScanWrite;
  }

  lemma NoValueScanned(v: Bytes, g: Bytes, k: nat)
    requires v != "" && AllDigits(v) && (g == "" || g == "-") && 0 < k <= |v| + 1 + |g|
    ensures P.ScanWrite((v + (" " + g))[..k]) == None
  {
    hide P.Span;
    var s := (v + (" " + g))[..k];
    assert P.AllIn(P.Digit, v);
    if k <= |v| {
      assert s == v[..k] && s + "" == s && P.AllIn(P.Digit, v[..k]);
      P.SpanOf(P.Digit, s, "");
      assert P.Span(P.Space, "") == 0;
    } else {
      var u := g[..k - |v| - 1];
      assert s == v + (" " + u);
      P.SpanOf(P.Digit, v, " " + u);
      assert P.AllIn(P.Space, " ");
      P.SpanOf(P.Space, " ", u);
      assert u == "" || u == "-";
      NoAmount(u);
    }
  }

  lemma NoAmount(u: Bytes)
    requires u == "" || u == "-"
    ensures P.AmountLength(u, true) == 0
  {
    if u == "-" { assert u[1..] == ""; } else { assert u[0..] == ""; }
  }

  lemma NoWrite(v: Number, x: Number, m: nat)
    requires WellFormed(Write(v, x)) && m <= |Head(Write(v, x))| + |Sign(x.whole)|
    ensures m <= |Write(v, x).Line()| && ParseCommand(Write(v, x).Line()[..m]).Err?
  {
    LineParts(Write(v, x));
    SignAndDigits(x.whole);
    ParsePrinted(v.whole);
    FormatDOf(v);
    hide ParseCommand, Command.Line, Digits;
    assert x.FormatF()[..|Sign(x.whole)|] == Sign(x.whole);
    WriteMissing(v.FormatD(), Sign(x.whole), Write(v, x).Line()[..m], m);
  }

  /** Before the first digit of its amount nothing of a line parses to the command. */
  lemma AmountMissing(c: Command, m: nat)
    requires WellFormed(c) && !c.Basic? && m <= |Head(c)| + |Sign(Amount(c).whole)|
    ensures m <= |c.Line()| && ParseCommand(c.Line()[..m]) != Ok(c)
  {
    LineParts(c);
    SignAndDigits(Amount(c).whole);
    hide ParseCommand, Command.Line, Digits;
    assert Amount(c).FormatF()[..|Sign(Amount(c).whole)|] == Sign(Amount(c).whole);
    var t := c.Line()[..m];
    assert t == (Head(c) + Sign(Amount(c).whole))[..m];
    if c.Query? {
      QueryMissing(t, m);
    } else {
      NoWrite(c.variable, c.value, m);
    }
  }

  /** A basic command needs all of its digits. */
  lemma BasicReached(n: Number, m: nat)
    requires WellFormed(Basic(n)) && m <= |Basic(n).Line()|
    ensures ParseCommand(Basic(n).Line()[..m]) == Ok(Basic(n)) <==> m == |Basic(n).Line()|
  {
    FormatDOf(n);
    SignAndDigits(n.whole);
    var d := n.FormatD();
    assert Basic(n).Line() == "?Q" + d;
    if m >= 3 {
      var k := m - 2;
      IntegerPrefix(n.whole, k);
      hide ParseNumber, ParseQuery, ParseCommand, P.ScanQuery, Number.FormatD, ParseInt, Digits;
      assert P.AllIn(P.Digit, d[..k]);
      assert d[..k] + "" == d[..k] && Basic(n).Line()[..m] == "?Q" + d[..k];
      P.ScanBareQuery(d[..k], "");
      ParsePrefixed(d[..k]);
      ParseParts("", d[..k], "");
      assert "" + (d[..k] + "") == d[..k] && "" + d[..k] == d[..k];
      BareNumber(d[..k], n);
    }
  }

  lemma BareNumber(d: Bytes, n: Number)
    requires WellFormed(Basic(n)) && P.ScanQuery(d) == Some(map[P.Command := d])
    ensures ParseQuery(d) == Ok(Basic(n)) <==> ParseNumber(d) == Ok(n)
  {
    hide ParseNumber, P.ScanQuery;
  }

  // ----- the theorem

  /** A beginning of a command's line parses to the command exactly when no more than the slack is missing. */
  lemma LineReached(c: Command, m: nat)
    requires WellFormed(c) && m <= |c.Line()|
    ensures ParseCommand(c.Line()[..m]) == Ok(c) <==> m + Slack(c) >= |c.Line()|
  {
    hide ParseCommand, Command.Line, Number.FormatF, WellFormed;
    if c.Basic? {
      BasicReached(c.number, m);
    } else {
      LineParts(c);
      AmountIsNumber(c);
      var start := |Head(c)| + |Sign(Amount(c).whole)|;
      if m <= start {
        AmountMissing(c, m);
        AmountLong(c);
      } else {
        var j := m - |Head(c)|;
        AmountReached(c, j);
        assert c.Line()[..m] == Head(c) + Amount(c).FormatF()[..j];
      }
    }
  }

  /** There is always a digit between the sign and the slack. */
  lemma AmountLong(c: Command)
    requires WellFormed(c) && !c.Basic?
    ensures |Amount(c).FormatF()| > |Sign(Amount(c).whole)| + FractionSlack(Amount(c))
  {
    SignAndDigits(Amount(c).whole);
    NumeralShape(Amount(c).frac);
  }

  lemma TrimmedText(c: Command)
    ensures TrimSpace(c.Line() + "\n") == c.Line()
  {
    hide Command.Line;
    LineClean(c);
    TrimTight(c.Line());
    TrimRightOf(c.Line(), "\n");
    assert TrimLeft(c.Line() + "\n") == c.Line() + "\n";
  }

  /** Trimming takes nothing from a beginning that reaches the slack. */
  lemma ReachedTight(c: Command, n: nat)
    requires WellFormed(c) && n <= |c.Line()| && n + Slack(c) >= |c.Line()|
    ensures Tight(c.Line()[..n])
  {
    hide Command.Line, Number.FormatF, WellFormed, Tight;
    if c.Basic? {
      LineClean(c);
      assert c.Line()[..n] == c.Line();
    } else {
      LineParts(c);
      AmountIsNumber(c);
      AmountLong(c);
      var j := n - |Head(c)|;
      assert c.Line()[..n] == Head(c) + Amount(c).FormatF()[..j];
      CutAmountTight(Amount(c), j);
      HeadVisible(c);
      TightJoin(Head(c), Amount(c).FormatF()[..j]);
    }
  }

  lemma CutAmountTight(x: Number, j: nat)
    requires x.Num? && |Sign(x.whole)| < j <= |x.FormatF()|
    ensures Tight(x.FormatF()[..j])
  {
    hide ParseNumber, Number.FormatF, Sign, Tight;
    var g, d, f := AmountPrefix(x, j);
    AmountTight(g, d, f);
  }

  lemma HeadVisible(c: Command)
    requires !c.Basic?
    ensures Head(c) != "" && !IsTrimSpace(Head(c)[0])
  {
    hide Number.FormatD;
  }

  lemma TightJoin(h: Bytes, t: Bytes)
    requires h != "" && !IsTrimSpace(h[0]) && t != "" && Tight(t)
    ensures Tight(h + t)
  {
  }

  lemma AmountIsNumber(c: Command)
    requires WellFormed(c) && !c.Basic?
    ensures Amount(c).Num?
  {
  }

  /**
   A command cut short. Whatever a broken connection leaves of a command's text,
   it parses to that very command if and only if it lacks no more than the line
   feed and, when the fraction is zero, the point and the zero.
   */
  lemma CutReparses(c: Command, n: nat)
    requires WellFormed(c) && n <= |c.Text()|
    ensures ParseCommand(TrimSpace(c.Text()[..n])) == Ok(c) <==> n + Slack(c) >= |c.Line()|
  {
    hide ParseCommand, Command.Line, TrimSpace, WellFormed, Slack;
    LineClean(c);
    if n > |c.Line()| {
      assert c.Text()[..n] == c.Line() + "\n";
      CommandRoundTrip(c);
      TrimmedText(c);
    } else {
      assert c.Text()[..n] == c.Line()[..n];
      var m := TrimmedPrefix(c, n);
      assert c.Text()[..m] == c.Line()[..m];
      LineReached(c, m);
      if n + Slack(c) >= |c.Line()| {
        ReachedTight(c, n);
        TrimTight(c.Line()[..n]);
      }
    }
  }

  /**
   What any beginning of a write is read as: no command before the first digit of
   its value, and from there on a write of the same variable to the number that the
   digits so far denote, as they always do.
   */
  lemma CutWrite(v: Number, x: Number, n: nat)
    requires WellFormed(Write(v, x)) && n <= |Write(v, x).Line()|
    ensures var c := Write(v, x);
            var r, start := ParseCommand(TrimSpace(c.Text()[..n])), |Head(c)|;
            if n <= start + |Sign(x.whole)| then r.Err?
            else
              && n - start <= |x.FormatF()| && ParseNumber(x.FormatF()[..n - start]).Ok?
              && r == Ok(Write(v, ParseNumber(x.FormatF()[..n - start]).value))
  {
    hide ParseCommand, Command.Line, TrimSpace, Number.FormatF, Number.FormatD, ParseNumber, Sign;
    var c := Write(v, x);
    LineParts(c);
    LineClean(c);
    assert c.Text()[..n] == c.Line()[..n];
    if n <= |Head(c)| + |Sign(x.whole)| {
      var m := TrimmedPrefix(c, n);
      assert c.Text()[..m] == c.Line()[..m];
      NoWrite(v, x, m);
    } else {
      var j := n - |Head(c)|;
      assert c.Line()[..n] == Head(c) + x.FormatF()[..j];
      CutAmountTight(x, j);
      HeadVisible(c);
      TightJoin(Head(c), x.FormatF()[..j]);
      TrimTight(c.Line()[..n]);
      var g, d, f := AmountPrefix(x, j);
      ParsePrinted(v.whole);
      FormatDOf(v);
      WriteReached(v.FormatD(), x.FormatF()[..j], v, ParseNumber(x.FormatF()[..j]).value, g, d, f);
    }
  }

  /** A write of 12.5 cut short is a write of 1. */
  lemma ShortenedWrite()
    ensures ParseCommand(TrimSpace(Write(Num(5, 0), Num(12, 5)).Text()[..5])) == Ok(Write(Num(5, 0), Num(1, 0)))
  {
    var long, short := Write(Num(5, 0), Num(12, 5)), Write(Num(5, 0), Num(1, 0));
    assert Numeral(1) == "1" && Numeral(5) == "5" && Numeral(0) == "0" && Numeral(12) == "12";
    assert short.Line() == "?E5 1.0" && long.Line() == "?E5 12.5";
    hide ParseCommand, TrimSpace;
    assert long.Text()[..5] == "?E5 1" && short.Text()[..5] == "?E5 1";
    CutReparses(short, 5);
  }
}
