/** Commands of the wire protocol: the `?Q` and `?E` messages, their parser and their printed form. */
module Commands {
  import opened Wrappers
  import opened Bytes
  import opened Decimal
  import opened Numbers
  import P = Patterns

  /** The documented command numbers, in the order in which the package registers them. */
  const DOCUMENTED: seq<Number> := [
    Num(100, 0), Num(101, 0), Num(102, 0), Num(104, 0), Num(200, 0), Num(201, 0), Num(300, 0),
    Num(301, 0), Num(303, 0), Num(304, 0), Num(402, 0), Num(403, 0), Num(500, 0)
  ]

  const MACRO_VARIABLE: Number := Num(600, 0)

  /**
   A basic command is a canonical object; this model keeps its number, which
   `CanonicalMap` shows to identify the object and its `documented` flag.
   */
  datatype Command =
    | Basic(number: Number)
    | Query(variable: Number)
    | Write(variable: Number, value: Number)
  {
    /** The Q command number, if any. */
    function QNumber(): Option<Number> {
      match this
      case Basic(n) => Some(n)
      case Query(_) => Some(MACRO_VARIABLE)
      case Write(_, _) => None
    }

    predicate IsSafe() {
      match this
      case Basic(n) => n in DOCUMENTED || n == MACRO_VARIABLE
      case Query(v) => v.Whole() >= 0 && v.Frac() == 0
      case Write(_, _) => false
    }

    predicate IsWrite() { Write? }

    /** The macro variable; the zero number for a command without one. */
    function Variable(): Number {
      if Basic? then Num(0, 0) else variable
    }

    /** The text `WriteTo` emits, before its line feed. */
    function Line(): (s: Bytes)
    {
      match this
      case Basic(n) => "?Q" + n.FormatD()
      case Query(v) => "?Q" + ("600" + (" " + v.FormatF()))
      case Write(v, x) => "?E" + (v.FormatD() + (" " + x.FormatF()))
    }

    function Text(): Bytes { Line() + "\n" }
  }

  datatype ParseError =
    | Undersized | NoQuestionMark | BadCharacter
    | BadWrite | NoVariable | NoValue | BadVariable(e: NumberError) | BadValue(e: NumberError)
    | BadQuery | BadCommand(e: NumberError) | FractionalCommand

  function ParseCommand(bytes: Bytes): Result<Command, ParseError> {
    if |bytes| < 3 then Err(Undersized)
    else if bytes[0] != '?' then Err(NoQuestionMark)
    else if bytes[1] == 'E' then ParseWrite(bytes[2..])
    else if bytes[1] == 'Q' then ParseQuery(bytes[2..])
    else Err(BadCharacter)
  }

  function ParseWrite(args: Bytes): Result<Command, ParseError> {
    match P.ScanWrite(args)
    case None => Err(BadWrite)
    case Some(m) =>
      if m[P.Variable] == "" then Err(NoVariable)
      else if m[P.Value] == "" then Err(NoValue)
      else
        match ParseNumber(m[P.Variable])
        case Err(e) => Err(BadVariable(e))
        case Ok(v) =>
          match ParseNumber(m[P.Value])
          case Err(e) => Err(BadValue(e))
          case Ok(x) => Ok(Write(v, x))
  }

  function ParseQuery(args: Bytes): Result<Command, ParseError> {
    match P.ScanQuery(args)
    case None => Err(BadQuery)
    case Some(m) =>
      match ParseNumber(m[P.Command])
      case Err(e) => Err(BadCommand(e))
      case Ok(n) =>
        if n.Frac() != 0 then Err(FractionalCommand)
        else if n.Whole() == 600 then
          if P.Variable !in m || m[P.Variable] == "" then Err(NoVariable)
          else
            match ParseNumber(m[P.Variable])
            case Err(e) => Err(BadVariable(e))
            case Ok(v) => Ok(Query(v))
        else Ok(Basic(n))
  }

  /** What the parser can produce. */
  predicate WellFormed(c: Command) {
    match c
    case Basic(n) => n.Num? && n.whole >= 0 && n.frac == 0 && n.whole != 600
    case Query(v) => v.Num? && v.whole >= 0
    case Write(v, x) => v.Num? && v.whole >= 0 && v.frac == 0 && x.Num?
  }

  // ----- everything parsed is well formed

  lemma ParseDigits(d: Bytes)
    requires d != "" && AllDigits(d)
    ensures var r := ParseNumber(d); r.Ok? ==> r.value.Num? && r.value.whole >= 0 && r.value.frac == 0
  {
    hide ParseNumber;
    assert P.AllIn(P.Digit, d);
    ParseParts("", d, "");
    assert "" + (d + "") == d && "" + d == d;
    assert IsDigit(d[0]);
  }

  lemma ParseAmount(s: Bytes, signed: bool)
    requires P.AmountLength(s, signed) > 0
    ensures var r := ParseNumber(s[..P.AmountLength(s, signed)]);
            r.Ok? ==> r.value.Num? && (!signed ==> r.value.whole >= 0)
  {
    hide ParseNumber, P.AmountLength;
    var g, d, f := P.AmountSplit(s, signed);
    ParseParts(g, d, f);
    if !signed {
      assert "" + d == d;
      assert P.In(P.Digit, d[0]);
    }
  }

  /** The parser yields well-formed commands only. */
  lemma ParsedIsWellFormed(bytes: Bytes)
    ensures var r := ParseCommand(bytes); r.Ok? ==> WellFormed(r.value)
  {
    hide ParseNumber, P.Span, P.AmountLength;
    if ParseCommand(bytes).Ok? {
      var args := bytes[2..];
      var k := P.Span(P.Digit, args);
      ParseDigits(args[..k]);
      var t := args[k..][P.Span(P.Space, args[k..])..];
      if bytes[1] == 'E' {
        ParseAmount(t, true);
      } else if t != "" {
        ParseAmount(t, false);
      }
    }
  }

  // ----- printing, then parsing

  lemma ParsePrinted(w: Int64)
    requires w >= 0
    ensures Print(w) != "" && AllDigits(Print(w)) && ParseNumber(Print(w)) == Ok(Num(w, 0))
  {
    hide ParseNumber, ParseInt;
    PrintShape(w);
    var d := Print(w);
    assert P.AllIn(P.Digit, d);
    ParseParts("", d, "");
    assert "" + (d + "") == d && "" + d == d;
    ParseIntRoundTrip(w);
  }

  lemma ReparseBasic(n: Number, tail: Bytes)
    requires WellFormed(Basic(n)) && P.AllIn(P.Space, tail)
    ensures ParseQuery(n.FormatD() + tail) == Ok(Basic(n))
  {
    hide ParseNumber, P.ScanQuery;
    ParsePrinted(n.whole);
    P.ScanBareQuery(n.FormatD(), tail);
  }

  lemma ReparseQuery(v: Number, tail: Bytes)
    requires WellFormed(Query(v)) && P.AllIn(P.Space, tail)
    ensures ParseQuery("600" + (" " + (v.FormatF() + tail))) == Ok(Query(v))
  {
    hide ParseNumber, ParseQuery, P.ScanQuery, Number.FormatF, Print;
    QueryScanned(v, tail);
    NumberRoundTrip(v);
    Print600();
    ParsePrinted(600);
    FormatClean(v);
    QueryParsed("600" + (" " + (v.FormatF() + tail)), v.FormatF(), v);
  }

  lemma QueryScanned(v: Number, tail: Bytes)
    requires v.Num? && v.whole >= 0 && P.AllIn(P.Space, tail)
    ensures P.ScanQuery("600" + (" " + (v.FormatF() + tail)))
            == Some(map[P.Command := "600", P.Variable := v.FormatF()])
  {
    var g, d, f := FormatParts(v);
    assert P.AmountParts("", d, f, false) && v.FormatF() == d + f;
    assert P.AllIn(P.Digit, "600") && P.AllIn(P.Space, " ");
    hide P.ScanQuery, Number.FormatF, P.AllIn, P.AmountParts;
    P.ScanFullQuery("600", " ", v.FormatF(), tail, d, f);
  }

  lemma QueryParsed(args: Bytes, a: Bytes, v: Number)
    requires P.ScanQuery(args) == Some(map[P.Command := "600", P.Variable := a]) && a != ""
    requires ParseNumber("600") == Ok(MACRO_VARIABLE) && ParseNumber(a) == Ok(v)
    ensures ParseQuery(args) == Ok(Query(v))
  {
    hide ParseNumber, P.ScanQuery;
  }

  lemma Print600()
    ensures Print(600) == "600"
  {
    assert Numeral(6) == "6" && Numeral(60) == "60";
  }

  lemma ReparseWrite(v: Number, x: Number, tail: Bytes)
    requires WellFormed(Write(v, x)) && P.AllIn(P.Space, tail)
    ensures ParseWrite(v.FormatD() + (" " + (x.FormatF() + tail))) == Ok(Write(v, x))
  {
    ParsePrinted(v.whole);
    FormatDOf(v);
    hide ParseNumber, ParseWrite, P.ScanWrite, Number.FormatF, Number.FormatD, Print;
    WriteScanned(v.FormatD(), x, tail);
    NumberRoundTrip(x);
    FormatClean(x);
    WriteParsed(v.FormatD() + (" " + (x.FormatF() + tail)), v.FormatD(), x.FormatF(), v, x);
  }

  lemma WriteScanned(v: Bytes, x: Number, tail: Bytes)
    requires v != "" && AllDigits(v) && x.Num? && P.AllIn(P.Space, tail)
    ensures P.ScanWrite(v + (" " + (x.FormatF() + tail))) == Some(map[P.Variable := v, P.Value := x.FormatF()])
  {
    var g, d, f := FormatParts(x);
    assert P.AllIn(P.Digit, v) && P.AllIn(P.Space, " ");
    hide P.ScanWrite, Number.FormatF, P.AllIn, P.AmountParts;
    P.ScanWriteParts(v, " ", x.FormatF(), tail, g, d, f);
  }

  lemma WriteParsed(args: Bytes, a: Bytes, b: Bytes, v: Number, x: Number)
    requires P.ScanWrite(args) == Some(map[P.Variable := a, P.Value := b]) && a != "" && b != ""
    requires ParseNumber(a) == Ok(v) && ParseNumber(b) == Ok(x)
    ensures ParseWrite(args) == Ok(Write(v, x))
  {
    hide ParseNumber, P.ScanWrite;
  }

  lemma ParsePrefixed(args: Bytes)
    requires args != ""
    ensures ParseCommand("?Q" + args) == ParseQuery(args) && ParseCommand("?E" + args) == ParseWrite(args)
  {
    hide ParseQuery, ParseWrite;
    assert ("?Q" + args)[2..] == args && ("?E" + args)[2..] == args;
  }

  /** A printed command, with or without white space after it, parses back. */
  lemma Reparse(c: Command, tail: Bytes)
    requires WellFormed(c) && P.AllIn(P.Space, tail)
    ensures ParseCommand(c.Line() + tail) == Ok(c)
  {
    hide ParseCommand, ParseQuery, ParseWrite, Number.FormatD, Number.FormatF, P.AllIn;
    match c {
      case Basic(n) =>
        var args := n.FormatD() + tail;
        assert c.Line() + tail == "?Q" + args;
        FormatNotEmpty(n);
        ReparseBasic(n, tail);
        ParsePrefixed(args);
      case Query(v) =>
        var args := "600" + (" " + (v.FormatF() + tail));
        assert c.Line() + tail == "?Q" + args;
        ReparseQuery(v, tail);
        ParsePrefixed(args);
      case Write(v, x) =>
        var args := v.FormatD() + (" " + (x.FormatF() + tail));
        assert c.Line() + tail == "?E" + args;
        ReparseWrite(v, x, tail);
        ParsePrefixed(args);
    }
  }

  lemma FormatNotEmpty(n: Number)
    ensures n.FormatD() != ""
  {
    if n.Num? { PrintShape(n.whole); }
  }

  /** The commands that survive printing and parsing are exactly those the parser produces. */
  lemma CommandRoundTrip(c: Command)
    ensures ParseCommand(c.Text()) == Ok(c) <==> WellFormed(c)
    ensures ParseCommand(c.Line()) == Ok(c) <==> WellFormed(c)
  {
    hide ParseCommand, Command.Line;
    ParsedIsWellFormed(c.Text());
    ParsedIsWellFormed(c.Line());
    if WellFormed(c) {
      Reparse(c, "\n");
      Reparse(c, "");
      assert c.Line() + "" == c.Line();
    }
  }

  /** Printing is a normal form: any accepted text, printed and parsed again, is the same command. */
  lemma PrintingIsNormalForm(bytes: Bytes)
    requires ParseCommand(bytes).Ok?
    ensures ParseCommand(ParseCommand(bytes).value.Text()) == ParseCommand(bytes)
  {
    hide ParseCommand;
    ParsedIsWellFormed(bytes);
    CommandRoundTrip(ParseCommand(bytes).value);
  }

  // ----- the printed line

  /** No line feed, nothing to trim, a question mark first. */
  predicate CleanLine(s: Bytes) { |s| >= 3 && s[0] == '?' && Tight(s) && LF !in s }

  lemma FormatClean(n: Number)
    ensures LF !in n.FormatD() && LF !in n.FormatF()
    ensures n.FormatD() != "" && !IsTrimSpace(n.FormatD()[|n.FormatD()| - 1])
    ensures n.FormatF() != "" && !IsTrimSpace(n.FormatF()[|n.FormatF()| - 1])
  {
    if n.Num? {
      PrintClean(n.whole);
      PrintClean(n.frac);
      var s := n.FormatF();
      assert s[|s| - 1] == Print(n.frac)[|Print(n.frac)| - 1];
    }
  }

  lemma PrintClean(n: int)
    ensures Print(n) != "" && LF !in Print(n) && !IsTrimSpace(Print(n)[|Print(n)| - 1])
  {
    PrintShape(n);
    var s, m := Print(n), Magnitude(Print(n));
    assert forall i | 0 <= i < |s| :: s[i] == '-' || IsDigit(s[i]) by {
      forall i | 0 <= i < |s| ensures s[i] == '-' || IsDigit(s[i]) {
        if n < 0 && i > 0 { assert s[i] == m[i - 1]; }
        if n >= 0 { assert IsDigit(s[i]); }
      }
    }
  }

  lemma LineClean(c: Command)
    ensures CleanLine(c.Line())
  {
    hide Number.FormatD, Number.FormatF;
    var s := c.Line();
    match c {
      case Basic(n) =>
        FormatClean(n);
        assert s[|s| - 1] == n.FormatD()[|n.FormatD()| - 1];
      case Query(v) =>
        FormatClean(v);
        assert s[|s| - 1] == v.FormatF()[|v.FormatF()| - 1];
      case Write(v, x) =>
        FormatClean(v);
        FormatClean(x);
        assert s[|s| - 1] == x.FormatF()[|x.FormatF()| - 1];
    }
  }

  // ----- a command cut short

  /**
   A backend may be left with the beginning of a command when its connection
   breaks. Whatever such a beginning parses as: if it is a write, it is one to
   the variable of the command that was being sent, and that was a write.
   */
  lemma TruncatedWrite(c: Command, n: nat)
    requires WellFormed(c) && n <= |c.Text()|
    requires ParseCommand(TrimSpace(c.Text()[..n])).Ok? && ParseCommand(TrimSpace(c.Text()[..n])).value.Write?
    ensures c.Write? && ParseCommand(TrimSpace(c.Text()[..n])).value.variable == c.variable
  {
    hide ParseCommand, Command.Text, TrimSpace, WellFormed, ParseQuery, ParseWrite;
    var m := TrimmedPrefix(c, n);
    var t := c.Text()[..m];
    ParsedTag(t);
    if c.Write? {
      TruncatedVariable(c, m);
    } else {
      QueryTag(c);
      assert t[1] == c.Text()[1];
      NotAWrite(t[2..]);
    }
  }

  lemma TruncatedVariable(c: Command, m: nat)
    requires WellFormed(c) && c.Write? && m <= |c.Text()|
    requires ParseCommand(c.Text()[..m]).Ok? && ParseCommand(c.Text()[..m]).value.Write?
    ensures ParseCommand(c.Text()[..m]).value.variable == c.variable
  {
    VariableWhole(c);
    ParsePrinted(c.variable.whole);
    FormatDOf(c.variable);
    hide ParseCommand, Command.Text, WellFormed, ParseQuery, ParseWrite, ParseNumber, Number.FormatD, Print;
    var t := c.Text()[..m];
    ParsedTag(t);
    WriteText(c, m);
    assert t[1] == c.Text()[1] == c.Text()[..2][1];
    TruncatedCapture(c.variable.FormatD(), c.value.FormatF() + "\n", m - 2);
    WriteOf(t[2..]);
  }

  lemma VariableWhole(c: Command)
    requires WellFormed(c) && c.Write?
    ensures c.variable.Num? && c.variable.whole >= 0 && c.variable.frac == 0
  {
  }

  lemma QueryTag(c: Command)
    requires !c.Write?
    ensures |c.Text()| >= 2 && c.Text()[1] == 'Q'
  {
  }

  /** An accepted text is parsed by its second character. */
  lemma ParsedTag(t: Bytes)
    requires ParseCommand(t).Ok?
    ensures |t| >= 3 && (t[1] == 'Q' || t[1] == 'E')
    ensures ParseCommand(t) == if t[1] == 'Q' then ParseQuery(t[2..]) else ParseWrite(t[2..])
  {
  }

  lemma WriteText(c: Command, m: nat)
    requires c.Write? && 2 <= m <= |c.Text()|
    ensures |c.Text()| == 2 + |c.variable.FormatD() + (" " + (c.value.FormatF() + "\n"))|
    ensures c.Text()[..2] == "?E"
    ensures c.Text()[..m][2..] == (c.variable.FormatD() + (" " + (c.value.FormatF() + "\n")))[..m - 2]
  {
    hide Number.FormatD, Number.FormatF;
    var args := c.variable.FormatD() + (" " + (c.value.FormatF() + "\n"));
    assert c.Text() == "?E" + args;
  }

  lemma FormatDOf(n: Number)
    requires n.Num?
    ensures n.FormatD() == Print(n.whole)
  {
  }

  lemma NotAWrite(args: Bytes)
    ensures var r := ParseQuery(args); r.Ok? ==> !r.value.Write?
  {
  }

  lemma WriteOf(args: Bytes)
    requires ParseWrite(args).Ok? && ParseWrite(args).value.Write?
    ensures P.ScanWrite(args).Some?
    ensures ParseNumber(P.ScanWrite(args).value[P.Variable]) == Ok(ParseWrite(args).value.variable)
  {
  }

  /** Trimming a beginning of a printed command leaves a beginning of it. */
  lemma TrimmedPrefix(c: Command, n: nat) returns (m: nat)
    requires n <= |c.Text()|
    ensures m <= n && TrimSpace(c.Text()[..n]) == c.Text()[..m]
  {
    hide Command.Line;
    LineClean(c);
    var p := c.Text()[..n];
    if n > 0 { assert p[0] == '?'; }
    assert TrimLeft(p) == p;
    m := TrimRightShape(p);
    assert p[..m] == c.Text()[..m];
  }

  /** However much of a write is there, its variable is captured whole or not at all. */
  lemma TruncatedCapture(v: Bytes, rest: Bytes, n: nat)
    requires v != "" && AllDigits(v) && n <= |v + (" " + rest)|
    ensures var r := P.ScanWrite((v + (" " + rest))[..n]); r.Some? ==> r.value[P.Variable] == v
  {
    hide P.Span, P.AmountLength;
    var s := (v + (" " + rest))[..n];
    assert P.AllIn(P.Digit, v);
    if n <= |v| {
      assert s == v[..n] && s + "" == s;
      P.SpanOf(P.Digit, s, "");
    } else {
      var u := (" " + rest)[..n - |v|];
      assert s == v + u && u[0] == ' ';
      P.SpanOf(P.Digit, v, u);
    }
  }
}
