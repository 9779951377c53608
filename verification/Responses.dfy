/** Responses: what a client makes of the payload answering a command, and how it is printed again. */
module Responses {
  import opened Wrappers
  import opened Bytes
  import opened Decimal
  import opened Numbers
  import opened Commands
  import Patterns

  datatype Response = Value(value: Number) | Opaque(buffer: Bytes, success: bool) {
    /** What `WriteTo` emits. */
    function Text(): Bytes { if Value? then "MACRO, " + value.FormatF() else buffer }
  }

  /** Position of the first `, ` in s, or |s|. */
  function SeparatorAt(s: Bytes): (n: nat)
    ensures n <= |s|
    ensures n < |s| ==> n + 2 <= |s| && s[n..n + 2] == ", "
  {
    if |s| < 2 then |s|
    else if s[..2] == ", " then 0
    else
      var n := SeparatorAt(s[1..]);
      assert n < |s| - 1 ==> s[1..][n..n + 2] == s[n + 1..n + 3];
      n + 1
  }

  /** `bytes.Split(s, ", ")`. */
  function SplitFields(s: Bytes): (r: seq<Bytes>)
    ensures r != []
  {
    var n := SeparatorAt(s);
    if n == |s| then [s] else [s[..n]] + SplitFields(s[n + 2..])
  }

  /** The `ParseResponse` method of each kind of command. */
  function ParseResponse(c: Command, buf: Bytes): Response {
    match c
    case Basic(_) => Opaque(buf, false)
    case Write(_, _) => Opaque(buf, buf == "!")
    case Query(_) =>
      var parts := SplitFields(buf);
      if |parts| != 2 then Opaque(buf, false)
      else
        match ParseNumber(parts[1])
        case Ok(n) => Value(n)
        case Err(_) => Opaque(buf, false)
  }

  lemma {:induction false} NoSeparator(s: Bytes)
    requires ',' !in s
    ensures SeparatorAt(s) == |s|
  {
    if |s| >= 2 {
      assert s[..2][0] == s[0];
      NoSeparator(s[1..]);
    }
  }

  lemma FormatHasNoComma(n: Number)
    ensures ',' !in n.FormatF()
  {
    if n.Num? {
      var g, d, f := FormatParts(n);
      PrintShape(n.frac);
      assert forall i | 0 <= i < |d| :: IsDigit(d[i]) by { assert Patterns.AllIn(Patterns.Digit, d); }
    }
  }

  lemma MacroFields(t: Bytes)
    requires ',' !in t
    ensures SplitFields("MACRO, " + t) == ["MACRO", t]
  {
    var s := "MACRO, " + t;
    NoSeparator(t);
    Label(t);
    assert s[..5] == "MACRO" && s[7..] == t;
    assert SplitFields(t) == [t];
  }

  /** The value a backend reports for a macro variable is read back exactly, NaN included. */
  lemma ReportedValue(v: Number, n: Number)
    ensures ParseResponse(Query(v), "MACRO, " + n.FormatF()) == Value(n)
  {
    hide ParseNumber, Number.FormatF, SplitFields;
    FormatHasNoComma(n);
    MacroFields(n.FormatF());
    NumberRoundTrip(n);
  }

  lemma Label(t: Bytes)
    ensures SeparatorAt("MACRO, " + t) == 5
  {
    var s := "MACRO, " + t;
    assert s[0..][..2] == "MA" && s[1..][..2] == "AC" && s[2..][..2] == "CR" && s[3..][..2] == "RO"
           && s[4..][..2] == "O,";
    assert s[1..][1..] == s[2..] && s[2..][1..] == s[3..] && s[3..][1..] == s[4..] && s[4..][1..] == s[5..];
    assert s[5..][..2] == ", ";
    assert SeparatorAt(s[5..]) == 0;
    assert SeparatorAt(s[4..]) == 1;
    assert SeparatorAt(s[3..]) == 2;
    assert SeparatorAt(s[2..]) == 3;
    assert SeparatorAt(s[1..]) == 4;
  }

  // ----- what each answer means

  /** No two fields are in it. */
  predicate Plain(s: Bytes) { forall i | 0 <= i < |s| - 1 :: !(s[i] == ',' && s[i + 1] == ' ') }

  lemma {:induction false} PlainHasNone(s: Bytes)
    ensures SeparatorAt(s) == |s| <==> Plain(s)
  {
    if |s| >= 2 {
      PlainHasNone(s[1..]);
      assert s[..2] == [s[0], s[1]];
      if Plain(s[1..]) && s[..2] != ", " {
        forall i | 0 <= i < |s| - 1 ensures !(s[i] == ',' && s[i + 1] == ' ') {
          if i > 0 { assert s[i] == s[1..][i - 1] && s[i + 1] == s[1..][i]; }
        }
      }
      if Plain(s) {
        forall i | 0 <= i < |s[1..]| - 1 ensures !(s[1..][i] == ',' && s[1..][i + 1] == ' ') {
          assert s[1..][i] == s[i + 1] && s[1..][i + 1] == s[i + 2];
        }
      }
    }
  }

  /** The first separator is where it is put, after a field. */
  lemma {:induction false} FirstSeparator(name: Bytes, rest: Bytes)
    requires Plain(name)
    ensures SeparatorAt(name + (", " + rest)) == |name|
  {
    var s := name + (", " + rest);
    if name == "" {
      assert s[..2] == ", ";
    } else {
      assert s[1..] == name[1..] + (", " + rest) && s[..2] == [s[0], s[1]] && s[0] == name[0];
      assert Plain(name[1..]) by {
        forall i | 0 <= i < |name[1..]| - 1 ensures !(name[1..][i] == ',' && name[1..][i + 1] == ' ') {
          assert name[1..][i] == name[i + 1] && name[1..][i + 1] == name[i + 2];
        }
      }
      FirstSeparator(name[1..], rest);
    }
  }

  /** A separator found comes after a field. */
  lemma {:induction false} SeparatedField(s: Bytes)
    requires SeparatorAt(s) < |s|
    ensures Plain(s[..SeparatorAt(s)])
  {
    var n := SeparatorAt(s);
    if n > 0 {
      SeparatedField(s[1..]);
      assert s[1..][..n - 1] == s[1..n] && s[..2] == [s[0], s[1]];
      forall i | 0 <= i < n - 1 ensures !(s[..n][i] == ',' && s[..n][i + 1] == ' ') {
        if i > 0 { assert s[..n][i] == s[1..n][i - 1] && s[..n][i + 1] == s[1..n][i]; }
      }
    }
  }

  /**
   The answer to a query is a value if and only if it consists of two fields of
   which the second is a number; that number is the value. Any other answer is
   passed on as it is, as a failure.
   */
  lemma QueryAnswer(v: Number, name: Bytes, text: Bytes)
    requires Plain(name) && Plain(text)
    ensures var buf := name + (", " + text);
            ParseResponse(Query(v), buf)
            == match ParseNumber(text) case Ok(n) => Value(n) case Err(_) => Opaque(buf, false)
  {
    hide ParseNumber;
    var buf := name + (", " + text);
    FirstSeparator(name, text);
    PlainHasNone(text);
    assert buf[..|name|] == name && buf[|name| + 2..] == text;
    assert SplitFields(text) == [text];
    assert SplitFields(buf) == [name, text];
  }

  lemma OnlyQueryAnswer(v: Number, buf: Bytes) returns (name: Bytes, text: Bytes)
    ensures var r := ParseResponse(Query(v), buf);
            if r.Value? then
              Plain(name) && Plain(text) && buf == name + (", " + text) && ParseNumber(text) == Ok(r.value)
            else r == Opaque(buf, false)
  {
    var n := SeparatorAt(buf);
    name, text := buf[..n], if n < |buf| then buf[n + 2..] else "";
    hide ParseNumber;
    if |SplitFields(buf)| == 2 { TwoFields(buf); }
    hide SeparatorAt, SplitFields, Plain;
  }

  /** Two fields are what is before and after the only separator. */
  lemma TwoFields(buf: Bytes)
    requires |SplitFields(buf)| == 2
    ensures var n := SeparatorAt(buf);
            && n < |buf| && Plain(buf[..n]) && Plain(buf[n + 2..])
            && buf == buf[..n] + (", " + buf[n + 2..]) && SplitFields(buf)[1] == buf[n + 2..]
  {
    hide SplitFields, SeparatorAt, Plain;
    var n := SeparatorAt(buf);
    SplitStep(buf);
    SplitStep(buf[n + 2..]);
    SeparatedField(buf);
    PlainHasNone(buf[n + 2..]);
    AroundSeparator(buf, n);
  }

  lemma AroundSeparator(s: Bytes, n: nat)
    requires n + 2 <= |s| && s[n..n + 2] == ", "
    ensures s == s[..n] + (", " + s[n + 2..])
  {
  }

  lemma SplitStep(s: Bytes)
    ensures var n := SeparatorAt(s);
            if n == |s| then SplitFields(s) == [s]
            else SplitFields(s) == [s[..n]] + SplitFields(s[n + 2..]) && SplitFields(s[n + 2..]) != []
  {
    hide SeparatorAt;
  }

  /** A write has succeeded if and only if the answer is an exclamation mark; a basic command is never known to. */
  lemma OtherAnswers(n: Number, v: Number, x: Number, buf: Bytes)
    ensures ParseResponse(Write(v, x), buf) == Opaque(buf, buf == "!")
    ensures ParseResponse(Basic(n), buf) == Opaque(buf, false)
  {
  }

  /** Relaying a response and interpreting it again changes nothing, whatever the payload was. */
  lemma RelayIsTransparent(c: Command, buf: Bytes)
    ensures ParseResponse(c, ParseResponse(c, buf).Text()) == ParseResponse(c, buf)
  {
    hide ParseNumber, SplitFields, Number.FormatF;
    var r := ParseResponse(c, buf);
    if r.Value? {
      ReportedValue(c.variable, r.value);
    }
  }
}
