/**
 The three anchored regular expressions of the wire grammar, as syntax trees
 with a declarative matching relation, and a left-to-right recognizer for each.
 A pattern may split a text in many ways; the theorems say that the captured
 groups never depend on the split, and that the recognizer finds them.
 */
module Patterns {
  import opened Wrappers
  import opened Bytes
  import opened Decimal

  datatype Class = Digit | Space | Sign | Dot

  predicate In(k: Class, c: char) {
    match k
    case Digit => IsDigit(c)
    case Space => IsPatternSpace(c)
    case Sign => IsSign(c)
    case Dot => c == '.'
  }

  predicate AllIn(k: Class, s: Bytes) { forall i | 0 <= i < |s| :: In(k, s[i]) }

  datatype Group = Command | Variable | Value | Whole | Frac

  type Captures = map<Group, Bytes>

  /** `One` is a single character, `Run(k, n)` is `k*` or `k+` for n = 0 or 1. */
  datatype Re =
    | One(k: Class)
    | Run(k: Class, least: nat)
    | Opt(r: Re)
    | Cat(a: Re, b: Re)
    | Capture(g: Group, r: Re)

  /** Some way to match all of s captures exactly caps. */
  ghost predicate Matches(re: Re, s: Bytes, caps: Captures)
    decreases re
  {
    match re
    case One(k) => |s| == 1 && In(k, s[0]) && caps == map[]
    case Run(k, n) => |s| >= n && AllIn(k, s) && caps == map[]
    case Opt(r) => (s == "" && caps == map[]) || Matches(r, s, caps)
    case Cat(a, b) =>
      exists i: nat, x, y | i <= |s| && Matches(a, s[..i], x) && Matches(b, s[i..], y) :: caps == x + y
    case Capture(g, r) => exists inner | Matches(r, s, inner) :: caps == inner[g := s]
  }

  // ----- the patterns of the source

  /** `\.\d*`, `\d+(?:\.\d*)?` and `[+-]?\d+(?:\.\d*)?`. */
  const FRACTION := Cat(One(Dot), Run(Digit, 0))
  const UNSIGNED := Cat(Run(Digit, 1), Opt(FRACTION))
  const SIGNED := Cat(Opt(One(Sign)), UNSIGNED)

  const NUMBER_PATTERN :=
    Cat(Run(Space, 0),
        Cat(Capture(Whole, Cat(Opt(One(Sign)), Run(Digit, 1))),
            Cat(Opt(Cat(One(Dot), Capture(Frac, Run(Digit, 0)))), Run(Space, 0))))

  const QUERY_PATTERN :=
    Cat(Capture(Command, Run(Digit, 1)),
        Cat(Opt(Cat(Run(Space, 1), Opt(Capture(Variable, UNSIGNED)))), Run(Space, 0)))

  const WRITE_PATTERN :=
    Cat(Capture(Variable, Run(Digit, 1)),
        Cat(Run(Space, 1), Cat(Capture(Value, SIGNED), Run(Space, 0))))

  // ----- the recognizers

  /** Length of the longest prefix of s within the class. */
  function Span(k: Class, s: Bytes): (n: nat)
    ensures n <= |s| && AllIn(k, s[..n]) && (n < |s| ==> !In(k, s[n]))
  {
    if s == "" || !In(k, s[0]) then 0
    else
      var n := Span(k, s[1..]) + 1;
      assert s[..n] == [s[0]] + s[1..][..n - 1];
      n
  }

  function SignLength(s: Bytes): (n: nat)
    ensures n <= |s|
  {
    if s != "" && IsSign(s[0]) then 1 else 0
  }

  function FractionLength(s: Bytes): (n: nat)
    ensures n <= |s|
  {
    if s != "" && s[0] == '.' then 1 + Span(Digit, s[1..]) else 0
  }

  /** Length of the amount s begins with; 0 if it begins with none. */
  function AmountLength(s: Bytes, signed: bool): (n: nat)
    ensures n <= |s|
  {
    var g := if signed then SignLength(s) else 0;
    var d := Span(Digit, s[g..]);
    if d == 0 then 0 else g + d + FractionLength(s[g + d..])
  }

  /** What may follow the whole part of a number. */
  function ScanTail(u: Bytes): (r: Option<Captures>)
    ensures r.Some? ==> r.value.Keys <= {Frac} && (Frac in r.value ==> AllIn(Digit, r.value[Frac]))
  {
    if u != "" && u[0] == '.' then
      var f := Span(Digit, u[1..]);
      assert u[1..][..f] == u[1..f + 1];
      if AllIn(Space, u[f + 1..]) then Some(map[Frac := u[1..f + 1]]) else None
    else if AllIn(Space, u) then Some(map[])
    else None
  }

  function ScanNumber(s: Bytes): (r: Option<Captures>)
    ensures r.Some? ==> NumberCaptures(r.value)
  {
    ScanTight(s[Span(Space, s)..])
  }

  predicate NumberCaptures(c: Captures) {
    && {Whole} <= c.Keys <= {Whole, Frac}
    && IsNumeral(c[Whole]) && (Frac in c ==> AllDigits(c[Frac]))
  }

  /** A number without white space before it. */
  function ScanTight(t: Bytes): (r: Option<Captures>)
    ensures r.Some? ==> NumberCaptures(r.value)
  {
    var g := SignLength(t);
    var n := g + Span(Digit, t[g..]);
    if n == g then None
    else
      assert t[..n][g..] == t[g..][..n - g];
      match ScanTail(t[n..])
      case Some(tail) => Some(map[Whole := t[..n]] + tail)
      case None => None
  }

  function ScanQuery(s: Bytes): (r: Option<Captures>)
    ensures r.Some? ==> {Command} <= r.value.Keys <= {Command, Variable}
  {
    var c := Span(Digit, s);
    var rest := s[c..];
    var w := Span(Space, rest);
    var t := rest[w..];
    var n := AmountLength(t, false);
    if c == 0 then None
    else if t == "" then Some(map[Command := s[..c]])
    else if w == 0 || n == 0 || !AllIn(Space, t[n..]) then None
    else Some(map[Command := s[..c], Variable := t[..n]])
  }

  function ScanWrite(s: Bytes): (r: Option<Captures>)
    ensures r.Some? ==> r.value.Keys == {Variable, Value}
  {
    var v := Span(Digit, s);
    var rest := s[v..];
    var w := Span(Space, rest);
    var t := rest[w..];
    var n := AmountLength(t, true);
    if v == 0 || w == 0 || n == 0 || !AllIn(Space, t[n..]) then None
    else Some(map[Variable := s[..v], Value := t[..n]])
  }

  // ----- building and taking apart matches

  lemma CatIntro(a: Re, b: Re, s: Bytes, t: Bytes, x: Captures, y: Captures)
    requires Matches(a, s, x) && Matches(b, t, y)
    ensures Matches(Cat(a, b), s + t, x + y)
  {
    var u := s + t;
    assert u[..|s|] == s && u[|s|..] == t;
  }

  /** `CatIntro` when one side captures nothing. */
  lemma CatLeft(a: Re, b: Re, s: Bytes, t: Bytes, x: Captures)
    requires Matches(a, s, x) && Matches(b, t, map[])
    ensures Matches(Cat(a, b), s + t, x)
  {
    CatIntro(a, b, s, t, x, map[]);
    assert x + map[] == x;
  }

  lemma CatRight(a: Re, b: Re, s: Bytes, t: Bytes, y: Captures)
    requires Matches(a, s, map[]) && Matches(b, t, y)
    ensures Matches(Cat(a, b), s + t, y)
  {
    CatIntro(a, b, s, t, map[], y);
    assert map[] + y == y;
  }

  lemma CatElim(a: Re, b: Re, s: Bytes, caps: Captures) returns (p: Bytes, q: Bytes, x: Captures, y: Captures)
    requires Matches(Cat(a, b), s, caps)
    ensures s == p + q && Matches(a, p, x) && Matches(b, q, y) && caps == x + y
  {
    var i: nat, u, v :| i <= |s| && Matches(a, s[..i], u) && Matches(b, s[i..], v) && caps == u + v;
    p, q, x, y := s[..i], s[i..], u, v;
  }

  lemma CaptureIntro(g: Group, r: Re, s: Bytes, inner: Captures)
    requires Matches(r, s, inner)
    ensures Matches(Capture(g, r), s, inner[g := s])
  {
  }

  lemma CaptureElim(g: Group, r: Re, s: Bytes, caps: Captures) returns (inner: Captures)
    requires Matches(Capture(g, r), s, caps)
    ensures Matches(r, s, inner) && caps == inner[g := s]
  {
    inner :| Matches(r, s, inner) && caps == inner[g := s];
  }

  lemma RunIff(k: Class, n: nat, s: Bytes, caps: Captures)
    ensures Matches(Run(k, n), s, caps) <==> |s| >= n && AllIn(k, s) && caps == map[]
  {
  }

  lemma OneIff(k: Class, s: Bytes, caps: Captures)
    ensures Matches(One(k), s, caps) <==> |s| == 1 && In(k, s[0]) && caps == map[]
  {
  }

  lemma OptIff(r: Re, s: Bytes, caps: Captures)
    ensures Matches(Opt(r), s, caps) <==> (s == "" && caps == map[]) || Matches(r, s, caps)
  {
  }

  /** What follows does not continue a run of class k. */
  predicate Stops(k: Class, s: Bytes) { s == "" || !In(k, s[0]) }

  lemma {:induction false} SpanOf(k: Class, s: Bytes, t: Bytes)
    requires AllIn(k, s) && Stops(k, t)
    ensures Span(k, s + t) == |s|
    ensures (s + t)[..|s|] == s && (s + t)[|s|..] == t
  {
    if s == "" {
      assert s + t == t;
    } else {
      assert (s + t)[1..] == s[1..] + t;
      SpanOf(k, s[1..], t);
    }
  }

  lemma FractionShape(s: Bytes, caps: Captures)
    ensures Matches(FRACTION, s, caps) <==> s != "" && s[0] == '.' && AllIn(Digit, s[1..]) && caps == map[]
  {
    hide Matches;
    if Matches(FRACTION, s, caps) {
      var p, q, x, y := CatElim(One(Dot), Run(Digit, 0), s, caps);
      OneIff(Dot, p, x);
      RunIff(Digit, 0, q, y);
      assert s[1..] == q;
    }
    if s != "" && s[0] == '.' && AllIn(Digit, s[1..]) && caps == map[] {
      OneIff(Dot, s[..1], map[]);
      RunIff(Digit, 0, s[1..], map[]);
      CatIntro(One(Dot), Run(Digit, 0), s[..1], s[1..], map[], map[]);
      assert s == s[..1] + s[1..];
    }
  }

  /** An amount in parts: sign, digits, optional fraction. */
  ghost predicate AmountParts(g: Bytes, d: Bytes, f: Bytes, signed: bool) {
    && (g == "" || (signed && |g| == 1 && IsSign(g[0])))
    && d != "" && AllIn(Digit, d)
    && (f == "" || (f[0] == '.' && AllIn(Digit, f[1..])))
  }

  lemma UnsignedParts(s: Bytes, caps: Captures) returns (d: Bytes, f: Bytes)
    requires Matches(UNSIGNED, s, caps)
    ensures AmountParts("", d, f, false) && s == d + f && caps == map[]
  {
    hide Matches;
    var x, y;
    d, f, x, y := CatElim(Run(Digit, 1), Opt(FRACTION), s, caps);
    RunIff(Digit, 1, d, x);
    OptIff(FRACTION, f, y);
    FractionShape(f, y);
  }

  lemma SignedParts(s: Bytes, caps: Captures) returns (g: Bytes, d: Bytes, f: Bytes)
    requires Matches(SIGNED, s, caps)
    ensures AmountParts(g, d, f, true) && s == g + (d + f) && caps == map[]
  {
    hide Matches;
    var p, x, y;
    g, p, x, y := CatElim(Opt(One(Sign)), UNSIGNED, s, caps);
    OptIff(One(Sign), g, x);
    OneIff(Sign, g, x);
    d, f := UnsignedParts(p, y);
  }

  lemma PartsMatch(g: Bytes, d: Bytes, f: Bytes, signed: bool)
    requires AmountParts(g, d, f, signed)
    ensures Matches(if signed then SIGNED else UNSIGNED, g + (d + f), map[])
  {
    hide Matches;
    FractionShape(f, map[]);
    OptIff(FRACTION, f, map[]);
    RunIff(Digit, 1, d, map[]);
    CatIntro(Run(Digit, 1), Opt(FRACTION), d, f, map[], map[]);
    var none: Captures := map[];
    assert none + none == none;
    if signed {
      OneIff(Sign, g, map[]);
      OptIff(One(Sign), g, map[]);
      CatIntro(Opt(One(Sign)), UNSIGNED, g, d + f, map[], map[]);
    } else {
      assert g + (d + f) == d + f;
    }
  }

  predicate Ends(tail: Bytes) { tail == "" || IsPatternSpace(tail[0]) }

  lemma FractionLengthOf(f: Bytes, tail: Bytes)
    requires (f == "" || (f[0] == '.' && AllIn(Digit, f[1..]))) && Ends(tail)
    ensures FractionLength(f + tail) == |f| && Stops(Digit, f + tail)
  {
    hide Span;
    if f != "" {
      assert (f + tail)[1..] == f[1..] + tail;
      SpanOf(Digit, f[1..], tail);
    } else {
      assert f + tail == tail;
    }
  }

  lemma SignLengthOf(g: Bytes, r: Bytes)
    requires (g == "" || (|g| == 1 && IsSign(g[0]))) && r != "" && IsDigit(r[0])
    ensures SignLength(g + r) == |g| && (g + r)[|g|..] == r
  {
    assert (g + r)[|g|..] == r;
    if g == "" { assert g + r == r; }
  }

  /** Digits and signs end a run of white space, and white space a run of digits. */
  lemma ClassesDisjoint(g: Bytes, d: Bytes, u: Bytes)
    requires (g == "" || IsSign(g[0])) && d != "" && AllIn(Digit, d)
    ensures Stops(Space, g + (d + u))
  {
    var t := g + (d + u);
    if g == "" {
      assert t[0] == d[0] && In(Digit, d[0]);
    } else {
      assert t[0] == g[0];
    }
  }

  lemma SpaceStopsDigits(w: Bytes, t: Bytes)
    requires w != "" && AllIn(Space, w)
    ensures Stops(Digit, w + t)
  {
    assert (w + t)[0] == w[0] && In(Space, w[0]);
  }

  /** The recognizer takes exactly the amount, whatever white space follows. */
  lemma AmountLengthOf(g: Bytes, d: Bytes, f: Bytes, signed: bool, tail: Bytes)
    requires AmountParts(g, d, f, signed) && Ends(tail)
    ensures AmountLength(g + (d + (f + tail)), signed) == |g| + |d| + |f|
  {
    hide Span, FractionLength, SignLength;
    var r := f + tail;
    var u := d + r;
    var s := g + u;
    SignLengthOf(g, u);
    FractionLengthOf(f, tail);
    SpanOf(Digit, d, r);
    assert s[|g| + |d|..] == u[|d|..];
  }

  /** An amount the recognizer takes, in its parts. */
  lemma AmountSplit(s: Bytes, signed: bool) returns (g: Bytes, d: Bytes, f: Bytes)
    requires AmountLength(s, signed) > 0
    ensures AmountParts(g, d, f, signed) && s[..AmountLength(s, signed)] == g + (d + f)
  {
    hide Span, SignLength, FractionLength;
    var n := if signed then SignLength(s) else 0;
    var t := s[n..];
    var k := Span(Digit, t);
    var u := t[k..];
    assert s[n + k..] == u;
    FractionSound(u);
    if signed { SignSound(s); }
    g, d, f := s[..n], t[..k], u[..FractionLength(u)];
    ThreeCuts(s, n, k, |f|);
  }

  lemma ThreeCuts(s: Bytes, n: nat, k: nat, m: nat)
    requires n + k + m <= |s|
    ensures s[..n] + (s[n..][..k] + s[n..][k..][..m]) == s[..n + k + m]
  {
    assert s[n..][k..] == s[n + k..];
  }

  /** An amount the recognizer takes is one of the pattern's. */
  lemma AmountMatches(s: Bytes, signed: bool)
    requires AmountLength(s, signed) > 0
    ensures Matches(if signed then SIGNED else UNSIGNED, s[..AmountLength(s, signed)], map[])
  {
    hide Matches, AmountLength;
    var g, d, f := AmountSplit(s, signed);
    PartsMatch(g, d, f, signed);
  }

  lemma SignSound(s: Bytes)
    ensures SignLength(s) == 0 || (SignLength(s) == 1 && s != "" && IsSign(s[0]))
  {
  }

  lemma FractionSound(u: Bytes)
    ensures var f := u[..FractionLength(u)]; f == "" || (f[0] == '.' && AllIn(Digit, f[1..]))
  {
    hide Span;
    if FractionLength(u) > 0 {
      var k := Span(Digit, u[1..]);
      assert u[..1 + k][1..] == u[1..][..k];
    }
  }

  // ----- the theorems

  /** The write pattern: the recognizer finds exactly the captures of any match. */
  lemma WriteUnambiguous(s: Bytes, caps: Captures)
    ensures Matches(WRITE_PATTERN, s, caps) <==> ScanWrite(s) == Some(caps)
  {
    hide Matches, ScanWrite;
    if Matches(WRITE_PATTERN, s, caps) { WriteFound(s, caps); }
    if ScanWrite(s) == Some(caps) { WriteSound(s); }
  }

  /** Scanning a write given in parts. */
  lemma ScanWriteParts(v: Bytes, w: Bytes, a: Bytes, z: Bytes, g: Bytes, d: Bytes, f: Bytes)
    requires v != "" && AllIn(Digit, v) && w != "" && AllIn(Space, w) && AllIn(Space, z)
    requires AmountParts(g, d, f, true) && a == g + (d + f)
    ensures ScanWrite(v + (w + (a + z))) == Some(map[Variable := v, Value := a])
  {
    hide Span, AmountLength;
    var t := g + (d + (f + z));
    var r := w + t;
    SpaceStopsDigits(w, t);
    ClassesDisjoint(g, d, f + z);
    SpanOf(Digit, v, r);
    SpanOf(Space, w, t);
    AmountLengthOf(g, d, f, true, z);
    var n := |g| + |d| + |f|;
    assert t == a + z;
    assert t[..n] == a && t[n..] == z;
  }

  lemma WriteFound(s: Bytes, caps: Captures)
    requires Matches(WRITE_PATTERN, s, caps)
    ensures ScanWrite(s) == Some(caps)
  {
    hide Matches, ScanWrite, Span, AmountLength, AllIn, AmountParts, In;
    var v, r0, x0, y0 := CatElim(WRITE_PATTERN.a, WRITE_PATTERN.b, s, caps);
    var w, r1, x1, y1 := CatElim(WRITE_PATTERN.b.a, WRITE_PATTERN.b.b, r0, y0);
    var n, z, x2, y2 := CatElim(WRITE_PATTERN.b.b.a, WRITE_PATTERN.b.b.b, r1, y1);
    var i0 := CaptureElim(Variable, Run(Digit, 1), v, x0);
    var i2 := CaptureElim(Value, SIGNED, n, x2);
    RunIff(Digit, 1, v, i0);
    RunIff(Space, 1, w, x1);
    RunIff(Space, 0, z, y2);
    var g, d, f := SignedParts(n, i2);
    ScanWriteParts(v, w, n, z, g, d, f);
    assert caps == map[Variable := v, Value := n];
  }

  lemma WriteSound(s: Bytes)
    requires ScanWrite(s).Some?
    ensures Matches(WRITE_PATTERN, s, ScanWrite(s).value)
  {
    hide Matches, Span, AmountLength, AllIn, In;
    var v := Span(Digit, s);
    var rest := s[v..];
    var w := Span(Space, rest);
    var t := rest[w..];
    var n := AmountLength(t, true);
    var x, y := map[][Variable := s[..v]], map[][Value := t[..n]];
    AmountMatches(t, true);
    CaptureIntro(Value, SIGNED, t[..n], map[]);
    RunIff(Space, 0, t[n..], map[]);
    CatLeft(Capture(Value, SIGNED), Run(Space, 0), t[..n], t[n..], y);
    assert t == t[..n] + t[n..];
    RunIff(Space, 1, rest[..w], map[]);
    CatRight(Run(Space, 1), WRITE_PATTERN.b.b, rest[..w], t, y);
    assert rest == rest[..w] + t;
    RunIff(Digit, 1, s[..v], map[]);
    CaptureIntro(Variable, Run(Digit, 1), s[..v], map[]);
    CatIntro(WRITE_PATTERN.a, WRITE_PATTERN.b, s[..v], rest, x, y);
    assert s == s[..v] + rest;
    assert x + y == ScanWrite(s).value;
  }

  /** The query pattern, whose adjacent runs of white space can share out a gap at will. */
  lemma QueryUnambiguous(s: Bytes, caps: Captures)
    ensures Matches(QUERY_PATTERN, s, caps) <==> ScanQuery(s) == Some(caps)
  {
    hide Matches, ScanQuery;
    if Matches(QUERY_PATTERN, s, caps) { QueryFound(s, caps); }
    if ScanQuery(s) == Some(caps) { QuerySound(s); }
  }

  /** Scanning a query without a variable. */
  lemma ScanBareQuery(c: Bytes, w: Bytes)
    requires c != "" && AllIn(Digit, c) && AllIn(Space, w)
    ensures ScanQuery(c + w) == Some(map[Command := c])
  {
    hide Span, AmountLength;
    SpanOf(Digit, c, w);
    assert w + "" == w;
    SpanOf(Space, w, "");
  }

  /** Scanning a query with a variable. */
  lemma ScanFullQuery(c: Bytes, w: Bytes, a: Bytes, z: Bytes, d: Bytes, f: Bytes)
    requires c != "" && AllIn(Digit, c) && w != "" && AllIn(Space, w) && AllIn(Space, z)
    requires AmountParts("", d, f, false) && a == d + f
    ensures ScanQuery(c + (w + (a + z))) == Some(map[Command := c, Variable := a])
  {
    hide Span, AmountLength;
    var t := d + (f + z);
    var r := w + t;
    SpaceStopsDigits(w, t);
    ClassesDisjoint("", d, f + z);
    assert "" + t == t;
    SpanOf(Digit, c, r);
    SpanOf(Space, w, t);
    AmountLengthOf("", d, f, false, z);
    var n := |d| + |f|;
    assert t == a + z;
    assert t[..n] == a && t[n..] == z;
  }

  lemma AllInJoin(k: Class, s: Bytes, t: Bytes)
    requires AllIn(k, s) && AllIn(k, t)
    ensures AllIn(k, s + t)
  {
  }

  lemma QueryFound(s: Bytes, caps: Captures)
    requires Matches(QUERY_PATTERN, s, caps)
    ensures ScanQuery(s) == Some(caps)
  {
    hide Matches, ScanQuery, Span, AmountLength, AllIn, AmountParts, In;
    var gap := QUERY_PATTERN.b.a;
    var c, rest, x0, y0 := CatElim(QUERY_PATTERN.a, QUERY_PATTERN.b, s, caps);
    var m, z, x1, y1 := CatElim(gap, QUERY_PATTERN.b.b, rest, y0);
    var i0 := CaptureElim(Command, Run(Digit, 1), c, x0);
    RunIff(Digit, 1, c, i0);
    RunIff(Space, 0, z, y1);
    OptIff(gap.r, m, x1);
    if m == "" && x1 == map[] {
      assert rest == z;
      ScanBareQuery(c, z);
      assert caps == map[Command := c];
    } else {
      var w, a, x2, y2 := CatElim(gap.r.a, gap.r.b, m, x1);
      RunIff(Space, 1, w, x2);
      OptIff(gap.r.b.r, a, y2);
      if a == "" && y2 == map[] {
        assert rest == w + z;
        AllInJoin(Space, w, z);
        ScanBareQuery(c, w + z);
        assert caps == map[Command := c];
      } else {
        var inner := CaptureElim(Variable, UNSIGNED, a, y2);
        var d, f := UnsignedParts(a, inner);
        ScanFullQuery(c, w, a, z, d, f);
        assert w + (a + z) == rest;
        assert caps == map[Command := c, Variable := a];
      }
    }
  }

  lemma QuerySound(s: Bytes)
    requires ScanQuery(s).Some?
    ensures Matches(QUERY_PATTERN, s, ScanQuery(s).value)
  {
    hide Matches, Span, AmountLength, AllIn, In;
    var c := Span(Digit, s);
    var rest := s[c..];
    var w := Span(Space, rest);
    var t := rest[w..];
    var n := AmountLength(t, false);
    var x: Captures := map[][Command := s[..c]];
    RunIff(Digit, 1, s[..c], map[]);
    CaptureIntro(Command, Run(Digit, 1), s[..c], map[]);
    assert s == s[..c] + rest && rest == rest[..w] + t;
    if t == "" {
      assert rest == rest[..w];
      EmptyGap(rest);
      CatLeft(QUERY_PATTERN.a, QUERY_PATTERN.b, s[..c], rest, x);
    } else {
      var y: Captures := map[Variable := t[..n]];
      VariableGap(rest[..w], t, n);
      CatIntro(QUERY_PATTERN.a, QUERY_PATTERN.b, s[..c], rest, x, y);
      assert x + y == ScanQuery(s).value;
    }
  }

  lemma EmptyGap(w: Bytes)
    requires AllIn(Space, w)
    ensures Matches(QUERY_PATTERN.b, w, map[])
  {
    hide Matches;
    OptIff(QUERY_PATTERN.b.a.r, "", map[]);
    RunIff(Space, 0, w, map[]);
    CatLeft(QUERY_PATTERN.b.a, Run(Space, 0), "", w, map[]);
    assert w == "" + w;
  }

  lemma VariableGap(w: Bytes, t: Bytes, n: nat)
    requires w != "" && AllIn(Space, w) && n == AmountLength(t, false) > 0 && AllIn(Space, t[n..])
    ensures Matches(QUERY_PATTERN.b, w + t, map[Variable := t[..n]])
  {
    hide Matches, AmountLength;
    var gap := QUERY_PATTERN.b.a;
    var y: Captures := map[][Variable := t[..n]];
    AmountMatches(t, false);
    CaptureIntro(Variable, UNSIGNED, t[..n], map[]);
    OptIff(gap.r.b.r, t[..n], y);
    RunIff(Space, 1, w, map[]);
    CatRight(Run(Space, 1), gap.r.b, w, t[..n], y);
    OptIff(gap.r, w + t[..n], y);
    RunIff(Space, 0, t[n..], map[]);
    CatLeft(gap, Run(Space, 0), w + t[..n], t[n..], y);
    assert w + t[..n] + t[n..] == w + t;
  }

  /** The number pattern. */
  lemma NumberUnambiguous(s: Bytes, caps: Captures)
    ensures Matches(NUMBER_PATTERN, s, caps) <==> ScanNumber(s) == Some(caps)
  {
    hide Matches, ScanNumber;
    if Matches(NUMBER_PATTERN, s, caps) { NumberFound(s, caps); }
    if ScanNumber(s) == Some(caps) { NumberSound(s); }
  }

  /** The capture a fraction, with its dot, contributes. */
  function FractionCapture(f: Bytes): Captures { if f == "" then map[] else map[Frac := f[1..]] }

  lemma ScanTailParts(f: Bytes, z: Bytes)
    requires AllIn(Space, z) && (f == "" || (f[0] == '.' && AllIn(Digit, f[1..])))
    ensures ScanTail(f + z) == Some(FractionCapture(f))
  {
    hide Span;
    var u := f + z;
    if f != "" {
      assert u[1..] == f[1..] + z;
      SpanOf(Digit, f[1..], z);
      assert u[|f|..] == z && u[1..|f|] == f[1..];
    } else {
      assert u == z;
    }
  }

  lemma ScanTightParts(g: Bytes, d: Bytes, f: Bytes, z: Bytes)
    requires AllIn(Space, z) && AmountParts(g, d, f, true)
    ensures ScanTight(g + (d + (f + z))) == Some(map[Whole := g + d] + FractionCapture(f))
  {
    hide Span, ScanTail, SignLength, FractionCapture;
    var r := f + z;
    var u := d + r;
    var t := g + u;
    SignLengthOf(g, u);
    FractionLengthOf(f, z);
    SpanOf(Digit, d, r);
    Slices(g, d, r);
    ScanTailParts(f, z);
  }

  lemma Slices(g: Bytes, d: Bytes, r: Bytes)
    ensures var t := g + (d + r);
            t[..|g| + |d|] == g + d && t[|g| + |d|..] == r && t[|g|..] == d + r
  {
  }

  /** Scanning a number given in parts. */
  lemma ScanNumberParts(w: Bytes, g: Bytes, d: Bytes, f: Bytes, z: Bytes)
    requires AllIn(Space, w) && AllIn(Space, z) && AmountParts(g, d, f, true)
    ensures ScanNumber(w + (g + (d + (f + z)))) == Some(map[Whole := g + d] + FractionCapture(f))
  {
    hide Span, ScanTight, FractionCapture;
    ClassesDisjoint(g, d, f + z);
    SpanOf(Space, w, g + (d + (f + z)));
    ScanTightParts(g, d, f, z);
  }

  lemma NumberFound(s: Bytes, caps: Captures)
    requires Matches(NUMBER_PATTERN, s, caps)
    ensures ScanNumber(s) == Some(caps)
  {
    hide Matches, ScanNumber, Span, FractionCapture, AllIn, AmountParts, In, NumberCaptures;
    var whole, tail := NUMBER_PATTERN.b.a, NUMBER_PATTERN.b.b;
    var w, r0, x0, y0 := CatElim(NUMBER_PATTERN.a, NUMBER_PATTERN.b, s, caps);
    var n, r1, x1, y1 := CatElim(whole, tail, r0, y0);
    var f, z, x2, y2 := CatElim(tail.a, tail.b, r1, y1);
    RunIff(Space, 0, w, x0);
    RunIff(Space, 0, z, y2);
    var g, d := WholeParts(n, x1);
    FractionCaptured(g, d, f, x2);
    ScanNumberParts(w, g, d, f, z);
    assert w + (g + (d + (f + z))) == s;
    assert caps == map[Whole := n] + FractionCapture(f);
  }

  lemma WholeParts(n: Bytes, caps: Captures) returns (g: Bytes, d: Bytes)
    requires Matches(NUMBER_PATTERN.b.a, n, caps)
    ensures AmountParts(g, d, "", true) && n == g + d && caps == map[Whole := n]
  {
    hide Matches;
    var inner := CaptureElim(Whole, NUMBER_PATTERN.b.a.r, n, caps);
    var x, y;
    g, d, x, y := CatElim(Opt(One(Sign)), Run(Digit, 1), n, inner);
    OptIff(One(Sign), g, x);
    OneIff(Sign, g, x);
    RunIff(Digit, 1, d, y);
  }

  lemma FractionCaptured(g: Bytes, d: Bytes, f: Bytes, caps: Captures)
    requires AmountParts(g, d, "", true) && Matches(NUMBER_PATTERN.b.b.a, f, caps)
    ensures AmountParts(g, d, f, true) && caps == FractionCapture(f)
  {
    hide Matches;
    var r := NUMBER_PATTERN.b.b.a.r;
    OptIff(r, f, caps);
    if !(f == "" && caps == map[]) {
      var dot, h, x, y := CatElim(One(Dot), Capture(Frac, Run(Digit, 0)), f, caps);
      OneIff(Dot, dot, x);
      var inner := CaptureElim(Frac, Run(Digit, 0), h, y);
      RunIff(Digit, 0, h, inner);
      assert f[1..] == h;
      assert caps == map[Frac := h];
    }
  }

  lemma NumberSound(s: Bytes)
    requires ScanNumber(s).Some?
    ensures Matches(NUMBER_PATTERN, s, ScanNumber(s).value)
  {
    hide Matches, Span, ScanTail, SignLength;
    var w := Span(Space, s);
    var t := s[w..];
    var g := SignLength(t);
    var n := g + Span(Digit, t[g..]);
    var y: Captures := map[Whole := t[..n]];
    WholeSound(t);
    var x := TailSound(t[n..]);
    CatIntro(NUMBER_PATTERN.b.a, NUMBER_PATTERN.b.b, t[..n], t[n..], y, x);
    assert t == t[..n] + t[n..];
    RunIff(Space, 0, s[..w], map[]);
    CatRight(Run(Space, 0), NUMBER_PATTERN.b, s[..w], t, y + x);
    assert s == s[..w] + t;
  }

  lemma WholeSound(t: Bytes)
    requires Span(Digit, t[SignLength(t)..]) > 0
    ensures var n := SignLength(t) + Span(Digit, t[SignLength(t)..]);
            Matches(NUMBER_PATTERN.b.a, t[..n], map[Whole := t[..n]])
  {
    hide Matches, Span;
    var g := SignLength(t);
    var n := g + Span(Digit, t[g..]);
    assert t[g..][..n - g] == t[g..n];
    OneIff(Sign, t[..g], map[]);
    OptIff(One(Sign), t[..g], map[]);
    RunIff(Digit, 1, t[g..n], map[]);
    CatIntro(Opt(One(Sign)), Run(Digit, 1), t[..g], t[g..n], map[], map[]);
    assert t[..g] + t[g..n] == t[..n];
    CaptureIntro(Whole, NUMBER_PATTERN.b.a.r, t[..n], map[]);
  }

  lemma TailSound(u: Bytes) returns (x: Captures)
    requires ScanTail(u).Some?
    ensures Matches(NUMBER_PATTERN.b.b, u, x) && x == ScanTail(u).value
  {
    hide Matches, Span;
    var tail := NUMBER_PATTERN.b.b;
    if u != "" && u[0] == '.' {
      var f := Span(Digit, u[1..]);
      var h, z := u[1..f + 1], u[f + 1..];
      x := map[][Frac := h];
      assert u[1..][..f] == h;
      RunIff(Digit, 0, h, map[]);
      CaptureIntro(Frac, Run(Digit, 0), h, map[]);
      OneIff(Dot, u[..1], map[]);
      CatRight(One(Dot), Capture(Frac, Run(Digit, 0)), u[..1], h, x);
      OptIff(tail.a.r, u[..1] + h, x);
      RunIff(Space, 0, z, map[]);
      CatLeft(tail.a, Run(Space, 0), u[..1] + h, z, x);
      assert u[..1] + h + z == u;
    } else {
      x := map[];
      OptIff(tail.a.r, "", x);
      RunIff(Space, 0, u, x);
      CatLeft(tail.a, Run(Space, 0), "", u, x);
      assert "" + u == u;
    }
  }
}
