/**
 What the proxy hears of a client that is slow. A read that times out leaves the
 line begun so far to nobody: the scanner is replaced and what it held is gone.
 */
module Timeouts {
  import opened Wrappers
  import opened Bytes
  import opened Decimal
  import opened Numbers
  import opened Commands
  import opened Policies
  import opened Responses
  import opened Wire
  import opened Dummy
  import opened Session
  import T = Transparency
  import R = Registers

  datatype Input = Data(bytes: Bytes) | Timeout

  /** The lines that come out of the proxy's scanners, from what the current one holds and the reads to come. */
  function Heard(buf: Bytes, inputs: seq<Input>): seq<Bytes>
    decreases |inputs|, |buf|
  {
    var r := ScanLines(buf, false);
    if r.token.Some? then [r.token.value] + Heard(buf[r.advance..], inputs)
    else if inputs == [] then DrainRest(Lines, buf)
    else
      match inputs[0]
      case Data(b) => Heard(buf + b, inputs[1..])
      case Timeout => Heard("", inputs[1..])
  }

  /** Everything the client has sent. */
  function Arrived(inputs: seq<Input>): Bytes {
    if inputs == [] then ""
    else
      match inputs[0]
      case Data(b) => b + Arrived(inputs[1..])
      case Timeout => Arrived(inputs[1..])
  }

  /** How many bytes had arrived at each timeout, counted from `at`. */
  function Pauses(inputs: seq<Input>, at: nat): set<nat> {
    if inputs == [] then {}
    else
      match inputs[0]
      case Data(b) => Pauses(inputs[1..], at + |b|)
      case Timeout => {at} + Pauses(inputs[1..], at)
  }

  function Datas(chunks: seq<Bytes>): seq<Input> { seq(|chunks|, i requires 0 <= i < |chunks| => Data(chunks[i])) }

  /** Without timeouts this is the scanner that is kept. */
  lemma {:induction false} WithoutTimeouts(buf: Bytes, chunks: seq<Bytes>)
    ensures Heard(buf, Datas(chunks)) == Drain(Lines, buf, chunks)
    decreases |chunks|, |buf|
  {
    hide LineEnd, DropCR, DrainRest;
    var r := ScanLines(buf, false);
    if r.token.Some? {
      WithoutTimeouts(buf[r.advance..], chunks);
    } else if chunks != [] {
      assert Datas(chunks)[1..] == Datas(chunks[1..]);
      WithoutTimeouts(buf + chunks[0], chunks[1..]);
    }
  }

  // ----- what is heard of texts sent one after the other

  /** Of a text that starts here, the first bytes up to the last pause strictly inside it are lost. */
  ghost predicate CutAt(pauses: set<nat>, start: nat, len: nat, cut: nat) {
    && cut < len && (cut > 0 ==> start + cut in pauses)
    && forall o | o in pauses && start < o < start + len :: o <= start + cut
  }

  ghost predicate CutsAt(texts: seq<Bytes>, pauses: set<nat>, start: nat, cuts: seq<nat>) {
    && |cuts| == |texts|
    && (texts != [] ==>
          CutAt(pauses, start, |texts[0]|, cuts[0]) && CutsAt(texts[1..], pauses, start + |texts[0]|, cuts[1..]))
  }

  /** The lines that are left of texts. */
  function Left(texts: seq<Bytes>, cuts: seq<nat>): seq<Bytes>
    requires |cuts| == |texts| && forall i | 0 <= i < |texts| :: cuts[i] <= |texts[i]|
  {
    if texts == [] then [] else [LineOf(texts[0][cuts[0]..])] + Left(texts[1..], cuts[1..])
  }

  predicate EachOneLine(texts: seq<Bytes>) { forall i | 0 <= i < |texts| :: OneLine(texts[i]) && EndsLine(texts[i]) }

  lemma {:induction false} CutsWithin(texts: seq<Bytes>, pauses: set<nat>, start: nat, cuts: seq<nat>)
    requires CutsAt(texts, pauses, start, cuts)
    ensures forall i | 0 <= i < |texts| :: cuts[i] < |texts[i]|
  {
    if texts != [] {
      CutsWithin(texts[1..], pauses, start + |texts[0]|, cuts[1..]);
    }
  }

  lemma {:induction false} PausesFrom(inputs: seq<Input>, at: nat)
    ensures forall o | o in Pauses(inputs, at) :: at <= o
  {
    if inputs != [] {
      match inputs[0]
      case Data(b) => PausesFrom(inputs[1..], at + |b|);
      case Timeout => PausesFrom(inputs[1..], at);
    }
  }

  /**
   Where the scanner stands: p bytes of the stream have arrived, and it holds those
   from q on, in the first of the texts; q is the last pause in this text, if any.
   */
  ghost predicate Standing(texts: seq<Bytes>, buf: Bytes, inputs: seq<Input>, start: nat, q: nat, p: nat,
                           pauses: set<nat>) {
    && q <= p <= |Concat(texts)| && buf == Concat(texts)[q..p] && Arrived(inputs) == Concat(texts)[p..]
    && (if texts == [] then p == 0 else q < |texts[0]|)
    && (q > 0 ==> start + q in pauses) && Pauses(inputs, start + p) <= pauses
    && forall o | o in pauses && start + q < o :: o in Pauses(inputs, start + p)
  }

  /** What is held has a line exactly when all of the text has arrived. */
  lemma HeldLine(texts: seq<Bytes>, buf: Bytes, inputs: seq<Input>, start: nat, q: nat, p: nat, pauses: set<nat>)
    requires EachOneLine(texts) && texts != [] && Standing(texts, buf, inputs, start, q, p, pauses)
    ensures LineEnd(buf) < |buf| <==> |texts[0]| <= p
    ensures |texts[0]| <= p ==>
              LineEnd(buf) == |texts[0]| - 1 - q && DropCR(buf[..LineEnd(buf)]) == LineOf(texts[0][q..])
  {
    var t, rest := texts[0], Concat(texts[1..]);
    assert OneLine(t) && EndsLine(t) && Concat(texts) == t + rest;
    hide Pauses, Arrived, Concat, LineEnd, DropCR;
    HeldOf(t, rest, q, p);
  }

  lemma HeldOf(t: Bytes, rest: Bytes, q: nat, p: nat)
    requires OneLine(t) && EndsLine(t) && q < |t| && q <= p <= |t + rest|
    ensures var buf := (t + rest)[q..p];
            && (LineEnd(buf) < |buf| <==> |t| <= p)
            && (|t| <= p ==> LineEnd(buf) == |t| - 1 - q && DropCR(buf[..LineEnd(buf)]) == LineOf(t[q..]))
  {
    hide LineEnd, DropCR;
    var buf := (t + rest)[q..p];
    if |t| <= p {
      var n := |t| - 1 - q;
      assert buf[..n] == t[..|t| - 1][q..];
      LineEndOf(buf[..n], buf[n..]);
      assert buf[n..][0] == LF && buf[..n] + buf[n..] == buf;
      assert LineEnd(buf[n..]) == 0;
      assert t[q..][..|t[q..]| - 1] == buf[..n];
    } else {
      assert buf == t[..|t| - 1][q..p];
      assert LF !in buf;
    }
  }

  lemma NextText(texts: seq<Bytes>, buf: Bytes, inputs: seq<Input>, start: nat, q: nat, p: nat, pauses: set<nat>)
    requires EachOneLine(texts) && texts != [] && Standing(texts, buf, inputs, start, q, p, pauses) && |texts[0]| <= p
    ensures q <= |texts[0]| && |texts[0]| - q <= |buf|
    ensures Standing(texts[1..], buf[|texts[0]| - q..], inputs, start + |texts[0]|, 0, p - |texts[0]|, pauses)
    ensures CutAt(pauses, start, |texts[0]|, q)
  {
    PausesFrom(inputs, start + p);
    hide Pauses, Arrived;
    var t := texts[0];
    assert Concat(texts) == t + Concat(texts[1..]);
    assert texts[1..] != [] ==> OneLine(texts[1..][0]);
  }

  lemma NextData(texts: seq<Bytes>, buf: Bytes, inputs: seq<Input>, start: nat, q: nat, p: nat, pauses: set<nat>,
                 b: Bytes)
    requires Standing(texts, buf, inputs, start, q, p, pauses) && inputs != [] && inputs[0] == Data(b)
    ensures p + |b| <= |Concat(texts)| && Standing(texts, buf + b, inputs[1..], start, q, p + |b|, pauses)
  {
    var x := Concat(texts);
    assert Arrived(inputs) == b + Arrived(inputs[1..]);
    assert Pauses(inputs, start + p) == Pauses(inputs[1..], start + p + |b|);
    hide Arrived, Pauses, Concat;
    assert x[p..][..|b|] == b && x[p..][|b|..] == x[p + |b|..];
    assert x[q..p] + x[p..p + |b|] == x[q..p + |b|];
    if texts == [] { assert x == "" by { EmptyConcat(); } }
  }

  lemma EmptyConcat()
    ensures Concat([]) == ""
  {
  }

  lemma NextTimeout(texts: seq<Bytes>, buf: Bytes, inputs: seq<Input>, start: nat, q: nat, p: nat, pauses: set<nat>)
    requires Standing(texts, buf, inputs, start, q, p, pauses) && inputs != [] && inputs[0].Timeout?
    requires texts != [] ==> p < |texts[0]|
    ensures Standing(texts, "", inputs[1..], start, p, p, pauses)
  {
    assert Arrived(inputs) == Arrived(inputs[1..]);
    assert Pauses(inputs, start + p) == {start + p} + Pauses(inputs[1..], start + p);
    hide Arrived, Pauses, Concat;
    assert Concat(texts)[p..p] == "";
  }

  /** Each text arrives as the line of what is left of it after the last pause inside. */
  lemma {:induction false} HeardLines(texts: seq<Bytes>, buf: Bytes, inputs: seq<Input>, start: nat, q: nat, p: nat,
                                      pauses: set<nat>)
    returns (cuts: seq<nat>)
    requires EachOneLine(texts) && Standing(texts, buf, inputs, start, q, p, pauses)
    ensures CutsAt(texts, pauses, start, cuts) && (forall i | 0 <= i < |texts| :: cuts[i] < |texts[i]|)
    ensures Heard(buf, inputs) == Left(texts, cuts)
    decreases |inputs|, |texts|
  {
    hide Pauses, Arrived, LineEnd, DropCR, LineOf, CutAt, EachOneLine, Standing, Concat, DrainRest;
    StandingTexts(texts, buf, inputs, start, q, p, pauses);
    if texts != [] && |texts[0]| <= p {
      HeldLine(texts, buf, inputs, start, q, p, pauses);
      NextText(texts, buf, inputs, start, q, p, pauses);
      var rest := HeardLines(texts[1..], buf[|texts[0]| - q..], inputs, start + |texts[0]|, 0, p - |texts[0]|, pauses);
      cuts := [q] + rest;
      assert cuts[1..] == rest;
      CutsWithin(texts, pauses, start, cuts);
    } else {
      if texts != [] { HeldLine(texts, buf, inputs, start, q, p, pauses); } else {
        Nothing(buf, inputs, start, q, p, pauses);
      }
      if inputs == [] {
        NoMore(texts, buf, start, q, p, pauses);
        cuts := [];
      } else {
        match inputs[0] {
          case Data(b) =>
            NextData(texts, buf, inputs, start, q, p, pauses, b);
            cuts := HeardLines(texts, buf + b, inputs[1..], start, q, p + |b|, pauses);
          case Timeout =>
            NextTimeout(texts, buf, inputs, start, q, p, pauses);
            cuts := HeardLines(texts, "", inputs[1..], start, p, p, pauses);
        }
      }
    }
  }

  lemma StandingTexts(texts: seq<Bytes>, buf: Bytes, inputs: seq<Input>, start: nat, q: nat, p: nat, pauses: set<nat>)
    requires EachOneLine(texts) && Standing(texts, buf, inputs, start, q, p, pauses)
    ensures texts != [] ==> q < |texts[0]| && q <= p <= |Concat(texts)| && |buf| == p - q && EachOneLine(texts[1..])
  {
    hide Concat, Arrived, Pauses, OneLine, EndsLine;
  }

  lemma Nothing(buf: Bytes, inputs: seq<Input>, start: nat, q: nat, p: nat, pauses: set<nat>)
    requires Standing([], buf, inputs, start, q, p, pauses)
    ensures buf == "" && LineEnd(buf) == 0
  {
  }

  lemma NoMore(texts: seq<Bytes>, buf: Bytes, start: nat, q: nat, p: nat, pauses: set<nat>)
    requires Standing(texts, buf, [], start, q, p, pauses) && (texts != [] ==> p < |texts[0]|)
    ensures texts == [] && DrainRest(Lines, buf) == []
  {
    assert Concat(texts)[p..] == "";
    FirstArrived(texts);
  }

  lemma FirstArrived(texts: seq<Bytes>)
    ensures texts != [] ==> |texts[0]| <= |Concat(texts)|
  {
  }

  // ----- what is left of a command

  /** A printed command has one question mark, its first byte. */
  lemma OneMark(c: Command)
    ensures '?' !in c.Line()[1..]
  {
    match c
    case Basic(n) => NoMark(n);
    case Query(v) => NoMark(v);
    case Write(v, x) =>
      NoMark(v);
      NoMark(x);
  }

  lemma NoMark(n: Number)
    ensures '?' !in n.FormatD() && '?' !in n.FormatF()
  {
    if n.Num? {
      NoMarkIn(n.whole);
      NoMarkIn(n.frac);
    }
  }

  lemma NoMarkIn(n: int)
    ensures '?' !in Print(n)
  {
    PrintShape(n);
    var s, m := Print(n), Magnitude(Print(n));
    hide Print, Numeral;
    forall i | 0 <= i < |s| ensures s[i] != '?' {
      if n < 0 && i > 0 { assert s[i] == m[i - 1]; }
      if n >= 0 { assert IsDigit(s[i]); }
    }
  }

  /** The end of a command is no message: blank if only the line feed is left, and bad otherwise. */
  lemma RestJudged(policy: Policy, c: Command, k: nat)
    requires 0 < k < |c.Text()|
    ensures Judge(LineOf(c.Text()[k..]), Some(policy)) == if k == |c.Line()| then Ignore else Drop
  {
    hide Command.Line, ParseWrite, ParseQuery, Allowed;
    OneMark(c);
    LineClean(c);
    var line := c.Line();
    if k < |line| {
      var rest := line[k..];
      assert c.Text()[k..] == rest + "\n";
      assert (rest + "\n")[..|rest|] == rest;
      assert rest[0] == line[1..][k - 1] && rest[0] in line[1..];
      assert rest[|rest| - 1] == line[|line| - 1];
    } else {
      assert c.Text()[k..] == "\n";
    }
  }

  /** The commands that a session takes up: those cut in front of their line feed are skipped, any other cut ends it. */
  function Kept(cmds: seq<Command>, cuts: seq<nat>): seq<Command>
    requires |cuts| == |cmds|
  {
    if cmds == [] then []
    else if cuts[0] == 0 then [cmds[0]] + Kept(cmds[1..], cuts[1..])
    else if cuts[0] == |cmds[0].Line()| then Kept(cmds[1..], cuts[1..])
    else []
  }

  lemma {:induction false} NothingLost(cmds: seq<Command>, cuts: seq<nat>)
    requires |cuts| == |cmds|
    ensures |Kept(cmds, cuts)| <= |cmds|
    ensures Kept(cmds, cuts) == cmds <==> forall i | 0 <= i < |cuts| :: cuts[i] == 0
  {
    hide Command.Line;
    if cmds != [] {
      var rest := Kept(cmds[1..], cuts[1..]);
      NothingLost(cmds[1..], cuts[1..]);
      assert cmds == [cmds[0]] + cmds[1..];
      assert (forall i | 0 <= i < |cuts| :: cuts[i] == 0) <==> cuts[0] == 0 && forall i | 0 <= i < |cuts[1..]| ::
             cuts[1..][i] == 0 by {
        AllZero(cuts);
      }
    }
  }

  lemma AllZero(cuts: seq<nat>)
    requires cuts != []
    ensures (forall i | 0 <= i < |cuts| :: cuts[i] == 0) <==> cuts[0] == 0 && forall i | 0 <= i < |cuts[1..]| ::
            cuts[1..][i] == 0
  {
    if cuts[0] == 0 && forall i | 0 <= i < |cuts[1..]| :: cuts[1..][i] == 0 {
      forall i | 0 <= i < |cuts| ensures cuts[i] == 0 { if i > 0 { assert cuts[i] == cuts[1..][i - 1]; } }
    } else if cuts[0] == 0 {
      var i :| 0 <= i < |cuts[1..]| && cuts[1..][i] != 0;
      assert cuts[i + 1] != 0;
    }
  }

  predicate Cutting(cmds: seq<Command>, cuts: seq<nat>) {
    |cuts| == |cmds| && forall i | 0 <= i < |cmds| :: cuts[i] < |cmds[i].Text()|
  }

  /** The loop over what is left of commands does what it does over the commands kept. */
  lemma {:induction false} LoopOverLeft(store: Store, policy: Policy, cmds: seq<Command>, cuts: seq<nat>,
                                        tail: seq<Bytes>)
    requires T.AllWellFormed(cmds) && Cutting(cmds, cuts)
    ensures Outcomes(T.Turns(policy, Left(T.Texts(cmds), cuts),
                             T.RepliesTo(store, T.Passed(policy, Kept(cmds, cuts))) + tail))
         == (T.Relayed(store, policy, Kept(cmds, cuts)), T.Passed(policy, Kept(cmds, cuts)))
    decreases |cmds|
  {
    hide Reply, StoreAfter, ParseResponse, Allowed, ParseCommand, Response.Text, WellFormed, Command.Text, Command.Line,
         Judge, LineOf;
    hide T.Turns, Outcomes, T.RepliesTo;
    var kept := Kept(cmds, cuts);
    var answers := T.RepliesTo(store, T.Passed(policy, kept)) + tail;
    if cmds == [] {
      assert T.Texts(cmds) == [];
      T.NoTurns(policy, answers);
    } else {
      var c, rest := cmds[0], Kept(cmds[1..], cuts[1..]);
      var lines := Left(T.Texts(cmds), cuts);
      assert T.Texts(cmds)[1..] == T.Texts(cmds[1..]);
      FirstLine(policy, c, cuts[0]);
      if cuts[0] == 0 {
        assert kept[1..] == rest;
        if Allowed(policy, c) {
          T.NextAnswer(store, c, T.Passed(policy, rest), tail);
          T.TurnForwarded(policy, lines, answers, c);
          LoopOverLeft(StoreAfter(store, c), policy, cmds[1..], cuts[1..], tail);
        } else {
          T.TurnDenied(policy, lines, answers);
          LoopOverLeft(store, policy, cmds[1..], cuts[1..], tail);
        }
      } else {
        TurnUnheard(policy, lines, answers);
        if cuts[0] == |c.Line()| { LoopOverLeft(store, policy, cmds[1..], cuts[1..], tail); }
      }
    }
  }

  lemma FirstLine(policy: Policy, c: Command, cut: nat)
    requires WellFormed(c) && cut < |c.Text()|
    ensures Judge(LineOf(c.Text()[cut..]), Some(policy))
         == if cut > 0 then (if cut == |c.Line()| then Ignore else Drop) else if Allowed(policy, c) then Forward(c)
           else Deny
  {
    hide Command.Line, Judge, Allowed, WellFormed;
    if cut > 0 {
      RestJudged(policy, c, cut);
    } else {
      assert c.Text()[0..] == c.Text();
      R.TextLine(c);
      T.LineJudged(policy, c);
    }
  }

  lemma TurnUnheard(policy: Policy, lines: seq<Bytes>, answers: seq<Bytes>)
    requires lines != [] && (Judge(lines[0], Some(policy)).Ignore? || Judge(lines[0], Some(policy)).Drop?)
    ensures Outcomes(T.Turns(policy, lines, answers))
         == if Judge(lines[0], Some(policy)).Drop? then ([], []) else Outcomes(T.Turns(policy, lines[1..], answers))
  {
    hide Judge, ParseResponse, Response.Text;
    var rest := T.Turns(policy, lines[1..], answers);
    T.FirstTurn(Received(lines[0], Some(policy), None), rest);
    assert [] + Outcomes(rest).0 == Outcomes(rest).0 && [] + Outcomes(rest).1 == Outcomes(rest).1;
  }

  // ----- the theorem

  /** No timeout falls strictly inside a text. */
  ghost predicate Unbroken(texts: seq<Bytes>, pauses: set<nat>, start: nat) {
    texts != [] ==>
      && (forall o | o in pauses :: !(start < o < start + |texts[0]|))
      && Unbroken(texts[1..], pauses, start + |texts[0]|)
  }

  lemma {:induction false} UncutUnbroken(texts: seq<Bytes>, pauses: set<nat>, start: nat, cuts: seq<nat>)
    requires CutsAt(texts, pauses, start, cuts)
    ensures Unbroken(texts, pauses, start) <==> forall i | 0 <= i < |cuts| :: cuts[i] == 0
  {
    if texts != [] {
      UncutUnbroken(texts[1..], pauses, start + |texts[0]|, cuts[1..]);
      AllZero(cuts);
    }
  }

  /**
   A session with timeouts. A client writes commands, and its bytes reach the proxy
   in any reads with timeouts anywhere between them. The session is that of a client
   that wrote the commands kept: nothing is ever forwarded that was not written, but
   a command interrupted in front of its line feed is lost without a word, and one
   interrupted before that ends the session. All commands are taken up if and only
   if no timeout falls strictly inside one.
   */
  lemma SlowClient(store: Store, policy: Policy, cmds: seq<Command>, inputs: seq<Input>, tail: seq<Bytes>)
    returns (cuts: seq<nat>)
    requires T.AllWellFormed(cmds) && Arrived(inputs) == Concat(T.Texts(cmds))
    ensures |cuts| == |cmds| && CutsAt(T.Texts(cmds), Pauses(inputs, 0), 0, cuts)
    ensures var kept := Kept(cmds, cuts);
            && Outcomes(T.Turns(policy, Heard("", inputs), T.RepliesTo(store, T.Passed(policy, kept)) + tail))
               == (T.Relayed(store, policy, kept), T.Passed(policy, kept))
            && (kept == cmds <==> Unbroken(T.Texts(cmds), Pauses(inputs, 0), 0))
  {
    hide Heard, Arrived, Pauses, CutsAt, Unbroken, Kept, Outcomes, T.Turns, T.RepliesTo, T.Relayed, T.Passed, Left,
         Command.Text, WellFormed, Concat;
    var texts := T.Texts(cmds);
    TextsStand(cmds, inputs);
    cuts := HeardLines(texts, "", inputs, 0, 0, 0, Pauses(inputs, 0));
    assert |cuts| == |texts| by {
      CutsWithin(texts, Pauses(inputs, 0), 0, cuts); CutsLength(texts, Pauses(inputs, 0), cuts);
    }
    assert Cutting(cmds, cuts) by {
      forall i | 0 <= i < |cmds| ensures cuts[i] < |cmds[i].Text()| { assert texts[i] == cmds[i].Text(); }
    }
    LoopOverLeft(store, policy, cmds, cuts, tail);
    NothingLost(cmds, cuts);
    UncutUnbroken(texts, Pauses(inputs, 0), 0, cuts);
  }

  lemma CutsLength(texts: seq<Bytes>, pauses: set<nat>, cuts: seq<nat>)
    requires CutsAt(texts, pauses, 0, cuts)
    ensures |cuts| == |texts|
  {
  }

  lemma TextsStand(cmds: seq<Command>, inputs: seq<Input>)
    requires Arrived(inputs) == Concat(T.Texts(cmds))
    ensures EachOneLine(T.Texts(cmds)) && Standing(T.Texts(cmds), "", inputs, 0, 0, 0, Pauses(inputs, 0))
  {
    hide Arrived, Pauses, Concat, Command.Text, OneLine, EndsLine;
    var texts := T.Texts(cmds);
    assert Concat(texts)[0..] == Concat(texts) && Concat(texts)[0..0] == "";
    forall i | 0 <= i < |texts| ensures OneLine(texts[i]) && EndsLine(texts[i]) && texts[i] != "" {
      R.TextNotEmpty(cmds[i]);
      R.WrittenLine(cmds[i], texts[i]);
    }
  }

  /**
   A pause in front of the line feed: the client has sent its command, whichever it
   is, and the proxy hears a blank line.
   */
  lemma LostCommand(c: Command)
    ensures var inputs := [Data(c.Line()), Timeout, Data("\n")];
            Arrived(inputs) == c.Text() && Heard("", inputs) == [""]
  {
    hide Command.Line, Heard, LineEnd;
    LineClean(c);
    var inputs := [Data(c.Line()), Timeout, Data("\n")];
    assert inputs[1..] == [Timeout, Data("\n")] && inputs[2..] == [Data("\n")] && inputs[1..][1..] == inputs[2..]
           && inputs[2..][1..] == [];
    assert "" + c.Line() == c.Line() && "" + "\n" == "\n" && "\n" + "" == "\n";
    assert Arrived([]) == "" && Arrived(inputs[2..]) == "\n";
    assert inputs[1..][0] == Timeout && Arrived(inputs[1..]) == Arrived(inputs[2..]);
    Unfinished("", inputs);
    Unfinished(c.Line(), inputs[1..]);
    Unfinished("", inputs[2..]);
    BlankLine();
  }

  /** Without a line feed the scanner goes on to the next read. */
  lemma Unfinished(buf: Bytes, inputs: seq<Input>)
    requires LF !in buf && inputs != []
    ensures Heard(buf, inputs)
            == match inputs[0] case Data(b) => Heard(buf + b, inputs[1..]) case Timeout => Heard("", inputs[1..])
  {
    LineEndOf(buf, "");
    assert buf + "" == buf && LineEnd("") == 0;
  }

  lemma BlankLine()
    ensures Heard("\n", []) == [""]
  {
    assert "\n"[1..] == "" && LineEnd("\n") == 0 && LineEnd("") == 0;
    assert Heard("", []) == [];
  }
}
