/** The dummy machine control: canned replies and a store of macro variables. */
module Dummy {
  import opened Wrappers
  import opened Bytes
  import opened Decimal
  import opened Numbers
  import opened Commands
  import opened Responses
  import opened Wire
  import P = Patterns

  type Store = map<Number, Number>

  /** A variable never stored reads as the zero number. */
  function Read(store: Store, n: Number): Number { if n in store then store[n] else Num(0, 0) }

  /** The canned replies, for the documented commands. */
  function Canned(n: Number): Option<Bytes> {
    match n
    case Num(w, 0) =>
      if w == 100 then Some("SERIAL NUMBER, 1024")
      else if w == 101 then Some("SOFTWARE VERSION, 100.24.000.1024")
      else if w == 102 then Some("MODEL, MDCMUX")
      else if w == 104 then Some("MODE, STARTUP_MODE")
      else if w == 200 then Some("TOOL CHANGES, 1024")
      else if w == 201 then Some("USING TOOL, 16")
      else if w == 300 then Some("P.O. TIME, 00012:34:56")
      else if w == 301 then Some("C.S. TIME, 00012:34:56")
      else if w == 303 then Some("LAST CYCLE, 00012:34:56")
      else if w == 304 then Some("PREV CYCLE, 00012:34:56")
      else if w == 402 then Some("M30 #1, 22")
      else if w == 403 then Some("M30 #2, 33")
      else if w == 500 then Some("PROGRAM, MDI, ALARM ON, PARTS, 3205")
      else None
    case _ => None
  }

  function VariableReply(store: Store, v: Number): Bytes {
    if v.Whole() < 0 || v.Frac() != 0 then "?, BAD VARIABLE NUMBER"
    else if v.Whole() == 0 then "MACRO, NaN"
    else "MACRO, " + Read(store, v).FormatF()
  }

  /** The payload answering a command. */
  function Reply(store: Store, c: Command): Bytes {
    match c
    case Write(_, _) => "!"
    case Query(v) => VariableReply(store, v)
    case Basic(n) =>
      match Canned(n)
      case Some(text) => text
      case None =>
        if n == MACRO_VARIABLE then VariableReply(store, c.Variable()) else "?, ?Q" + n.FormatD()
  }

  function StoreAfter(store: Store, c: Command): Store {
    if c.Write? then store[c.variable := c.value] else store
  }

  /** What a received line does: no reply to a blank line, a complaint to one that does not parse. */
  function LineReply(store: Store, line: Bytes): Option<Bytes> {
    var buf := TrimSpace(line);
    if buf == "" then None
    else
      match ParseCommand(buf)
      case Ok(c) => Some(Reply(store, c))
      case Err(_) => Some("?, BAD MESSAGE")
  }

  function LineStore(store: Store, line: Bytes): Store {
    match ParseCommand(TrimSpace(line))
    case Ok(c) => StoreAfter(store, c)
    case Err(_) => store
  }

  /** The replies to a list of lines, and the store they leave. */
  function Serve(store: Store, lines: seq<Bytes>): (seq<Bytes>, Store) {
    if lines == [] then ([], store)
    else
      var (before, mid) := Serve(store, lines[..|lines| - 1]);
      var last := lines[|lines| - 1];
      var reply := LineReply(mid, last);
      (if reply.Some? then before + [reply.value] else before, LineStore(mid, last))
  }

  class Server {
    var data: Store

    constructor ()
      ensures data == map[]
    {
      data := map[];
    }

    method Peek(k: Number) returns (n: Number, ok: bool)
      ensures ok == (k in data) && n == if k in data then data[k] else Num(0, 0)
    {
      ok := k in data;
      n := if ok then data[k] else Num(0, 0);
    }

    method Poke(k: Number, v: Number)
      modifies this
      ensures data == old(data)[k := v]
    {
      data := data[k := v];
    }

    method Handle(msg: Command, out: Writer) returns (ok: bool)
      modifies this, out
      ensures data == StoreAfter(old(data), msg)
      ensures (out.State(), ok) == Flushed(old(out.State()), Frame(Reply(old(data), msg)))
    {
      if msg.IsWrite() {
        data := data[msg.variable := msg.value];
        ok := WriteResponse(out, "!");
        return;
      }
      var cmd := msg.QNumber().value;
      if msg.Basic? {
        var found := Canned(cmd);
        if found.Some? {
          ok := WriteResponse(out, found.value);
          return;
        }
      }
      if cmd == MACRO_VARIABLE {
        var num := msg.Variable();
        if num.Whole() < 0 || num.Frac() != 0 {
          ok := WriteResponse(out, "?, BAD VARIABLE NUMBER");
        } else if num.Whole() == 0 {
          ok := WriteResponse(out, "MACRO, NaN");
        } else {
          var val, _ := Peek(num);
          ok := WriteResponse(out, "MACRO, " + val.FormatF());
        }
        return;
      }
      ok := WriteResponse(out, "?, ?Q" + cmd.FormatD());
    }

    /** The body of the loop over received lines. */
    method HandleLine(line: Bytes, out: Writer) returns (ok: bool)
      modifies this, out
      ensures data == LineStore(old(data), line)
      ensures match LineReply(old(data), line)
              case None => ok && out.State() == old(out.State())
              case Some(r) => (out.State(), ok) == Flushed(old(out.State()), Frame(r))
    {
      hide ParseCommand, TrimSpace, Reply, Frame;
      var buf := TrimSpace(line);
      ok := true;
      if buf == "" {
        EmptyDoesNotParse();
        return;
      }
      var cmd := ParseCommand(buf);
      if cmd.Err? {
        ok := WriteResponse(out, "?, BAD MESSAGE");
      } else {
        ok := Handle(cmd.value, out);
      }
    }

    /**
     The loop over the lines of one connection. It sends as much of the conversation
     as the connection takes, and handles the lines up to the one whose reply is cut.
     */
    method Run(lines: seq<Bytes>, out: Writer) returns (ok: bool, handled: nat)
      requires out.buffered == "" && out.sent == "" && !out.broken
      modifies this, out
      ensures out.sent == GoesOut(Conversation(Serve(old(data), lines).0), old(out.room))
      ensures handled <= |lines| && data == Serve(old(data), lines[..handled]).1
      ensures ok <==> HasRoom(Conversation(Serve(old(data), lines).0), old(out.room))
      ensures if ok then handled == |lines|
              else !HasRoom(Conversation(Serve(old(data), lines[..handled]).0), old(out.room))
                   && (handled > 0 ==> HasRoom(Conversation(Serve(old(data), lines[..handled - 1]).0), old(out.room)))
    {
      hide LineReply, LineStore, Frame, Conversation, Flushed;
      handled := 0;
      ghost var all := Serve(data, lines).0;
      ServePrefix(data, lines, 0);
      GreetingSent(out.room);
      ok := WritePrompt(out);
      if !ok {
        CutShort([], all, old(out.room));
        return;
      }
      for i := 0 to |lines|
        invariant ok && handled == i
        invariant data == Serve(old(data), lines[..i]).1
        invariant SentAll(out.State(), Serve(old(data), lines[..i]).0, old(out.room))
      {
        ghost var before, mid := Serve(old(data), lines[..i]).0, data;
        ghost var reply := LineReply(mid, lines[i]);
        assert lines[..i + 1][..i] == lines[..i];
        ServePrefix(old(data), lines, i + 1);
        if reply.Some? { FrameSent(out.State(), before, reply.value, old(out.room)); }
        ok := HandleLine(lines[i], out);
        handled := i + 1;
        if !ok {
          CutShort(before + [reply.value], all, old(out.room));
          return;
        }
      }
      assert lines[..|lines|] == lines;
    }
  }

  /** The replies to the first lines come first. */
  lemma {:induction false} ServePrefix(store: Store, lines: seq<Bytes>, n: nat)
    requires n <= |lines|
    ensures Serve(store, lines[..n]).0 <= Serve(store, lines).0
    decreases |lines|
  {
    hide LineReply, LineStore;
    if n < |lines| {
      var before := lines[..|lines| - 1];
      ServePrefix(store, before, n);
      assert before[..n] == lines[..n];
    } else {
      assert lines[..n] == lines;
    }
  }

  lemma EmptyDoesNotParse()
    ensures ParseCommand("").Err?
  {
  }

  // ----- what the replies mean

  /** Every reply is one framable line, so the framing theorem covers the server. */
  lemma RepliesFramable(store: Store, line: Bytes)
    ensures var r := LineReply(store, line); r.Some? ==> Framable(r.value)
  {
    var buf := TrimSpace(line);
    if ParseCommand(buf).Ok? { ReplyFramable(store, ParseCommand(buf).value); }
  }

  lemma ReplyFramable(store: Store, c: Command)
    ensures Framable(Reply(store, c))
  {
    hide Number.FormatD, VariableReply, Canned;
    match c {
      case Write(_, _) =>
      case Query(v) => VariableReplyFramable(store, v);
      case Basic(n) =>
        FormatClean(n);
        VariableReplyFramable(store, c.Variable());
        CannedFramable(n);
    }
  }

  lemma VariableReplyFramable(store: Store, v: Number)
    ensures Framable(VariableReply(store, v))
  {
    hide Number.FormatF;
    FormatClean(Read(store, v));
  }

  lemma CannedFramable(n: Number)
    ensures Canned(n).Some? ==> Framable(Canned(n).value)
  {
    if n.Num? {
      if n.whole <= 102 { CannedIdentity(n); }
      else if n.whole <= 300 { CannedCounters(n); }
      else if n.whole <= 304 { CannedTimes(n); }
      else { CannedParts(n); }
    }
  }

  lemma CannedIdentity(n: Number)
    requires n.Num? && n.whole <= 102
    ensures Canned(n).Some? ==> Framable(Canned(n).value)
  {
  }

  lemma CannedCounters(n: Number)
    requires n.Num? && 102 < n.whole <= 300
    ensures Canned(n).Some? ==> Framable(Canned(n).value)
  {
  }

  lemma CannedTimes(n: Number)
    requires n.Num? && 300 < n.whole <= 304
    ensures Canned(n).Some? ==> Framable(Canned(n).value)
  {
  }

  lemma CannedParts(n: Number)
    requires n.Num? && 304 < n.whole
    ensures Canned(n).Some? ==> Framable(Canned(n).value)
  {
  }

  /** Every answered command has a canned reply exactly when it is documented. */
  lemma CannedIsDocumented(n: Number)
    ensures Canned(n).Some? <==> n in DOCUMENTED
  {
  }

  /**
   What a client learns from a query, and that nothing changes: of a positive
   integer variable the value stored, or zero if there is none; NaN for variable 0;
   and for a negative or fractional one only that its number is bad.
   */
  lemma QueryLearns(store: Store, v: Number)
    ensures StoreAfter(store, Query(v)) == store
    ensures ParseResponse(Query(v), Reply(store, Query(v))) ==
              if v.Whole() < 0 || v.Frac() != 0 then Opaque("?, BAD VARIABLE NUMBER", false)
              else if v.Whole() == 0 then Value(NaN)
              else if v in store then Value(store[v])
              else Value(Num(0, 0))
  {
    hide ParseResponse, Number.FormatF;
    if v.Whole() < 0 || v.Frac() != 0 {
      BadVariable(v);
    } else if v.Whole() == 0 {
      ReportedValue(v, NaN);
      assert "MACRO, " + NaN.FormatF() == "MACRO, NaN" by { FormatNaN(); }
    } else {
      ReportedValue(v, Read(store, v));
    }
  }

  lemma BadVariable(v: Number)
    ensures ParseResponse(Query(v), "?, BAD VARIABLE NUMBER") == Opaque("?, BAD VARIABLE NUMBER", false)
  {
    hide ParseResponse, ParseNumber;
    BadText();
    QueryAnswer(v, "?", "BAD VARIABLE NUMBER");
  }

  lemma BadText()
    ensures "?" + (", " + "BAD VARIABLE NUMBER") == "?, BAD VARIABLE NUMBER"
    ensures Plain("?") && Plain("BAD VARIABLE NUMBER") && ParseNumber("BAD VARIABLE NUMBER").Err?
  {
    hide ParseNumber;
    NoComma("BAD VARIABLE NUMBER");
    NotANumber("BAD VARIABLE NUMBER");
  }

  lemma NoComma(s: Bytes)
    ensures ',' !in s ==> Plain(s)
  {
  }

  lemma NotANumber(s: Bytes)
    requires Tight(s) && |s| > 3 && 'A' <= s[0] <= 'Z'
    ensures ParseNumber(s).Err?
  {
    TrimTight(s);
    assert P.Span(P.Space, s) == 0 && s[0..] == s && P.Span(P.Digit, s) == 0;
    hide TrimSpace, P.Span;
  }

  /** What a client learns from a write, and what it does. */
  lemma WriteLearns(store: Store, v: Number, x: Number)
    ensures StoreAfter(store, Write(v, x)) == store[v := x]
    ensures ParseResponse(Write(v, x), Reply(store, Write(v, x))) == Opaque("!", true)
  {
  }

  /** What a client learns from a basic command: its canned text, or that it is unknown. */
  lemma BasicLearns(store: Store, n: Number)
    ensures StoreAfter(store, Basic(n)) == store
    ensures ParseResponse(Basic(n), Reply(store, Basic(n))) ==
              if n in DOCUMENTED then Opaque(Canned(n).value, false)
              else if n == Num(600, 0) then Opaque("MACRO, NaN", false)
              else Opaque("?, ?Q" + n.FormatD(), false)
  {
    CannedIsDocumented(n);
    hide Canned, Number.FormatD;
  }

  /** The canned texts. */
  lemma IdentityTexts()
    ensures Canned(Num(100, 0)) == Some("SERIAL NUMBER, 1024")
    ensures Canned(Num(101, 0)) == Some("SOFTWARE VERSION, 100.24.000.1024")
    ensures Canned(Num(102, 0)) == Some("MODEL, MDCMUX")
  {
  }

  lemma CounterTexts()
    ensures Canned(Num(104, 0)) == Some("MODE, STARTUP_MODE")
    ensures Canned(Num(200, 0)) == Some("TOOL CHANGES, 1024")
    ensures Canned(Num(201, 0)) == Some("USING TOOL, 16")
  {
  }

  lemma TimeTexts()
    ensures Canned(Num(300, 0)) == Some("P.O. TIME, 00012:34:56")
    ensures Canned(Num(301, 0)) == Some("C.S. TIME, 00012:34:56")
    ensures Canned(Num(303, 0)) == Some("LAST CYCLE, 00012:34:56")
    ensures Canned(Num(304, 0)) == Some("PREV CYCLE, 00012:34:56")
  {
  }

  lemma PartTexts()
    ensures Canned(Num(402, 0)) == Some("M30 #1, 22")
    ensures Canned(Num(403, 0)) == Some("M30 #2, 33")
    ensures Canned(Num(500, 0)) == Some("PROGRAM, MDI, ALARM ON, PARTS, 3205")
  {
  }

  /** A blank line gets no reply, one that does not parse a complaint, and neither changes anything. */
  lemma LinesRefused(store: Store, line: Bytes)
    ensures TrimSpace(line) == "" ==> LineReply(store, line) == None && LineStore(store, line) == store
    ensures TrimSpace(line) != "" && ParseCommand(TrimSpace(line)).Err? ==>
              LineReply(store, line) == Some("?, BAD MESSAGE") && LineStore(store, line) == store
  {
    EmptyDoesNotParse();
    hide TrimSpace, ParseCommand;
  }

  /** No reply but that to a write stored reads as success to one who has written. */
  lemma OnlyStoredSucceeds(store: Store, line: Bytes, v: Number, x: Number)
    requires LineReply(store, line).Some?
    ensures var r := LineReply(store, line).value;
            ParseResponse(Write(v, x), r)
            == Opaque(r, ParseCommand(TrimSpace(line)).Ok? && ParseCommand(TrimSpace(line)).value.Write?)
  {
    OtherAnswers(v, v, x, LineReply(store, line).value);
    if ParseCommand(TrimSpace(line)).Ok? { LongReply(store, ParseCommand(TrimSpace(line)).value); }
    hide ParseResponse, TrimSpace, ParseCommand, Reply;
  }

  lemma LongReply(store: Store, c: Command)
    ensures Reply(store, c) == "!" <==> c.Write?
  {
    hide Number.FormatF, Number.FormatD, Canned;
    if c.Basic? { LongCanned(c.number); }
  }

  lemma LongCanned(n: Number)
    ensures Canned(n).Some? ==> |Canned(n).value| > 1
  {
  }

  /** What a client learns from querying an integer variable. */
  lemma QueryReads(store: Store, n: Int64)
    requires n >= 0
    ensures ParseResponse(Query(Num(n, 0)), Reply(store, Query(Num(n, 0))))
         == Value(if n == 0 then NaN else if Num(n, 0) in store then store[Num(n, 0)] else Num(0, 0))
  {
    hide ParseResponse, Reply;
    QueryLearns(store, Num(n, 0));
  }

  lemma FormatNaN()
    ensures NaN.FormatF() == "NaN"
  {
  }

  /** The line of a well-formed command is served as that command. */
  lemma ServesCommand(store: Store, c: Command)
    requires WellFormed(c)
    ensures LineReply(store, c.Line()) == Some(Reply(store, c))
    ensures LineStore(store, c.Line()) == StoreAfter(store, c)
  {
    hide ParseCommand, TrimSpace, Command.Line;
    LineClean(c);
    TrimTight(c.Line());
    CommandRoundTrip(c);
  }
}
