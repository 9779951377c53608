/**
 Line framing: how lines are cut out of a byte stream, the `>` prompts around
 them, and the writer side that produces them.
 */
module Wire {
  import opened Wrappers
  import opened Bytes

  const PROMPT: char := '>'
  const EOL: Bytes := "\r\n"

  /** What a split function returns: how far to advance, and a token if there is one. */
  datatype Split = Split(advance: nat, token: Option<Bytes>)

  /** Position of the first line feed, or |s|. */
  function LineEnd(s: Bytes): (n: nat)
    ensures n <= |s| && LF !in s[..n] && (n < |s| ==> s[n] == LF)
  {
    if s == "" || s[0] == LF then 0
    else
      var n := LineEnd(s[1..]) + 1;
      assert s[..n] == [s[0]] + s[1..][..n - 1];
      n
  }

  function DropCR(s: Bytes): Bytes { if s != "" && s[|s| - 1] == CR then s[..|s| - 1] else s }

  /** `bufio.ScanLines`. */
  function ScanLines(data: Bytes, atEOF: bool): (r: Split)
    ensures r.advance <= |data| && (r.token.Some? ==> r.advance > 0)
  {
    var n := LineEnd(data);
    if n < |data| then Split(n + 1, Some(DropCR(data[..n])))
    else if atEOF && data != "" then Split(|data|, Some(DropCR(data)))
    else Split(0, None)
  }

  function LeadingPrompts(s: Bytes): (n: nat)
    ensures n <= |s| && (forall i | 0 <= i < n :: s[i] == PROMPT) && (n < |s| ==> s[n] != PROMPT)
  {
    if s == "" || s[0] != PROMPT then 0 else 1 + LeadingPrompts(s[1..])
  }

  /** A token without its leading prompts; a token of nothing but prompts stays whole. */
  function StripPrompts(s: Bytes): Bytes {
    if LeadingPrompts(s) < |s| then s[LeadingPrompts(s)..] else s
  }

  /** A line with its carriage return and prompts removed. */
  function Payload(line: Bytes): Bytes { StripPrompts(DropCR(line)) }

  function PromptSplit(data: Bytes, atEOF: bool): (r: Split)
    ensures r.advance <= |data| && (r.token.Some? ==> r.advance > 0)
  {
    var r := ScanLines(data, atEOF);
    if r.token.Some? then r.(token := Some(StripPrompts(r.token.value))) else r
  }

  /** `ScanPrompt`. */
  method ScanPrompt(data: Bytes, atEOF: bool) returns (advance: nat, token: Option<Bytes>)
    ensures Split(advance, token) == PromptSplit(data, atEOF)
  {
    var r := ScanLines(data, atEOF);
    advance, token := r.advance, r.token;
    if token.Some? {
      var line := token.value;
      for idx := 0 to |line|
        invariant forall i | 0 <= i < idx :: line[i] == PROMPT
        invariant token == Some(line)
      {
        if line[idx] != PROMPT {
          LeadingPromptsAt(line, idx);
          token := Some(line[idx..]);
          break;
        }
      }
      if forall i | 0 <= i < |line| :: line[i] == PROMPT {
        assert LeadingPrompts(line) == |line|;
      }
    }
  }

  lemma {:induction false} LeadingPromptsAt(s: Bytes, n: nat)
    requires n < |s| && s[n] != PROMPT && forall i | 0 <= i < n :: s[i] == PROMPT
    ensures LeadingPrompts(s) == n
  {
    if n > 0 { LeadingPromptsAt(s[1..], n - 1); }
  }

  // ----- the scanning loop

  datatype Mode = Lines | Prompts

  function SplitBy(mode: Mode, data: Bytes, atEOF: bool): (r: Split)
    ensures r.advance <= |data| && (r.token.Some? ==> r.advance > 0)
  {
    if mode.Lines? then ScanLines(data, atEOF) else PromptSplit(data, atEOF)
  }

  function Finish(mode: Mode, line: Bytes): Bytes {
    if mode.Lines? then DropCR(line) else Payload(line)
  }

  /** The tokens a scanner yields from what it buffers and the chunks its reads will bring before end of input. */
  function Drain(mode: Mode, buf: Bytes, chunks: seq<Bytes>): seq<Bytes>
    decreases |chunks|, |buf|
  {
    var r := SplitBy(mode, buf, false);
    if r.token.Some? then [r.token.value] + Drain(mode, buf[r.advance..], chunks)
    else if chunks != [] then Drain(mode, buf + chunks[0], chunks[1..])
    else DrainRest(mode, buf)
  }

  /** The same once end of input is known. */
  function DrainRest(mode: Mode, buf: Bytes): seq<Bytes> {
    var r := SplitBy(mode, buf, true);
    if r.token.Some? then [r.token.value] + DrainRest(mode, buf[r.advance..]) else []
  }

  function Concat(parts: seq<Bytes>): Bytes {
    if parts == [] then "" else parts[0] + Concat(parts[1..])
  }

  /** The lines of a whole stream, the last perhaps without its line feed. */
  function Tokens(mode: Mode, stream: Bytes): seq<Bytes> {
    var n := LineEnd(stream);
    if n < |stream| then [Finish(mode, stream[..n])] + Tokens(mode, stream[n + 1..])
    else if stream != "" then [Finish(mode, stream)]
    else []
  }

  lemma {:induction false} LineEndOf(s: Bytes, t: Bytes)
    requires LF !in s
    ensures LineEnd(s + t) == |s| + LineEnd(t)
  {
    if s == "" {
      assert s + t == t;
    } else {
      assert (s + t)[1..] == s[1..] + t;
      LineEndOf(s[1..], t);
    }
  }

  lemma {:induction false} DrainRestIsTokens(mode: Mode, buf: Bytes)
    ensures DrainRest(mode, buf) == Tokens(mode, buf)
  {
    var n := LineEnd(buf);
    if n < |buf| {
      DrainRestIsTokens(mode, buf[n + 1..]);
    } else if buf != "" {
      assert DrainRest(mode, buf[|buf|..]) == [];
    }
  }

  lemma FirstToken(mode: Mode, buf: Bytes, tail: Bytes)
    requires LineEnd(buf) < |buf|
    ensures Tokens(mode, buf + tail)
         == [Finish(mode, buf[..LineEnd(buf)])] + Tokens(mode, buf[LineEnd(buf) + 1..] + tail)
  {
    hide Finish, Tokens, LineEnd;
    FirstLineEnd(buf, tail);
    CutWithin(buf, tail, LineEnd(buf));
    TokensUnfold(mode, buf + tail);
  }

  lemma CutWithin(buf: Bytes, tail: Bytes, n: nat)
    requires n < |buf|
    ensures (buf + tail)[..n] == buf[..n] && (buf + tail)[n + 1..] == buf[n + 1..] + tail
  {
  }

  lemma FirstLineEnd(buf: Bytes, tail: Bytes)
    requires LineEnd(buf) < |buf|
    ensures LineEnd(buf + tail) == LineEnd(buf)
  {
    var n, stream := LineEnd(buf), buf + tail;
    LineEndOf(buf[..n], stream[n..]);
    assert buf[..n] + stream[n..] == stream && stream[n..][0] == LF;
  }

  lemma TokensUnfold(mode: Mode, stream: Bytes)
    requires LineEnd(stream) < |stream|
    ensures Tokens(mode, stream)
            == [Finish(mode, stream[..LineEnd(stream)])] + Tokens(mode, stream[LineEnd(stream) + 1..])
  {
    hide Finish, LineEnd;
  }

  /** Chunk independence: however a stream is cut into reads, the same tokens come out. */
  lemma {:induction false} ChunkIndependence(mode: Mode, buf: Bytes, chunks: seq<Bytes>)
    ensures Drain(mode, buf, chunks) == Tokens(mode, buf + Concat(chunks))
    decreases |chunks|, |buf|
  {
    hide Tokens, DrainRest, LineEnd, StripPrompts, DropCR;
    var n := LineEnd(buf);
    if n < |buf| {
      ChunkIndependence(mode, buf[n + 1..], chunks);
      FirstToken(mode, buf, Concat(chunks));
    } else if chunks != [] {
      ChunkIndependence(mode, buf + chunks[0], chunks[1..]);
      assert buf + chunks[0] + Concat(chunks[1..]) == buf + Concat(chunks);
    } else {
      DrainRestIsTokens(mode, buf);
      assert buf + "" == buf;
    }
  }

  // ----- the lines a server finds in what was written to it

  /** The line of one written text, with or without its line feed. */
  function LineOf(text: Bytes): Bytes {
    DropCR(if text != "" && text[|text| - 1] == LF then text[..|text| - 1] else text)
  }

  /** One line: no line feed but at its end. */
  predicate OneLine(text: Bytes) { text != "" && LF !in text[..|text| - 1] }

  predicate EndsLine(text: Bytes) { text != "" && text[|text| - 1] == LF }

  /** Texts written one after the other, of which only the last may lack its line feed, arrive as their lines. */
  lemma {:induction false} LinesOfTexts(texts: seq<Bytes>)
    requires forall i | 0 <= i < |texts| :: OneLine(texts[i])
    requires forall i | 0 <= i < |texts| - 1 :: EndsLine(texts[i])
    ensures Tokens(Lines, Concat(texts)) == seq(|texts|, i requires 0 <= i < |texts| => LineOf(texts[i]))
  {
    hide Tokens, LineOf, OneLine, EndsLine;
    if texts != [] {
      var t, rest := texts[0], texts[1..];
      LinesOfTexts(rest);
      assert seq(|texts|, i requires 0 <= i < |texts| => LineOf(texts[i]))
          == [LineOf(t)] + seq(|rest|, i requires 0 <= i < |rest| => LineOf(rest[i]));
      FirstLine(t, rest);
    } else {
      assert Tokens(Lines, "") == [] by { LoneToken(Lines, ""); }
    }
  }

  lemma FirstLine(t: Bytes, rest: seq<Bytes>)
    requires OneLine(t) && (rest == [] || EndsLine(t))
    ensures Tokens(Lines, t + Concat(rest)) == [LineOf(t)] + Tokens(Lines, Concat(rest))
  {
    hide Tokens;
    var n := |t| - 1;
    assert t == t[..n] + [t[n]];
    LineEndOf(t[..n], [t[n]]);
    if t[n] == LF {
      FirstToken(Lines, t, Concat(rest));
      assert t[n + 1..] + Concat(rest) == Concat(rest);
    } else {
      assert rest == [] && Concat(rest) == "" && t + "" == t;
      LoneToken(Lines, t);
      LoneToken(Lines, "");
    }
  }

  // ----- the writing side

  /** One response as it goes out: prompt, payload, end of line, next prompt. */
  function Frame(payload: Bytes): Bytes { [PROMPT] + payload + EOL + [PROMPT] }

  function Frames(payloads: seq<Bytes>): Bytes {
    if payloads == [] then "" else Frame(payloads[0]) + Frames(payloads[1..])
  }

  /** A whole conversation: the greeting prompt, then a frame for each response. */
  function Conversation(payloads: seq<Bytes>): Bytes { [PROMPT] + Frames(payloads) }

  /** The bytes of a frame and of a conversation. */
  lemma FrameBytes(payload: Bytes, rest: seq<Bytes>)
    ensures Frame(payload) == ">" + payload + "\r\n>" && Conversation([]) == ">"
    ensures Conversation([payload] + rest) == ">" + ">" + payload + "\r\n" + Conversation(rest)
  {
    assert ([payload] + rest)[1..] == rest;
    assert Frame(payload) == ">" + payload + "\r\n>";
    assert Conversation([payload] + rest) == ">" + (Frame(payload) + Frames(rest));
  }

  /** Conversations continue by frames. */
  lemma {:induction false} FramesJoin(before: seq<Bytes>, after: seq<Bytes>)
    ensures Frames(before + after) == Frames(before) + Frames(after)
    ensures Conversation(before + after) == Conversation(before) + Frames(after)
  {
    if before == [] {
      assert before + after == after;
    } else {
      assert (before + after)[1..] == before[1..] + after;
      FramesJoin(before[1..], after);
    }
  }

  lemma FramesSnoc(before: seq<Bytes>, last: Bytes)
    ensures Conversation(before + [last]) == Conversation(before) + Frame(last)
  {
    FramesJoin(before, [last]);
    assert [last][1..] == [];
  }

  /** The bytes that go out of these, when the connection takes so many more, or any number. */
  function GoesOut(data: Bytes, room: Option<nat>): Bytes { if HasRoom(data, room) then data else data[..room.value] }

  predicate HasRoom(data: Bytes, room: Option<nat>) { room.None? || |data| <= room.value }

  function RoomAfter(data: Bytes, room: Option<nat>): Option<nat>
    requires HasRoom(data, room)
  {
    if room.None? then None else Some(room.value - |data|)
  }

  /** What a writer holds and has sent, how much more the connection takes, and whether a write has failed. */
  datatype Out = Out(buffered: Bytes, sent: Bytes, room: Option<nat>, broken: bool)

  /** A beginning goes out, as long as there is room for, and all if there is room for all. */
  lemma GoesOutExactly(data: Bytes, room: Option<nat>)
    ensures GoesOut(data, room) <= data
    ensures |GoesOut(data, room)| == if room.Some? && room.value < |data| then room.value else |data|
  {
  }

  /** Writing some bytes and flushing; also whether that went well. */
  function Flushed(o: Out, data: Bytes): (Out, bool) {
    var all := o.buffered + data;
    if o.broken then (o, false)
    else if HasRoom(all, o.room) then (Out("", o.sent + all, RoomAfter(all, o.room), false), true)
    else (Out(all[o.room.value..], o.sent + GoesOut(all, o.room), Some(0), true), false)
  }

  /** `bufio.Writer` over a connection that may fail at any byte. A failure is sticky. */
  class Writer {
    var buffered: Bytes
    var sent: Bytes
    var room: Option<nat>
    var broken: bool

    constructor (room: Option<nat>)
      ensures State() == Out("", "", room, false)
    {
      this.buffered, this.sent, this.room, this.broken := "", "", room, false;
    }

    function State(): Out
      reads this
    {
      Out(buffered, sent, room, broken)
    }

    method Write(data: Bytes) returns (ok: bool)
      modifies this
      ensures ok == !old(broken)
      ensures State() == if ok then old(State()).(buffered := old(buffered) + data) else old(State())
    {
      if !broken { buffered := buffered + data; }
      ok := !broken;
    }

    method Flush() returns (ok: bool)
      modifies this
      ensures (State(), ok) == Flushed(old(State()), "")
    {
      assert buffered + "" == buffered;
      if broken { return false; }
      ok := room.None? || |buffered| <= room.value;
      if ok {
        sent, room, buffered := sent + buffered, RoomAfter(buffered, room), "";
      } else {
        sent, buffered := sent + buffered[..room.value], buffered[room.value..];
        room, broken := Some(0), true;
      }
    }
  }

  method WritePrompt(w: Writer) returns (ok: bool)
    modifies w
    ensures (w.State(), ok) == Flushed(old(w.State()), [PROMPT])
  {
    ok := w.Write([PROMPT]);
    if !ok { return; }
    ok := w.Flush();
    assert old(w.buffered) + [PROMPT] + "" == old(w.buffered) + [PROMPT];
  }

  /** The payload is the text `WriteResponse` has formatted. */
  method WriteResponse(w: Writer, payload: Bytes) returns (ok: bool)
    modifies w
    ensures (w.State(), ok) == Flushed(old(w.State()), Frame(payload))
  {
    ok := w.Write([PROMPT]);
    if !ok { return; }
    ok := w.Write(payload);
    if !ok { return; }
    ok := w.Write(EOL);
    if !ok { return; }
    ok := WritePrompt(w);
    FrameParts(old(w.buffered), payload);
  }

  lemma FrameParts(before: Bytes, payload: Bytes)
    ensures before + [PROMPT] + payload + EOL + [PROMPT] == before + Frame(payload)
  {
  }

  /** A writer that has sent all of a conversation so far. */
  predicate SentAll(o: Out, payloads: seq<Bytes>, room: Option<nat>) {
    && HasRoom(Conversation(payloads), room)
    && o == Out("", Conversation(payloads), RoomAfter(Conversation(payloads), room), false)
  }

  /** The writer has sent what the connection takes of a conversation, all of it exactly if the last write went well. */
  predicate Delivered(o: Out, ok: bool, payloads: seq<Bytes>, room: Option<nat>) {
    && (ok <==> HasRoom(Conversation(payloads), room)) && (ok ==> SentAll(o, payloads, room))
    && o.sent == GoesOut(Conversation(payloads), room)
  }

  lemma GreetingSent(room: Option<nat>)
    ensures var (o, ok) := Flushed(Out("", "", room, false), [PROMPT]); Delivered(o, ok, [], room)
  {
    assert Conversation([]) == [PROMPT];
  }

  lemma FrameSent(o: Out, payloads: seq<Bytes>, last: Bytes, room: Option<nat>)
    requires SentAll(o, payloads, room)
    ensures var (o', ok) := Flushed(o, Frame(last)); Delivered(o', ok, payloads + [last], room)
  {
    hide Conversation, Frame;
    FramesSnoc(payloads, last);
    assert "" + Frame(last) == Frame(last);
  }

  /** Once a conversation does not fit, no more of a longer one goes out. */
  lemma CutShort(payloads: seq<Bytes>, all: seq<Bytes>, room: Option<nat>)
    requires payloads <= all && !HasRoom(Conversation(payloads), room)
    ensures !HasRoom(Conversation(all), room)
            && GoesOut(Conversation(all), room) == GoesOut(Conversation(payloads), room)
  {
    hide Conversation, Frames;
    FramesJoin(payloads, all[|payloads|..]);
    assert payloads + all[|payloads|..] == all;
  }

  // ----- framing round trip

  /** A row of the stream as the reader sees it: the prompt left over, the frame's own, the payload. */
  function Row(payload: Bytes): Bytes { ">>" + (payload + EOL) }

  function Rows(payloads: seq<Bytes>): Bytes {
    if payloads == [] then "" else Row(payloads[0]) + Rows(payloads[1..])
  }

  lemma {:induction false} ConversationRows(payloads: seq<Bytes>)
    ensures Conversation(payloads) == Rows(payloads) + [PROMPT]
  {
    if payloads != [] {
      var p, rest := payloads[0], payloads[1..];
      ConversationRows(rest);
      calc {
        Conversation(payloads);
        [PROMPT] + ([PROMPT] + p + EOL + [PROMPT] + Frames(rest));
        Row(p) + ([PROMPT] + Frames(rest));
        Row(p) + (Rows(rest) + [PROMPT]);
        Rows(payloads) + [PROMPT];
      }
    }
  }

  /** A payload that framing carries: not empty, one line, not starting with a prompt. */
  predicate Framable(p: Bytes) { p != "" && LF !in p && p[0] != PROMPT }

  lemma RowPayload(p: Bytes)
    requires LF !in p
    ensures Payload(">>" + (p + [CR])) == p <==> Framable(p)
  {
    var line := ">>" + (p + [CR]);
    assert DropCR(line) == ">>" + p;
    var s := ">>" + p;
    if p != "" && p[0] != PROMPT {
      LeadingPromptsAt(s, 2);
      assert s[2..] == p;
    } else if p == "" {
      assert |StripPrompts(s)| == 2;
    } else {
      assert |StripPrompts(s)| < |p| || StripPrompts(s) == s by {
        if LeadingPrompts(s) < |s| {
          assert LeadingPrompts(s) > 2 by { assert s[2] == p[0]; }
        }
      }
    }
  }

  /** The first row of a stream is cut off by the first line feed. */
  lemma FirstRow(p: Bytes, rest: Bytes)
    requires LF !in p
    ensures LineEnd(Row(p) + rest) == |p| + 3 < |Row(p) + rest|
    ensures (Row(p) + rest)[..|p| + 3] == ">>" + (p + [CR]) && (Row(p) + rest)[|p| + 4..] == rest
  {
    var line := ">>" + (p + [CR]);
    var tail := [LF] + rest;
    assert Row(p) + rest == line + tail;
    LineEndOf(line, tail);
  }

  lemma RowToken(p: Bytes, rest: Bytes)
    requires LF !in p
    ensures Tokens(Prompts, Row(p) + rest) == [Payload(">>" + (p + [CR]))] + Tokens(Prompts, rest)
  {
    hide LineEnd, Payload, Row;
    FirstRow(p, rest);
  }

  lemma LoneToken(mode: Mode, s: Bytes)
    requires LF !in s
    ensures Tokens(mode, s) == if s == "" then [] else [Finish(mode, s)]
  {
    hide Finish;
    assert s + "" == s;
    LineEndOf(s, "");
    assert s[..|s|] == s;
  }

  lemma {:induction false} RowsTokens(payloads: seq<Bytes>)
    requires forall i | 0 <= i < |payloads| :: Framable(payloads[i])
    ensures Tokens(Prompts, Rows(payloads) + [PROMPT]) == payloads + [[PROMPT]]
  {
    hide Tokens, Payload, Row;
    if payloads == [] {
      assert Rows(payloads) + [PROMPT] == [PROMPT];
      LoneToken(Prompts, [PROMPT]);
      assert Payload([PROMPT]) == [PROMPT] by { LonePrompt(); }
    } else {
      var p, rest := payloads[0], payloads[1..];
      RowsTokens(rest);
      RowToken(p, Rows(rest) + [PROMPT]);
      RowPayload(p);
      assert Rows(payloads) + [PROMPT] == Row(p) + (Rows(rest) + [PROMPT]);
      assert [p] + (rest + [[PROMPT]]) == payloads + [[PROMPT]];
    }
  }

  lemma LonePrompt()
    ensures Payload([PROMPT]) == [PROMPT]
  {
    assert LeadingPrompts([PROMPT]) == 1;
  }

  function LineFeeds(s: Bytes): nat {
    if s == "" then 0 else (if s[0] == LF then 1 else 0) + LineFeeds(s[1..])
  }

  lemma {:induction false} LineFeedsJoin(s: Bytes, t: Bytes)
    ensures LineFeeds(s + t) == LineFeeds(s) + LineFeeds(t)
  {
    if s == "" {
      assert s + t == t;
    } else {
      assert (s + t)[1..] == s[1..] + t;
      LineFeedsJoin(s[1..], t);
    }
  }

  lemma {:induction false} NoLineFeeds(s: Bytes)
    ensures LF !in s <==> LineFeeds(s) == 0
  {
    if s != "" {
      assert s == [s[0]] + s[1..];
      NoLineFeeds(s[1..]);
    }
  }

  /** A stream yields at least one token for each line feed. */
  lemma {:induction false} TokenCount(mode: Mode, stream: Bytes)
    ensures |Tokens(mode, stream)| >= LineFeeds(stream)
    ensures stream != "" && stream[|stream| - 1] != LF ==> |Tokens(mode, stream)| == LineFeeds(stream) + 1
  {
    hide Tokens, LineEnd, Finish;
    var n := LineEnd(stream);
    NoLineFeeds(stream[..n]);
    if n < |stream| {
      var rest := stream[n + 1..];
      TokenCount(mode, rest);
      FirstToken(mode, stream, "");
      assert stream + "" == stream && rest + "" == rest;
      assert stream == stream[..n] + ([LF] + rest);
      LineFeedsJoin(stream[..n], [LF] + rest);
      assert ([LF] + rest)[1..] == rest;
    } else {
      assert stream[..n] == stream;
      LoneToken(mode, stream);
    }
  }

  lemma {:induction false} RowsLineFeeds(payloads: seq<Bytes>)
    ensures LineFeeds(Rows(payloads)) >= |payloads|
    ensures (exists i | 0 <= i < |payloads| :: LF in payloads[i]) ==> LineFeeds(Rows(payloads)) > |payloads|
  {
    if payloads != [] {
      var p, rest := payloads[0], payloads[1..];
      RowsLineFeeds(rest);
      LineFeedsJoin(Row(p), Rows(rest));
      LineFeedsJoin(">>", p + EOL);
      LineFeedsJoin(p, EOL);
      NoLineFeeds(p);
      assert EOL[1..] == [LF] && LineFeeds([LF]) == 1 && LineFeeds(EOL) == 1;
      if i :| 0 <= i < |payloads| && LF in payloads[i] {
        assert i == 0 || payloads[i] == rest[i - 1];
      }
    }
  }

  lemma {:induction false} RowsTokensConverse(payloads: seq<Bytes>)
    requires forall i | 0 <= i < |payloads| :: LF !in payloads[i]
    requires Tokens(Prompts, Rows(payloads) + [PROMPT]) == payloads + [[PROMPT]]
    ensures forall i | 0 <= i < |payloads| :: Framable(payloads[i])
  {
    hide Tokens, Payload, Row, Framable;
    if payloads != [] {
      var p, rest := payloads[0], payloads[1..];
      var stream, after := Rows(payloads) + [PROMPT], Rows(rest) + [PROMPT];
      RowToken(p, after);
      assert stream == Row(p) + after;
      RowPayload(p);
      assert Tokens(Prompts, stream)[0] == p;
      assert Tokens(Prompts, after) == Tokens(Prompts, stream)[1..] == rest + [[PROMPT]];
      RowsTokensConverse(rest);
    }
  }

  /**
   Framing round trip. The greeting and the frames of a list of payloads, cut
   into any chunks and scanned, give back exactly the payloads and then a lone
   prompt, if and only if every payload is framable.
   */
  lemma FramingRoundTrip(payloads: seq<Bytes>, chunks: seq<Bytes>)
    requires Concat(chunks) == Conversation(payloads)
    ensures Drain(Prompts, "", chunks) == payloads + [[PROMPT]]
       <==> forall i | 0 <= i < |payloads| :: Framable(payloads[i])
  {
    hide Tokens, Framable, Row, Conversation, Drain;
    ChunkIndependence(Prompts, "", chunks);
    ConversationRows(payloads);
    var stream := Rows(payloads) + [PROMPT];
    assert "" + Concat(chunks) == stream;
    if forall i | 0 <= i < |payloads| :: Framable(payloads[i]) {
      RowsTokens(payloads);
    } else if Tokens(Prompts, stream) == payloads + [[PROMPT]] {
      TokenCount(Prompts, stream);
      RowsLineFeeds(payloads);
      LineFeedsJoin(Rows(payloads), [PROMPT]);
      RowsTokensConverse(payloads);
    }
  }
}
