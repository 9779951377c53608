/**
 Responses and the scanner's buffer. A scanner keeps one mutable array, shifts
 what it holds to the front and reads over the rest, so a token is only a view
 of that array until the next read. Responses are built from tokens; those that
 keep bytes keep a copy.
 */
module Buffers {
  import opened Wrappers
  import opened Bytes
  import opened Numbers
  import opened Commands
  import opened Responses
  import opened Wire

  /** A slice of an array. */
  datatype View = View(data: array<char>, lo: nat, hi: nat) {
    predicate Valid() { lo <= hi <= data.Length }

    function Content(): Bytes
      reads data
      requires Valid()
    {
      data[lo..hi]
    }
  }

  /** `bufio.Scanner` with the prompt split function. */
  class Scanner {
    var buf: array<char>
    var start: nat
    var end: nat
    var fault: bool     // a read has failed; no read follows

    predicate Valid()
      reads `buf, `start, `end
    {
      start <= end <= buf.Length
    }

    /** The bytes read and not yet scanned. */
    function Held(): Bytes
      requires Valid()
      reads `buf, `start, `end, buf
    {
      buf[start..end]
    }

    constructor ()
      ensures Valid() && Held() == "" && !fault && fresh(buf)
    {
      buf, start, end, fault := new char[4096], 0, 0, false;
    }

    /** Shift what is held to the front of the array. */
    method Shift()
      requires Valid()
      modifies `start, `end, buf
      ensures Valid() && buf == old(buf) && start == 0 && Held() == old(Held())
    {
      var n := end - start;
      for i := 0 to n
        invariant Valid() && buf == old(buf) && start == old(start) && end == old(end)
        invariant forall j | 0 <= j < i :: buf[j] == old(buf[start + j])
        invariant forall j | i <= j < buf.Length :: buf[j] == old(buf[j])
      {
        buf[i] := buf[start + i];
      }
      start, end := 0, n;
    }

    /** A larger array with what is held at its front. */
    method Grow(room: nat)
      requires Valid() && start == 0
      modifies `buf
      ensures Valid() && fresh(buf) && start == 0 && buf.Length >= end + room && Held() == old(Held())
    {
      var bigger := new char[buf.Length + end + room];
      for i := 0 to end
        invariant Valid() && buf == old(buf) && start == 0 && end == old(end)
        invariant forall j | 0 <= j < i :: bigger[j] == buf[j]
      {
        bigger[i] := buf[i];
      }
      buf := bigger;
    }

    /** The read itself, into the room after what is held. */
    method Append(data: Bytes)
      requires Valid() && start == 0 && end + |data| <= buf.Length
      modifies `end, buf
      ensures Valid() && buf == old(buf) && Held() == old(Held()) + data
    {
      ghost var held := buf[..end];
      for i := 0 to |data|
        invariant start == 0 && end == old(end) && buf == old(buf)
        invariant buf[..end] == held && buf[end..end + i] == data[..i]
      {
        buf[end + i] := data[i];
      }
      assert buf[..end + |data|] == buf[..end] + buf[end..end + |data|];
      end := end + |data|;
    }

    /** A read brings some bytes. */
    method Fill(data: Bytes)
      requires Valid()
      modifies `start, `end, `buf, buf
      ensures Valid() && (buf == old(buf) || fresh(buf)) && Held() == old(Held()) + data
    {
      Shift();
      if buf.Length - end < |data| { Grow(|data|); }
      Append(data);
    }

    /** The next token, if what is held gives one: a view of the array. */
    method Next(atEOF: bool) returns (token: Option<View>)
      requires Valid()
      modifies `start
      ensures Valid() && buf == old(buf)
      ensures var r := PromptSplit(old(Held()), atEOF);
              && Held() == old(Held())[r.advance..]
              && token.Some? == r.token.Some?
              && (token.Some? ==>
                    token.value.data == buf && token.value.Valid() && token.value.Content() == r.token.value)
    {
      hide PromptSplit, ScanLines, LeadingPrompts;
      var held := buf[start..end];
      NoToken(held, atEOF);
      var lines := ScanLines(held, atEOF);
      var first := start;
      start := start + lines.advance;
      Slice(buf[..], first, end, lines.advance, end - first);
      if lines.token.None? { return None; }
      var line := lines.token.value;
      TokenPlace(held, atEOF);
      var k := if LeadingPrompts(line) < |line| then LeadingPrompts(line) else 0;
      token := Some(View(buf, first + k, first + |line|));
      Slice(buf[..], first, end, k, |line|);
    }
  }

  lemma NoToken(data: Bytes, atEOF: bool)
    ensures PromptSplit(data, atEOF).advance == ScanLines(data, atEOF).advance
    ensures PromptSplit(data, atEOF).token.Some? == ScanLines(data, atEOF).token.Some?
  {
    hide ScanLines, StripPrompts;
  }

  /** A token is a slice of the data: a line from its start, without its leading prompts. */
  lemma TokenPlace(data: Bytes, atEOF: bool)
    requires ScanLines(data, atEOF).token.Some?
    ensures var line := ScanLines(data, atEOF).token.value;
            var k := if LeadingPrompts(line) < |line| then LeadingPrompts(line) else 0;
            |line| <= |data| && PromptSplit(data, atEOF).token == Some(data[k..|line|])
  {
    LinePlace(data, atEOF);
    hide ScanLines, LeadingPrompts;
  }

  lemma Slice(s: Bytes, a: nat, b: nat, k: nat, m: nat)
    requires a <= b <= |s| && k <= m <= b - a
    ensures s[a..b][k..m] == s[a + k..a + m]
  {
    forall i | 0 <= i < m - k ensures s[a..b][k..m][i] == s[a + k..a + m][i] { }
  }

  /** A line is found at the beginning of the data. */
  lemma LinePlace(data: Bytes, atEOF: bool)
    requires ScanLines(data, atEOF).token.Some?
    ensures var line := ScanLines(data, atEOF).token.value; |line| <= |data| && line == data[..|line|]
  {
    hide LineEnd;
    assert data == data[..|data|];
  }

  /** `opaqueResponse`. */
  class OpaqueResponse {
    const buf: array<char>
    const success: bool

    /** `OpaqueResponse`: clones the bytes it is given. */
    constructor (data: View, success: bool)
      requires data.Valid()
      ensures fresh(buf) && buf[..] == data.Content() && this.success == success
    {
      var copy := new char[data.hi - data.lo];
      for i := 0 to copy.Length
        invariant forall j | 0 <= j < i :: copy[j] == data.data[data.lo + j]
      {
        copy[i] := data.data[data.lo + i];
      }
      this.buf, this.success := copy, success;
    }
  }

  datatype Answer = Parsed(value: Number) | Unparsed(response: OpaqueResponse)

  /** What a response object says now. */
  function Meaning(a: Answer): Response
    reads if a.Unparsed? then {a.response.buf} else {}
  {
    match a
    case Parsed(n) => Value(n)
    case Unparsed(r) => Opaque(r.buf[..], r.success)
  }

  /** The `ParseResponse` methods, on a view of the scanner's array. */
  method Interpret(c: Command, data: View) returns (a: Answer)
    requires data.Valid()
    ensures Meaning(a) == ParseResponse(c, data.Content())
    ensures a.Unparsed? ==> fresh(a.response.buf)
  {
    hide ParseNumber, SplitFields;
    var success := false;
    match c {
      case Basic(_) =>
      case Write(_, _) => success := data.data[data.lo..data.hi] == "!";
      case Query(_) =>
        var parts := SplitFields(data.data[data.lo..data.hi]);
        if |parts| == 2 {
          var num := ParseNumber(parts[1]);
          if num.Ok? { return Parsed(num.value); }
        }
    }
    var r := new OpaqueResponse(data, success);
    a := Unparsed(r);
  }

  /** A round trip: a command, and the reads that bring its answer. */
  datatype Round = Round(cmd: Command, chunks: seq<Bytes>)

  /** The responses of a list of round trips, each from its own token; they end when a token is missing or empty. */
  function Said(held: Bytes, rounds: seq<Round>): seq<Response>
    decreases |rounds|
  {
    if rounds == [] then []
    else
      var data := held + Concat(rounds[0].chunks);
      var r := PromptSplit(data, false);
      if r.token.None? || r.token.value == "" then []
      else [ParseResponse(rounds[0].cmd, r.token.value)] + Said(data[r.advance..], rounds[1..])
  }

  method FillAll(sc: Scanner, chunks: seq<Bytes>)
    requires sc.Valid()
    modifies sc`start, sc`end, sc`buf, sc.buf
    ensures sc.Valid() && (sc.buf == old(sc.buf) || fresh(sc.buf)) && sc.Held() == old(sc.Held()) + Concat(chunks)
    decreases |chunks|
  {
    hide Scanner.Held, Concat;
    ConcatStep(sc.Held(), chunks);
    if chunks != [] {
      sc.Fill(chunks[0]);
      FillAll(sc, chunks[1..]);
    }
  }

  lemma ConcatStep(held: Bytes, chunks: seq<Bytes>)
    ensures held + Concat(chunks) == if chunks == [] then held else held + chunks[0] + Concat(chunks[1..])
  {
  }

  /** One round trip: its reads, its token, its response. */
  method RoundTrip(sc: Scanner, round: Round) returns (a: Option<Answer>)
    requires sc.Valid()
    modifies sc, sc.buf
    ensures sc.Valid() && (sc.buf == old(sc.buf) || fresh(sc.buf))
    ensures var data := old(sc.Held()) + Concat(round.chunks);
            var r := PromptSplit(data, false);
            && sc.Held() == data[r.advance..]
            && a.Some? == (r.token.Some? && r.token.value != "")
            && (a.Some? ==> Meaning(a.value) == ParseResponse(round.cmd, r.token.value))
    ensures a.Some? && a.value.Unparsed? ==> fresh(a.value.response.buf) && a.value.response.buf != sc.buf
  {
    hide Scanner.Held, ParseResponse, PromptSplit, Concat;
    FillAll(sc, round.chunks);
    var token := sc.Next(false);
    if token.None? || token.value.lo == token.value.hi { return None; }
    var answer := Interpret(round.cmd, token.value);
    a := Some(answer);
  }

  /**
   Responses are stable. After any list of round trips over one scanner, which
   has shifted, overwritten and replaced its array all along, every response
   still says what the token of its own round trip said.
   */
  method Converse(sc: Scanner, rounds: seq<Round>) returns (answers: seq<Answer>)
    requires sc.Valid()
    modifies sc, sc.buf
    ensures |answers| == |Said(old(sc.Held()), rounds)|
    ensures forall i | 0 <= i < |answers| :: Meaning(answers[i]) == Said(old(sc.Held()), rounds)[i]
  {
    hide Scanner.Held, ParseResponse, PromptSplit, Concat, Said, Meaning;
    answers := [];
    ghost var all := Said(sc.Held(), rounds);
    assert rounds[0..] == rounds && all[0..] == all;
    for n := 0 to |rounds|
      invariant sc.Valid() && (sc.buf == old(sc.buf) || fresh(sc.buf))
      invariant |answers| <= |all| && all[|answers|..] == Said(sc.Held(), rounds[n..])
      invariant forall i | 0 <= i < |answers| :: Separate(answers[i], sc.buf) && Meaning(answers[i]) == all[i]
    {
      assert rounds[n..][0] == rounds[n] && rounds[n..][1..] == rounds[n + 1..];
      SaidStep(sc.Held(), rounds[n..]);
      var a := RoundTrip(sc, rounds[n]);
      if a.None? { return; }
      Advance(all, |answers|, Meaning(a.value), Said(sc.Held(), rounds[n + 1..]));
      answers := answers + [a.value];
    }
    SaidStep(sc.Held(), rounds[|rounds|..]);
  }

  lemma SaidStep(held: Bytes, rounds: seq<Round>)
    ensures Said(held, rounds) ==
            if rounds == [] then []
            else
              var data := held + Concat(rounds[0].chunks);
              var r := PromptSplit(data, false);
              if r.token.None? || r.token.value == "" then []
              else [ParseResponse(rounds[0].cmd, r.token.value)] + Said(data[r.advance..], rounds[1..])
  {
  }

  lemma Advance(all: seq<Response>, k: nat, first: Response, rest: seq<Response>)
    requires k <= |all| && all[k..] == [first] + rest
    ensures k < |all| && all[k] == first && all[k + 1..] == rest
  {
    assert all[k..][1..] == all[k + 1..];
  }

  /** The response keeps no part of the scanner's array. */
  ghost predicate Separate(a: Answer, buf: array<char>) { a.Unparsed? ==> a.response.buf != buf }
}
