/**
 The connection object as the program has it: three fields behind a mutex, and
 the methods that run while the mutex is held, statement by statement. What the
 network and the idle goroutine do meanwhile comes in as a parameter.
 `Conn` is the same object among concurrent callers.
 */
module Connection {
  import opened Wrappers
  import opened Bytes
  import opened Commands
  import opened Responses
  import opened Wire
  import opened Buffers
  import Conn

  /**
   The keep-alive channel, with one slot. A send waits until the goroutine has
   taken the token before it; `ConnShape` says when that never happens.
   */
  class Channel {
    var tokens: nat
    var closed: bool

    constructor ()
      ensures tokens == 0 && !closed
    {
      tokens, closed := 0, false;
    }

    method Send()
      requires !closed
      modifies this
      ensures tokens == 1 && !closed
    {
      tokens := 1;
    }

    /** Closing a closed channel panics. */
    method Close()
      requires !closed
      modifies this
      ensures closed && tokens == old(tokens)
    {
      closed := true;
    }
  }

  /** A socket, with everything written to it. */
  class Socket {
    var open: bool
    var sent: Bytes

    constructor ()
      ensures open && sent == ""
    {
      open, sent := true, "";
    }

    /** Writes all of the data, or a beginning of it when the connection breaks. */
    method Write(data: Bytes, broken: Option<nat>) returns (ok: bool)
      modifies this
      ensures ok == broken.None? && open == old(open) && sent == old(sent) + Wrote(data, broken)
    {
      ok := broken.None?;
      sent := sent + Wrote(data, broken);
    }

    method Close()
      modifies this
      ensures !open && sent == old(sent)
    {
      open := false;
    }
  }

  function Wrote(data: Bytes, broken: Option<nat>): Bytes {
    if broken.None? then data else if broken.value <= |data| then data[..broken.value] else data
  }

  /** A write that breaks leaves as much of the data as it got through, and one that does not leaves all. */
  lemma WroteExactly(data: Bytes, broken: Option<nat>)
    ensures Wrote(data, broken) <= data
    ensures |Wrote(data, broken)| == if broken.Some? && broken.value < |data| then broken.value else |data|
  {
  }

  /**
   What happens during one write and the wait for its answer: where the write
   breaks, what the reads bring, whether one fails.
   */
  datatype Trip = Trip(broken: Option<nat>, chunks: seq<Bytes>, fault: bool)

  /** What the scanner looks at: once a read has failed it reads no more. */
  function Data(held: Bytes, trip: Trip, faulted: bool): Bytes {
    held + if faulted then "" else Concat(trip.chunks)
  }

  /** The token a trip yields, if any; an empty one does not count. */
  function TokenOf(held: Bytes, trip: Trip, faulted: bool): Option<Bytes> {
    if trip.broken.Some? then None
    else
      var t := PromptSplit(Data(held, trip, faulted), faulted || trip.fault).token;
      if t.Some? && t.value != "" then t else None
  }

  /** The token is the first line there is, without its prompts; an empty one, like a broken write, is a failure. */
  lemma TripToken(held: Bytes, trip: Trip, faulted: bool, line: Bytes, rest: Bytes)
    requires LF !in line && Data(held, trip, faulted) == line + ([LF] + rest)
    ensures TokenOf(held, trip, faulted)
            == if trip.broken.Some? || Payload(line) == "" then None else Some(Payload(line))
    ensures RestOf(held, trip, faulted) == rest
  {
    hide StripPrompts, DropCR;
    var data := Data(held, trip, faulted);
    LineEndOf(line, [LF] + rest);
    assert LineEnd([LF] + rest) == 0;
    assert data[..|line|] == line && data[|line| + 1..] == rest;
    hide LineEnd, Data;
  }

  /** Without a line there is no token, unless a read has failed: then what there is counts as one. */
  lemma TripWithoutLine(held: Bytes, trip: Trip, faulted: bool)
    requires LF !in Data(held, trip, faulted)
    ensures var data := Data(held, trip, faulted);
            TokenOf(held, trip, faulted)
            == if trip.broken.Some? || !(faulted || trip.fault) || data == "" || Payload(data) == "" then None
               else Some(Payload(data))
  {
    var data := Data(held, trip, faulted);
    LineEndOf(data, "");
    assert data + "" == data && LineEnd("") == 0;
    hide LineEnd, Data;
  }

  /** What stays in the scanner afterwards. */
  function RestOf(held: Bytes, trip: Trip, faulted: bool): Bytes {
    var data := Data(held, trip, faulted);
    data[PromptSplit(data, faulted || trip.fault).advance..]
  }

  /** The response to a command written on an open connection. */
  function Answered(cmd: Command, held: Bytes, trip: Trip, faulted: bool): Option<Response> {
    match TokenOf(held, trip, faulted)
    case None => None
    case Some(t) => Some(ParseResponse(cmd, t))
  }

  function Heard(a: Option<Answer>): Option<Response>
    reads if a.Some? && a.value.Unparsed? then {a.value.response.buf} else {}
  {
    if a.None? then None else Some(Meaning(a.value))
  }

  class Connection {
    var conn: Socket?
    var keepAlive: Channel?
    var respScanner: Scanner?

    constructor ()
      ensures Valid() && conn == null
    {
      conn, keepAlive, respScanner := null, null, null;
    }

    /** All set or all nil, and what is set is open. */
    ghost predicate Valid()
      reads this, conn, keepAlive, respScanner
    {
      && (conn == null <==> keepAlive == null) && (conn == null <==> respScanner == null)
      && (conn != null ==> conn.open && !keepAlive.closed && respScanner.Valid())
    }

    /** `closeLocked`. */
    method CloseLocked()
      requires Valid()
      modifies this, conn, keepAlive
      ensures conn == null && keepAlive == null && respScanner == null
      ensures old(conn) != null ==> !old(conn).open && old(keepAlive).closed && old(conn).sent == old(conn.sent)
    {
      if conn != null {
        conn.Close();
        conn := null;
      }
      if keepAlive != null {
        keepAlive.Close();
        keepAlive := null;
      }
      respScanner := null;
    }

    /** `dialLocked`: a new socket, channel and scanner, or nothing. */
    method DialLocked(answers: bool) returns (ok: bool)
      requires Valid() && conn == null
      modifies this
      ensures ok == answers && Valid()
      ensures ok ==> conn != null && fresh(conn) && fresh(keepAlive) && fresh(respScanner) && fresh(respScanner.buf)
      ensures ok ==> conn.sent == "" && keepAlive.tokens == 0 && respScanner.Held() == "" && !respScanner.fault
      ensures !ok ==> conn == null
    {
      if !answers { return false; }
      conn := new Socket();
      keepAlive := new Channel();
      respScanner := new Scanner();
      ok := true;
    }

    /** What the scan loop finds: reads until it has a line, or until a read fails. */
    method Scan(trip: Trip) returns (token: Option<View>)
      requires Valid() && conn != null
      modifies respScanner, respScanner.buf
      ensures Valid() && (respScanner.buf == old(respScanner.buf) || fresh(respScanner.buf))
      ensures respScanner.fault == (old(respScanner.fault) || trip.fault)
      ensures token.Some? ==> token.value.Valid() && token.value.data == respScanner.buf
      ensures var held, faulted := old(respScanner.Held()), old(respScanner.fault);
              var t := PromptSplit(Data(held, trip, faulted), respScanner.fault).token;
              && respScanner.Held() == RestOf(held, trip, faulted)
              && token.Some? == t.Some? && (token.Some? ==> token.value.Content() == t.value)
    {
      hide PromptSplit, Concat, Scanner.Held;
      var sc := respScanner;
      assert sc.Held() + "" == sc.Held();
      if !sc.fault {
        FillAll(sc, trip.chunks);
        sc.fault := trip.fault;
      }
      token := sc.Next(sc.fault);
    }

    /** `writeLocked`. */
    method WriteLocked(cmd: Command, trip: Trip) returns (resp: Option<Answer>)
      requires Valid() && conn != null
      modifies this, conn, keepAlive, respScanner, respScanner.buf
      ensures Valid()
      ensures old(conn).sent == old(conn.sent) + Wrote(cmd.Text(), trip.broken)
      ensures Heard(resp) == Answered(cmd, old(respScanner.Held()), trip, old(respScanner.fault))
      ensures if resp.Some? then conn == old(conn) && keepAlive == old(keepAlive) && respScanner == old(respScanner)
              else conn == null && !old(conn).open && old(keepAlive).closed
      ensures resp.Some? ==> respScanner.buf == old(respScanner.buf) || fresh(respScanner.buf)
      ensures resp.Some? ==> respScanner.Held() == RestOf(old(respScanner.Held()), trip, old(respScanner.fault))
      ensures resp.Some? ==> respScanner.fault == (old(respScanner.fault) || trip.fault)
    {
      hide ParseResponse, PromptSplit, Command.Text, Scanner.Held, RestOf, Data;
      keepAlive.Send();
      var ok := conn.Write(cmd.Text(), trip.broken);
      if !ok {
        CloseLocked();
        return None;
      }
      var token := Scan(trip);
      if token.Some? && token.value.lo < token.value.hi {
        var a := Interpret(cmd, token.value);
        return Some(a);
      }
      CloseLocked();
      return None;
    }

    /**
     `RoundTrip`, with the mutex held from the first test of the connection on.
     When it fails for any reason but an expired context the connection is
     closed; when it succeeds the connection is open and has carried the command,
     after the handshake if the connection is new.
     */
    method RoundTrip(expired: bool, cmd: Command, dials: bool, greeting: Trip, main: Trip)
      returns (resp: Option<Answer>)
      requires Valid()
      modifies this, conn, keepAlive, respScanner, if respScanner == null then {} else {respScanner.buf}
      ensures Valid()
      ensures expired ==>
                resp.None? && conn == old(conn) && keepAlive == old(keepAlive) && respScanner == old(respScanner)
      ensures !expired ==> (resp.None? <==> conn == null)
      ensures !expired && old(conn) != null ==>
                && Heard(resp) == Answered(cmd, old(respScanner.Held()), main, old(respScanner.fault))
                && old(conn).sent == old(conn.sent) + Wrote(cmd.Text(), main.broken)
                && (resp.Some? ==> conn == old(conn))
      ensures !expired && old(conn) == null ==> Heard(resp) == Greeted(cmd, dials, greeting, main)
      ensures resp.Some? && old(conn) == null ==> fresh(conn) && conn.sent == Conn.HANDSHAKE.Text() + cmd.Text()
    {
      hide ParseResponse, PromptSplit, Command.Text, Scanner.Held, RestOf, Data;
      if expired { return None; }
      if conn == null {
        var ok := DialLocked(dials);
        if !ok { return None; }
        var sn := WriteLocked(Conn.HANDSHAKE, greeting);
        if sn.None? { return None; }
      }
      resp := WriteLocked(cmd, main);
    }
  }

  /** The response on a new connection: the answer to the handshake comes first and is thrown away. */
  function Greeted(cmd: Command, dials: bool, greeting: Trip, main: Trip): Option<Response> {
    if !dials || TokenOf("", greeting, false).None? then None
    else Answered(cmd, RestOf("", greeting, false), main, greeting.fault)
  }

  /** The steps of `Conn` make of a scanner's buffer what these methods make of it. */
  lemma StepsAgree(s: Conn.State, i: nat)
    requires Conn.Enabled(s, Conn.Scan(i)) && s.calls[i].pc == Conn.Scanning(Conn.Main)
    ensures var sc, pc := s.scanner.value, Conn.Apply(s, Conn.Scan(i)).calls[i].pc;
            var expected := Answered(s.calls[i].cmd, sc.buf, Trip(None, [], false), sc.fault);
            if expected.None? then pc.Failed? else pc.Returned? && Some(pc.resp) == expected
  {
    hide ParseResponse;
    var sc := s.scanner.value;
    assert sc.buf + "" == sc.buf;
  }
}
