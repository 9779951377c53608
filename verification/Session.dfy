/**
 The proxy's loop over the messages of one client: parse, look up the route,
 ask the policy, forward, relay.
 */
module Session {
  import opened Wrappers
  import opened Bytes
  import opened Commands
  import opened Policies
  import opened Responses
  import opened Wire

  const DENIED: Bytes := "?, MDCMUX DENY POLICY"
  const PROXY_ERROR: Bytes := "?, MDCMUX PROXY ERROR"

  /**
   What one pass of the loop meets: nothing before the read deadline; the end of
   the session, because the client is gone or idle or the proxy stops; or a
   line, with the policy its route gives and the payload the backend answers.
   */
  datatype Turn =
    | Quiet
    | Gone
    | Received(line: Bytes, route: Option<Policy>, answer: Option<Bytes>)

  datatype Verdict = Ignore | Drop | Deny | Forward(cmd: Command)

  /** What happens to a line, under the policy that applies at that moment. */
  function Judge(line: Bytes, route: Option<Policy>): Verdict {
    if line == "" then Ignore
    else
      match ParseCommand(line)
      case Err(_) => Drop
      case Ok(c) =>
        match route
        case None => Drop
        case Some(p) => if Allowed(p, c) then Forward(c) else Deny
  }

  /** The verdict of a turn. */
  function Outcome(t: Turn): Verdict {
    match t
    case Quiet => Ignore
    case Gone => Drop
    case Received(line, route, _) => Judge(line, route)
  }

  /** The session does not outlive this turn. */
  predicate Last(t: Turn) { Outcome(t).Drop? || (Outcome(t).Forward? && t.answer.None?) }

  /** What a turn writes back to the client. */
  function Replies(t: Turn): seq<Bytes> {
    match Outcome(t)
    case Ignore => []
    case Drop => []
    case Deny => [DENIED]
    case Forward(c) => [Answered(c, t.answer)]
  }

  /** What goes back for a command that was forwarded. */
  function Answered(c: Command, answer: Option<Bytes>): Bytes {
    match answer
    case None => PROXY_ERROR
    case Some(payload) => ParseResponse(c, payload).Text()
  }

  /** What a turn sends to the backend. */
  function Sends(t: Turn): seq<Command> {
    match Outcome(t)
    case Forward(c) => [c]
    case _ => []
  }

  /** The payloads and the commands of a session, from its turns in order. */
  function Outcomes(turns: seq<Turn>): (seq<Bytes>, seq<Command>) {
    if turns == [] then ([], [])
    else if Last(turns[0]) then (Replies(turns[0]), Sends(turns[0]))
    else
      var rest := Outcomes(turns[1..]);
      (Replies(turns[0]) + rest.0, Sends(turns[0]) + rest.1)
  }

  // ----- what each turn does

  /** The client is gone, or what it sent is no message, or its listener has no route any more. */
  predicate Ends(t: Turn) {
    t.Gone? || (t.Received? && t.line != "" && (ParseCommand(t.line).Err? || t.route.None?))
  }

  /** Such a turn ends the session without a reply and without forwarding, wherever it comes. */
  lemma {:induction false} SessionEnds(before: seq<Turn>, t: Turn, after: seq<Turn>)
    requires Ends(t)
    ensures Outcomes(before + [t] + after) == Outcomes(before)
    decreases |before|
  {
    hide ParseCommand, Replies, Sends, Last;
    var turns := before + [t] + after;
    if before == [] {
      TurnEffects(t, after);
      assert turns == [t] + after;
    } else {
      assert turns[1..] == before[1..] + [t] + after;
      SessionEnds(before[1..], t, after);
    }
  }

  /**
   What a turn does, in front of any others. Nothing at all without a line; a denial,
   and the session goes on, for a command that the policy denies; the relayed answer,
   and the session goes on, for one that is answered; and the proxy error, as the last
   of the session, for one that is not.
   */
  lemma TurnEffects(t: Turn, rest: seq<Turn>)
    ensures t.Quiet? || (t.Received? && t.line == "") ==> Outcomes([t] + rest) == Outcomes(rest)
    ensures Ends(t) ==> Outcomes([t] + rest) == ([], [])
    ensures t.Received? && t.line != "" && ParseCommand(t.line).Ok? && t.route.Some? ==>
              var c, p, after := ParseCommand(t.line).value, t.route.value, Outcomes(rest);
              && (!Allowed(p, c) ==> Outcomes([t] + rest) == (["?, MDCMUX DENY POLICY"] + after.0, after.1))
              && (Allowed(p, c) && t.answer.None? ==> Outcomes([t] + rest) == (["?, MDCMUX PROXY ERROR"], [c]))
              && (Allowed(p, c) && t.answer.Some? ==>
                    Outcomes([t] + rest)
                    == ([ParseResponse(c, t.answer.value).Text()] + after.0, [c] + after.1))
  {
    hide ParseCommand, Allowed, ParseResponse, Response.Text;
    assert ([t] + rest)[1..] == rest;
    assert [] + Outcomes(rest).0 == Outcomes(rest).0 && [] + Outcomes(rest).1 == Outcomes(rest).1;
  }

  /** One forwarded message and its relayed answer. */
  method Relay(out: Writer, cmd: Command, answer: Option<Bytes>) returns (ok: bool)
    modifies out
    ensures (out.State(), ok || (answer.None? && !out.broken))
            == Flushed(old(out.State()), Frame(Answered(cmd, answer)))
    ensures answer.None? ==> !ok
  {
    hide ParseResponse, Response.Text;
    if answer.None? {
      var _ := WriteResponse(out, PROXY_ERROR);
      return false;
    }
    var resp := ParseResponse(cmd, answer.value);
    ok := out.Write([PROMPT]);
    if !ok { return; }
    ok := out.Write(resp.Text());
    if !ok { return; }
    ok := out.Write(EOL);
    if !ok { return; }
    ok := WritePrompt(out);
    FrameParts(old(out.buffered), resp.Text());
  }

  /** The replies, if any, went out, and what of them did. */
  predicate Replied(o: Out, o': Out, replies: seq<Bytes>) {
    if replies == [] then o' == o else |replies| == 1 && o' == Flushed(o, Frame(replies[0])).0
  }

  /** One pass of the loop. */
  method Turned(t: Turn, out: Writer) returns (forwarded: seq<Command>, last: bool)
    requires !out.broken
    modifies out
    ensures Replied(old(out.State()), out.State(), Replies(t))
    ensures forwarded == Sends(t) && last == (Last(t) || out.broken)
  {
    hide ParseCommand, ParseResponse, Response.Text, Allowed, Frame, Answered;
    forwarded, last := [], false;
    if t.Gone? { return [], true; }
    if t.Quiet? || t.line == "" { return; }
    var msg := ParseCommand(t.line);
    if msg.Err? || t.route.None? { return [], true; }
    var allowed := Allow(t.route.value, msg.value);
    var ok;
    if !allowed {
      ok := WriteResponse(out, DENIED);
      return [], !ok;
    }
    ok := Relay(out, msg.value, t.answer);
    return [msg.value], !ok;
  }

  /** What the loop forwards on a connection that takes so many bytes: it ends with the turn whose reply is cut. */
  function Forwarded(turns: seq<Turn>, sent: seq<Bytes>, room: Option<nat>): seq<Command>
    decreases |turns|
  {
    if turns == [] then []
    else
      var all := sent + Replies(turns[0]);
      if Last(turns[0]) || !HasRoom(Conversation(all), room) then Sends(turns[0])
      else Sends(turns[0]) + Forwarded(turns[1..], all, room)
  }

  /** Without such a limit it forwards what belongs to all the turns, and with one a beginning of that. */
  lemma {:induction false} ForwardedFirst(turns: seq<Turn>, sent: seq<Bytes>, room: Option<nat>)
    ensures Forwarded(turns, sent, room) <= Outcomes(turns).1
    ensures room.None? ==> Forwarded(turns, sent, room) == Outcomes(turns).1
    decreases |turns|
  {
    hide Replies, Sends, Last, Conversation;
    if turns != [] { ForwardedFirst(turns[1..], sent + Replies(turns[0]), room); }
  }

  /**
   The turns that count when the connection takes so many bytes: all of them up to
   the first with which the conversation does not fit.
   */
  lemma {:induction false} ForwardedUpTo(turns: seq<Turn>, sent: seq<Bytes>, room: Option<nat>) returns (m: nat)
    requires HasRoom(Conversation(sent), room)
    ensures m <= |turns| && Forwarded(turns, sent, room) == Outcomes(turns[..m]).1
    ensures forall j | 0 <= j < m :: HasRoom(Conversation(sent + Outcomes(turns[..j]).0), room)
    ensures Outcomes(turns[..m]) == Outcomes(turns) || !HasRoom(Conversation(sent + Outcomes(turns[..m]).0), room)
    decreases |turns|
  {
    hide Replies, Sends, Last, Conversation, HasRoom;
    if turns == [] {
      m := 0;
    } else {
      var t, rest := turns[0], turns[1..];
      var all := sent + Replies(t);
      OneTurn(t);
      assert turns[..1] == [t] && turns[..0] == [] && sent + [] == sent;
      if Last(t) || !HasRoom(Conversation(all), room) {
        m := 1;
      } else {
        var n := ForwardedUpTo(rest, all, room);
        m := n + 1;
        forall j | 0 <= j <= n
          ensures Outcomes(turns[..j + 1]) == (Replies(t) + Outcomes(rest[..j]).0, Sends(t) + Outcomes(rest[..j]).1)
        {
          assert turns[..j + 1][0] == t && turns[..j + 1][1..] == rest[..j];
        }
        forall j | 0 <= j < m ensures HasRoom(Conversation(sent + Outcomes(turns[..j]).0), room) {
          if j > 0 { assert sent + (Replies(t) + Outcomes(rest[..j - 1]).0) == all + Outcomes(rest[..j - 1]).0; }
        }
        assert sent + (Replies(t) + Outcomes(rest[..n]).0) == all + Outcomes(rest[..n]).0;
      }
    }
  }

  lemma OneTurn(t: Turn)
    ensures Outcomes([t]) == (Replies(t), Sends(t))
  {
    hide Replies, Sends, Last;
    assert [t][1..] == [] && Replies(t) + [] == Replies(t) && Sends(t) + [] == Sends(t);
  }

  /** What the replies of a turn do to a writer that has sent everything so far. */
  lemma RepliesSent(o: Out, payloads: seq<Bytes>, t: Turn, o': Out, room: Option<nat>)
    requires SentAll(o, payloads, room) && Replied(o, o', Replies(t))
    ensures Delivered(o', !o'.broken, payloads + Replies(t), room)
  {
    hide Conversation, Frame;
    if Replies(t) == [] {
      assert payloads + [] == payloads;
    } else {
      FrameSent(o, payloads, Replies(t)[0], room);
      assert Replies(t) == [Replies(t)[0]];
    }
  }

  /**
   The loop. It sends as much of its conversation as the connection takes, and
   forwards what belongs to the turns up to the one whose reply is cut.
   */
  method Proxy(turns: seq<Turn>, out: Writer) returns (forwarded: seq<Command>)
    requires out.sent == "" && out.buffered == "" && !out.broken
    modifies out
    ensures out.sent == GoesOut(Conversation(Outcomes(turns).0), old(out.room))
    ensures forwarded == if HasRoom([PROMPT], old(out.room)) then Forwarded(turns, [], old(out.room)) else []
  {
    hide Replies, Sends, Last, Frames, Frame, Conversation, Flushed, Replied;
    forwarded := [];
    ghost var room, all := out.room, Outcomes(turns).0;
    GreetingSent(room);
    assert Conversation([]) == [PROMPT] by { EmptyConversation(); }
    var ok := WritePrompt(out);
    if !ok {
      CutShort([], all, room);
      return;
    }
    ghost var replies: seq<Bytes> := [];
    assert turns[0..] == turns;
    for i := 0 to |turns|
      invariant !out.broken && SentAll(out.State(), replies, room)
      invariant all == replies + Outcomes(turns[i..]).0
      invariant Forwarded(turns, [], room) == forwarded + Forwarded(turns[i..], replies, room)
    {
      ghost var o, t := out.State(), turns[i];
      assert turns[i..][0] == t && turns[i..][1..] == turns[i + 1..];
      var more, last := Turned(turns[i], out);
      RepliesSent(o, replies, t, out.State(), room);
      replies, forwarded := replies + Replies(t), forwarded + more;
      assert replies <= all;
      if last {
        if out.broken { CutShort(replies, all, room); }
        return;
      }
    }
    assert turns[|turns|..] == [] && replies + [] == replies;
  }

  lemma EmptyConversation()
    ensures Conversation([]) == [PROMPT]
  {
  }

  /**
   Nothing is forwarded but what the policy of its own turn allows: the k-th
   forwarded command is the parse of a line the client sent, after k others were
   forwarded, and if it writes, its variable lies in a range of that policy.
   */
  lemma {:induction false} OnlyAllowedForwarded(turns: seq<Turn>, k: nat) returns (i: nat)
    requires k < |Outcomes(turns).1|
    ensures i < |turns| && turns[i].Received? && turns[i].route.Some?
    ensures var c, p := Outcomes(turns).1[k], turns[i].route.value;
            && ParseCommand(turns[i].line) == Ok(c) && Allowed(p, c)
            && (c.Write? ==> exists r | r in p.allowWrites :: r.0 <= c.variable.Whole() <= r.1)
    ensures Outcomes(turns[..i]).1 == Outcomes(turns).1[..k]
  {
    hide ParseCommand, Allowed, Replies;
    var here := Sends(turns[0]);
    if k < |here| {
      i := 0;
      var c := Outcomes(turns).1[k];
      assert c == here[0];
      if c.Write? { WritesNeedARange(turns[0].route.value, c.variable, c.value); }
      assert turns[..0] == [];
    } else {
      var j := OnlyAllowedForwarded(turns[1..], k - |here|);
      i := j + 1;
      assert turns[..i][0] == turns[0] && turns[..i][1..] == turns[1..][..j];
      assert Outcomes(turns).1[..k] == here + Outcomes(turns[1..]).1[..k - |here|];
    }
  }
}
