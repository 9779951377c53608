/**
 Proxy transparency: what a client of the proxy sees, against what it would see
 on a connection of its own to the machine. Both are built from the bytes on
 the wire, cut into reads in any way, when no read or write fails.
 */
module Transparency {
  import opened Wrappers
  import opened Bytes
  import opened Numbers
  import opened Commands
  import opened Policies
  import opened Responses
  import opened Wire
  import opened Dummy
  import opened Session
  import opened Conn
  import R = Registers

  predicate AllWellFormed(cmds: seq<Command>) { forall i | 0 <= i < |cmds| :: WellFormed(cmds[i]) }

  // ----- the reference

  /** The responses to commands that a machine handles one after the other, and the store it ends with. */
  function Direct(store: Store, cmds: seq<Command>): (seq<Response>, Store)
    decreases |cmds|
  {
    if cmds == [] then ([], store)
    else
      var rest := Direct(StoreAfter(store, cmds[0]), cmds[1..]);
      ([ParseResponse(cmds[0], Reply(store, cmds[0]))] + rest.0, rest.1)
  }

  /** The same under a policy: a denied command gets the denial and reaches nothing. */
  function Governed(store: Store, policy: Policy, cmds: seq<Command>): (seq<Response>, Store)
    decreases |cmds|
  {
    if cmds == [] then ([], store)
    else if Allowed(policy, cmds[0]) then
      var rest := Governed(StoreAfter(store, cmds[0]), policy, cmds[1..]);
      ([ParseResponse(cmds[0], Reply(store, cmds[0]))] + rest.0, rest.1)
    else
      var rest := Governed(store, policy, cmds[1..]);
      ([ParseResponse(cmds[0], DENIED)] + rest.0, rest.1)
  }

  predicate AllAllowed(policy: Policy, cmds: seq<Command>) { forall i | 0 <= i < |cmds| :: Allowed(policy, cmds[i]) }

  lemma {:induction false} AllowedIsDirect(store: Store, policy: Policy, cmds: seq<Command>)
    requires AllAllowed(policy, cmds)
    ensures Governed(store, policy, cmds) == Direct(store, cmds)
    decreases |cmds|
  {
    hide Allowed, ParseResponse, Reply, StoreAfter;
    if cmds != [] { AllowedIsDirect(StoreAfter(store, cmds[0]), policy, cmds[1..]); }
  }

  /** Under a policy without ranges no list of commands changes anything, undocumented ones included. */
  lemma {:induction false} WithoutRanges(store: Store, policy: Policy, cmds: seq<Command>)
    requires policy.allowWrites == []
    ensures Governed(store, policy, cmds).1 == store
    decreases |cmds|
  {
    hide ParseResponse, Reply;
    if cmds != [] {
      AllowedExactly(policy, cmds[0]);
      WithoutRanges(store, policy, cmds[1..]);
    }
  }

  /** What the proxy says in place of an answer is a failure to the client that hears it, whatever it asked for. */
  lemma RefusalsFail(v: Number, x: Number, n: Number)
    ensures ParseResponse(Write(v, x), DENIED) == Opaque("?, MDCMUX DENY POLICY", false)
    ensures ParseResponse(Write(v, x), PROXY_ERROR) == Opaque("?, MDCMUX PROXY ERROR", false)
    ensures ParseResponse(Query(v), DENIED) == Opaque("?, MDCMUX DENY POLICY", false)
    ensures ParseResponse(Query(v), PROXY_ERROR) == Opaque("?, MDCMUX PROXY ERROR", false)
    ensures ParseResponse(Basic(n), DENIED) == Opaque("?, MDCMUX DENY POLICY", false)
  {
    hide ParseResponse, DENIED, PROXY_ERROR, Plain, Tight;
    DenialText();
    ErrorText();
    OtherAnswers(n, v, x, DENIED);
    OtherAnswers(n, v, x, PROXY_ERROR);
    ComplaintFails(v, "MDCMUX DENY POLICY");
    ComplaintFails(v, "MDCMUX PROXY ERROR");
  }

  lemma DenialText()
    ensures DENIED == "?, MDCMUX DENY POLICY" == "?, " + "MDCMUX DENY POLICY" && DENIED != "!"
    ensures ',' !in "MDCMUX DENY POLICY" && Tight("MDCMUX DENY POLICY")
  {
  }

  lemma ErrorText()
    ensures PROXY_ERROR == "?, MDCMUX PROXY ERROR" == "?, " + "MDCMUX PROXY ERROR" && PROXY_ERROR != "!"
    ensures ',' !in "MDCMUX PROXY ERROR" && Tight("MDCMUX PROXY ERROR")
  {
  }

  lemma ComplaintFails(v: Number, text: Bytes)
    requires ',' !in text && Tight(text) && |text| > 3 && 'A' <= text[0] <= 'Z'
    ensures ParseResponse(Query(v), "?, " + text) == Opaque("?, " + text, false)
  {
    hide ParseResponse, ParseNumber;
    NotANumber(text);
    NoComma(text);
    QueryAnswer(v, "?", text);
    assert "?" + (", " + text) == "?, " + text;
  }

  /**
   Under a policy a write succeeds, for the client, if and only if one of the ranges
   of the policy holds its variable; otherwise the client is told of the denial.
   */
  lemma {:induction false} GovernedWrites(store: Store, policy: Policy, cmds: seq<Command>, i: nat)
    requires i < |cmds| && cmds[i].Write?
    ensures |Governed(store, policy, cmds).0| == |cmds|
    ensures Governed(store, policy, cmds).0[i] ==
              if exists r | r in policy.allowWrites :: r.0 <= cmds[i].variable.Whole() <= r.1 then Opaque("!", true)
              else Opaque("?, MDCMUX DENY POLICY", false)
    decreases |cmds|
  {
    hide Allowed, StoreAfter, Reply, ParseResponse;
    GovernedLength(store, policy, cmds);
    var next := if Allowed(policy, cmds[0]) then StoreAfter(store, cmds[0]) else store;
    if i > 0 {
      GovernedWrites(next, policy, cmds[1..], i - 1);
    } else {
      var c := cmds[0];
      WritesNeedARange(policy, c.variable, c.value);
      WriteLearns(store, c.variable, c.value);
      RefusalsFail(c.variable, c.value, c.variable);
    }
  }

  lemma {:induction false} GovernedLength(store: Store, policy: Policy, cmds: seq<Command>)
    ensures |Governed(store, policy, cmds).0| == |cmds|
    decreases |cmds|
  {
    hide Allowed, StoreAfter, Reply, ParseResponse;
    if cmds != [] {
      GovernedLength(if Allowed(policy, cmds[0]) then StoreAfter(store, cmds[0]) else store, policy, cmds[1..]);
    }
  }

  /** A relayed answer of the machine is the machine's own, byte for byte. */
  lemma RelayedBytes(store: Store, c: Command)
    ensures ParseResponse(c, Reply(store, c)).Text() == Reply(store, c)
  {
    hide ParseResponse, Number.FormatF, Number.FormatD, Canned;
    match c {
      case Write(v, x) => OtherAnswers(v, v, x, "!");
      case Basic(n) => OtherAnswers(n, n, n, Reply(store, c));
      case Query(v) => QueryRelayed(store, v);
    }
  }

  lemma QueryRelayed(store: Store, v: Number)
    ensures ParseResponse(Query(v), Reply(store, Query(v))).Text() == Reply(store, Query(v))
  {
    hide ParseResponse, Number.FormatF;
    QueryLearns(store, v);
    FormatNaN();
  }

  // ----- the two ends of a connection

  function Texts(cmds: seq<Command>): seq<Bytes> { seq(|cmds|, i requires 0 <= i < |cmds| => cmds[i].Text()) }

  function LinesOf(cmds: seq<Command>): seq<Bytes> { seq(|cmds|, i requires 0 <= i < |cmds| => cmds[i].Line()) }

  /** What a connection writes: the handshake, then its commands. */
  function Sent(cmds: seq<Command>): Bytes { Concat(Texts([HANDSHAKE] + cmds)) }

  /** The tokens that answer the commands of a connection, after the one that answers the handshake. */
  function Answers(tokens: seq<Bytes>): seq<Bytes> { if tokens == [] then [] else tokens[1..] }

  /** What a connection returns for its commands. */
  function Understood(cmds: seq<Command>, answers: seq<Bytes>): seq<Response>
    requires |cmds| <= |answers|
  {
    seq(|cmds|, i requires 0 <= i < |cmds| => ParseResponse(cmds[i], answers[i]))
  }

  /** What a machine writes after reading a stream in some chunks. */
  function Written(store: Store, chunks: seq<Bytes>): Bytes { Conversation(Serve(store, Drain(Lines, "", chunks)).0) }

  lemma LinesArrive(cmds: seq<Command>, chunks: seq<Bytes>)
    requires Concat(chunks) == Concat(Texts(cmds))
    ensures Drain(Lines, "", chunks) == LinesOf(cmds)
  {
    hide Drain, Tokens, Concat, LineOf, Command.Text, OneLine, EndsLine;
    var texts := Texts(cmds);
    forall i | 0 <= i < |texts| ensures OneLine(texts[i]) && EndsLine(texts[i]) && LineOf(texts[i]) == cmds[i].Line() {
      R.TextNotEmpty(cmds[i]);
      R.WrittenLine(cmds[i], texts[i]);
      R.TextLine(cmds[i]);
    }
    LinesOfTexts(texts);
    ChunkIndependence(Lines, "", chunks);
    assert "" + Concat(chunks) == Concat(chunks);
    assert seq(|texts|, i requires 0 <= i < |texts| => LineOf(texts[i])) == LinesOf(cmds);
  }

  // ----- the machine

  function RepliesTo(store: Store, cmds: seq<Command>): seq<Bytes>
    decreases |cmds|
  {
    if cmds == [] then [] else [Reply(store, cmds[0])] + RepliesTo(StoreAfter(store, cmds[0]), cmds[1..])
  }

  function FinalStore(store: Store, cmds: seq<Command>): Store
    decreases |cmds|
  {
    if cmds == [] then store else FinalStore(StoreAfter(store, cmds[0]), cmds[1..])
  }

  lemma {:induction false} OneMoreCommand(store: Store, cmds: seq<Command>, c: Command)
    ensures FinalStore(store, cmds + [c]) == StoreAfter(FinalStore(store, cmds), c)
    ensures RepliesTo(store, cmds + [c]) == RepliesTo(store, cmds) + [Reply(FinalStore(store, cmds), c)]
    decreases |cmds|
  {
    hide Reply, StoreAfter;
    if cmds == [] {
      assert cmds + [c] == [c] && [c][1..] == [];
    } else {
      assert (cmds + [c])[1..] == cmds[1..] + [c];
      OneMoreCommand(StoreAfter(store, cmds[0]), cmds[1..], c);
    }
  }

  /** The machine serves the lines of commands as those commands. */
  lemma {:induction false} ServesCommands(store: Store, cmds: seq<Command>)
    requires AllWellFormed(cmds)
    ensures Serve(store, LinesOf(cmds)) == (RepliesTo(store, cmds), FinalStore(store, cmds))
  {
    hide Reply, StoreAfter, LineReply, LineStore, WellFormed, Command.Line;
    if cmds == [] {
      assert LinesOf(cmds) == [];
    } else {
      var before, last := cmds[..|cmds| - 1], cmds[|cmds| - 1];
      assert before + [last] == cmds;
      assert LinesOf(cmds)[..|cmds| - 1] == LinesOf(before);
      ServesCommands(store, before);
      OneMoreCommand(store, before, last);
      ServesCommand(FinalStore(store, before), last);
    }
  }

  predicate AllFramable(payloads: seq<Bytes>) { forall i | 0 <= i < |payloads| :: Framable(payloads[i]) }

  lemma {:induction false} RepliesAllFramable(store: Store, cmds: seq<Command>)
    ensures |RepliesTo(store, cmds)| == |cmds| && AllFramable(RepliesTo(store, cmds))
    decreases |cmds|
  {
    hide Reply, StoreAfter, Framable;
    if cmds != [] {
      ReplyFramable(store, cmds[0]);
      RepliesAllFramable(StoreAfter(store, cmds[0]), cmds[1..]);
    }
  }

  /** A conversation of framable payloads, cut into any reads, is scanned as those payloads. */
  lemma PayloadsArrive(payloads: seq<Bytes>, chunks: seq<Bytes>)
    requires AllFramable(payloads) && Concat(chunks) == Conversation(payloads)
    ensures Drain(Prompts, "", chunks) == payloads + [[PROMPT]]
  {
    hide Drain, Framable, Conversation, Concat;
    FramingRoundTrip(payloads, chunks);
  }

  lemma {:induction false} DirectIs(store: Store, cmds: seq<Command>, tail: seq<Bytes>)
    ensures |RepliesTo(store, cmds)| == |cmds|
    ensures Direct(store, cmds) == (Understood(cmds, RepliesTo(store, cmds) + tail), FinalStore(store, cmds))
    decreases |cmds|
  {
    hide Reply, StoreAfter, ParseResponse;
    RepliesAllFramable(store, cmds);
    if cmds == [] {
      assert Understood(cmds, tail) == [];
    } else {
      DirectIs(StoreAfter(store, cmds[0]), cmds[1..], tail);
      var answers := RepliesTo(store, cmds) + tail;
      assert answers[1..] == RepliesTo(StoreAfter(store, cmds[0]), cmds[1..]) + tail;
      RepliesAllFramable(StoreAfter(store, cmds[0]), cmds[1..]);
      assert Understood(cmds, answers) == [ParseResponse(cmds[0], answers[0])] + Understood(cmds[1..], answers[1..]);
    }
  }

  lemma Handshake(store: Store, cmds: seq<Command>)
    ensures RepliesTo(store, [HANDSHAKE] + cmds) == [Reply(store, HANDSHAKE)] + RepliesTo(store, cmds)
    ensures FinalStore(store, [HANDSHAKE] + cmds) == FinalStore(store, cmds)
    ensures AllWellFormed(cmds) ==> AllWellFormed([HANDSHAKE] + cmds)
  {
    hide Reply;
    assert ([HANDSHAKE] + cmds)[1..] == cmds;
  }

  /** A connection straight to the machine: its responses and the machine's store are the reference's. */
  lemma DirectConnection(store: Store, cmds: seq<Command>, out: seq<Bytes>, back: seq<Bytes>)
    requires AllWellFormed(cmds)
    requires Concat(out) == Sent(cmds) && Concat(back) == Written(store, out)
    ensures var answers := Answers(Drain(Prompts, "", back));
            && |cmds| <= |answers|
            && (Understood(cmds, answers), Serve(store, Drain(Lines, "", out)).1) == Direct(store, cmds)
  {
    hide Drain, Concat, Conversation, Reply, StoreAfter, RepliesTo, FinalStore, Understood, Direct;
    MachineAnswers(store, cmds, out, back);
    RepliesAllFramable(store, cmds);
    DirectIs(store, cmds, [[PROMPT]]);
  }

  /** What comes back to a connection from the machine. */
  lemma MachineAnswers(store: Store, cmds: seq<Command>, out: seq<Bytes>, back: seq<Bytes>)
    requires AllWellFormed(cmds)
    requires Concat(out) == Sent(cmds) && Concat(back) == Written(store, out)
    ensures Answers(Drain(Prompts, "", back)) == RepliesTo(store, cmds) + [[PROMPT]]
    ensures Serve(store, Drain(Lines, "", out)).1 == FinalStore(store, cmds)
  {
    hide Drain, Concat, Conversation, Reply, StoreAfter, RepliesTo, FinalStore, Texts, WellFormed;
    var all := [HANDSHAKE] + cmds;
    Handshake(store, cmds);
    LinesArrive(all, out);
    ServesCommands(store, all);
    RepliesAllFramable(store, all);
    PayloadsArrive(RepliesTo(store, all), back);
    assert ([Reply(store, HANDSHAKE)] + RepliesTo(store, cmds) + [[PROMPT]])[1..]
           == RepliesTo(store, cmds) + [[PROMPT]];
  }

  // ----- through the proxy

  /**
   The turns of the proxy's loop: each line under the same policy, and each
   forwarded command with the next of the answers on the proxy's own connection.
   */
  function Turns(policy: Policy, lines: seq<Bytes>, answers: seq<Bytes>): seq<Turn>
    decreases |lines|
  {
    if lines == [] then []
    else if Judge(lines[0], Some(policy)).Forward? then
      if answers == [] then [Received(lines[0], Some(policy), None)] + Turns(policy, lines[1..], [])
      else [Received(lines[0], Some(policy), Some(answers[0]))] + Turns(policy, lines[1..], answers[1..])
    else [Received(lines[0], Some(policy), None)] + Turns(policy, lines[1..], answers)
  }

  /** The commands the policy lets through. */
  function Passed(policy: Policy, cmds: seq<Command>): seq<Command> {
    if cmds == [] then []
    else if Allowed(policy, cmds[0]) then [cmds[0]] + Passed(policy, cmds[1..])
    else Passed(policy, cmds[1..])
  }

  /** The payloads that go back to the client. */
  function Relayed(store: Store, policy: Policy, cmds: seq<Command>): seq<Bytes>
    decreases |cmds|
  {
    if cmds == [] then []
    else if Allowed(policy, cmds[0]) then
      [ParseResponse(cmds[0], Reply(store, cmds[0])).Text()] + Relayed(StoreAfter(store, cmds[0]), policy, cmds[1..])
    else [DENIED] + Relayed(store, policy, cmds[1..])
  }

  lemma LineJudged(policy: Policy, c: Command)
    requires WellFormed(c)
    ensures Judge(c.Line(), Some(policy)) == if Allowed(policy, c) then Forward(c) else Deny
  {
    hide ParseCommand, Allowed, Command.Line, WellFormed;
    CommandRoundTrip(c);
    LineClean(c);
  }

  lemma {:induction false} PassedWellFormed(policy: Policy, cmds: seq<Command>)
    requires AllWellFormed(cmds)
    ensures AllWellFormed(Passed(policy, cmds))
  {
    hide WellFormed, Allowed;
    if cmds != [] { PassedWellFormed(policy, cmds[1..]); }
  }

  /** The loop forwards what passes, and relays the machine's answers to it. */
  lemma {:induction false} SessionOf(store: Store, policy: Policy, cmds: seq<Command>, tail: seq<Bytes>)
    requires AllWellFormed(cmds)
    ensures Outcomes(Turns(policy, LinesOf(cmds), RepliesTo(store, Passed(policy, cmds)) + tail))
         == (Relayed(store, policy, cmds), Passed(policy, cmds))
    decreases |cmds|
  {
    hide Reply, StoreAfter, ParseResponse, Allowed, ParseCommand, Response.Text, WellFormed, Command.Line, Judge, Turns,
         Outcomes, RepliesTo;
    var lines, answers := LinesOf(cmds), RepliesTo(store, Passed(policy, cmds)) + tail;
    if cmds == [] {
      assert lines == [];
      NoTurns(policy, answers);
    } else {
      var c := cmds[0];
      LineJudged(policy, c);
      assert lines[0] == c.Line() && lines[1..] == LinesOf(cmds[1..]);
      if Allowed(policy, c) {
        var after := StoreAfter(store, c);
        SessionOf(after, policy, cmds[1..], tail);
        NextAnswer(store, c, Passed(policy, cmds[1..]), tail);
        TurnForwarded(policy, lines, answers, c);
      } else {
        SessionOf(store, policy, cmds[1..], tail);
        TurnDenied(policy, lines, answers);
      }
    }
  }

  lemma NoTurns(policy: Policy, answers: seq<Bytes>)
    ensures Outcomes(Turns(policy, [], answers)) == ([], [])
  {
  }

  lemma NextAnswer(store: Store, c: Command, cmds: seq<Command>, tail: seq<Bytes>)
    ensures var answers := RepliesTo(store, [c] + cmds) + tail;
            answers != [] && answers[0] == Reply(store, c)
              && answers[1..] == RepliesTo(StoreAfter(store, c), cmds) + tail
  {
    hide Reply, StoreAfter;
    assert ([c] + cmds)[1..] == cmds;
  }

  /** A line that is let through takes the next answer. */
  lemma TurnForwarded(policy: Policy, lines: seq<Bytes>, answers: seq<Bytes>, c: Command)
    requires lines != [] && answers != [] && Judge(lines[0], Some(policy)) == Forward(c)
    ensures var rest := Outcomes(Turns(policy, lines[1..], answers[1..]));
            Outcomes(Turns(policy, lines, answers)) == ([ParseResponse(c, answers[0]).Text()] + rest.0, [c] + rest.1)
  {
    hide Judge, ParseResponse, Response.Text;
    FirstTurn(Received(lines[0], Some(policy), Some(answers[0])), Turns(policy, lines[1..], answers[1..]));
  }

  lemma TurnDenied(policy: Policy, lines: seq<Bytes>, answers: seq<Bytes>)
    requires lines != [] && Judge(lines[0], Some(policy)).Deny?
    ensures var rest := Outcomes(Turns(policy, lines[1..], answers));
            Outcomes(Turns(policy, lines, answers)) == ([DENIED] + rest.0, rest.1)
  {
    hide Judge, ParseResponse, Response.Text;
    var rest := Turns(policy, lines[1..], answers);
    FirstTurn(Received(lines[0], Some(policy), None), rest);
    assert [] + Outcomes(rest).1 == Outcomes(rest).1;
  }

  lemma FirstTurn(t: Turn, rest: seq<Turn>)
    ensures Outcomes([t] + rest) == if Last(t) then (Replies(t), Sends(t))
                                   else (Replies(t) + Outcomes(rest).0, Sends(t) + Outcomes(rest).1)
  {
    hide Replies, Sends, Last;
    assert ([t] + rest)[1..] == rest;
  }

  /** A relayed payload is framable, and means to the client what it meant to the proxy. */
  lemma RelayedPayload(c: Command, payload: Bytes)
    requires Framable(payload)
    ensures Framable(ParseResponse(c, payload).Text())
    ensures ParseResponse(c, ParseResponse(c, payload).Text()) == ParseResponse(c, payload)
  {
    RelayIsTransparent(c, payload);
    OpaqueKeeps(c, payload);
    hide ParseResponse, Number.FormatF;
    var r := ParseResponse(c, payload);
    if r.Value? { FormatClean(r.value); }
  }

  lemma OpaqueKeeps(c: Command, payload: Bytes)
    ensures ParseResponse(c, payload).Opaque? ==> ParseResponse(c, payload).buffer == payload
  {
    hide ParseNumber, SplitFields;
  }

  lemma {:induction false} RelayedFramable(store: Store, policy: Policy, cmds: seq<Command>)
    ensures |Relayed(store, policy, cmds)| == |cmds| && AllFramable(Relayed(store, policy, cmds))
    decreases |cmds|
  {
    hide Reply, StoreAfter, Framable, ParseResponse, Response.Text, Allowed;
    if cmds != [] {
      ReplyFramable(store, cmds[0]);
      RelayedPayload(cmds[0], Reply(store, cmds[0]));
      assert Framable(DENIED) by { DenialFramable(); }
      RelayedFramable(if Allowed(policy, cmds[0]) then StoreAfter(store, cmds[0]) else store, policy, cmds[1..]);
    }
  }

  lemma DenialFramable()
    ensures Framable(DENIED)
  {
  }

  lemma {:induction false} GovernedIs(store: Store, policy: Policy, cmds: seq<Command>, tail: seq<Bytes>)
    ensures |Relayed(store, policy, cmds)| == |cmds|
    ensures Governed(store, policy, cmds)
         == (Understood(cmds, Relayed(store, policy, cmds) + tail), FinalStore(store, Passed(policy, cmds)))
    decreases |cmds|
  {
    hide Reply, StoreAfter, ParseResponse, Response.Text, Allowed;
    RelayedFramable(store, policy, cmds);
    var answers := Relayed(store, policy, cmds) + tail;
    if cmds == [] {
      assert Understood(cmds, tail) == [];
    } else {
      var c, after := cmds[0], if Allowed(policy, cmds[0]) then StoreAfter(store, cmds[0]) else store;
      GovernedIs(after, policy, cmds[1..], tail);
      assert answers[1..] == Relayed(after, policy, cmds[1..]) + tail;
      RelayedFramable(after, policy, cmds[1..]);
      ReplyFramable(store, c);
      RelayedPayload(c, Reply(store, c));
      assert Understood(cmds, answers) == [ParseResponse(c, answers[0])] + Understood(cmds[1..], answers[1..]);
      if Allowed(policy, c) { assert Passed(policy, cmds)[1..] == Passed(policy, cmds[1..]); }
    }
  }

  lemma HandshakePasses(store: Store, policy: Policy, cmds: seq<Command>)
    ensures Passed(policy, [HANDSHAKE] + cmds) == [HANDSHAKE] + Passed(policy, cmds)
    ensures |Relayed(store, policy, [HANDSHAKE] + cmds)| > 0
    ensures Relayed(store, policy, [HANDSHAKE] + cmds)[1..] == Relayed(store, policy, cmds)
  {
    hide Reply, ParseResponse, Response.Text;
    assert HANDSHAKE.number == DOCUMENTED[0];
    assert ([HANDSHAKE] + cmds)[1..] == cmds;
  }

  /**
   Proxy transparency. A connection to the proxy sends its commands and gets back
   what the reference says, and the machine behind ends with the reference's
   store, however each of the four streams is cut into reads:
     up     from the client to the proxy,
     out    from the proxy to the machine,
     back   from the machine to the proxy,
     down   from the proxy to the client.
   If the policy allows every command, this is what a connection straight to the
   machine gets.
   */
  lemma Transparent(store: Store, policy: Policy, cmds: seq<Command>, up: seq<Bytes>, out: seq<Bytes>, back: seq<Bytes>,
                    down: seq<Bytes>)
    requires AllWellFormed(cmds)
    requires Concat(up) == Sent(cmds)
    requires var session := Outcomes(Turns(policy, Drain(Lines, "", up), Answers(Drain(Prompts, "", back))));
             Concat(out) == Sent(session.1) && Concat(down) == Conversation(session.0)
    requires Concat(back) == Written(store, out)
    ensures var answers := Answers(Drain(Prompts, "", down));
            && |cmds| <= |answers|
            && (Understood(cmds, answers), Serve(store, Drain(Lines, "", out)).1) == Governed(store, policy, cmds)
    ensures AllAllowed(policy, cmds) ==> Governed(store, policy, cmds) == Direct(store, cmds)
  {
    hide Drain, Concat, Conversation, Turns, Outcomes, Relayed, FinalStore, Direct, Governed, Texts, WellFormed,
         Understood, AllAllowed;
    if AllAllowed(policy, cmds) { AllowedIsDirect(store, policy, cmds); }
    var all := [HANDSHAKE] + cmds;
    SessionRuns(store, policy, cmds, up, out, back);
    RelayedFramable(store, policy, all);
    PayloadsArrive(Relayed(store, policy, all), down);
    HandshakePasses(store, policy, cmds);
    GovernedIs(store, policy, cmds, [[PROMPT]]);
    assert (Relayed(store, policy, all) + [[PROMPT]])[1..] == Relayed(store, policy, cmds) + [[PROMPT]];
  }

  /** The client's handshake and commands go through the loop as one list. */
  lemma SessionRuns(store: Store, policy: Policy, cmds: seq<Command>, up: seq<Bytes>, out: seq<Bytes>, back: seq<Bytes>)
    requires AllWellFormed(cmds) && Concat(up) == Sent(cmds)
    requires Concat(out) == Sent(Outcomes(Turns(policy, Drain(Lines, "", up), Answers(Drain(Prompts, "", back)))).1)
    requires Concat(back) == Written(store, out)
    ensures Outcomes(Turns(policy, Drain(Lines, "", up), Answers(Drain(Prompts, "", back)))).0
         == Relayed(store, policy, [HANDSHAKE] + cmds)
    ensures Serve(store, Drain(Lines, "", out)).1 == FinalStore(store, Passed(policy, cmds))
  {
    hide Drain, Concat, Conversation, Turns, Outcomes, Relayed, RepliesTo, FinalStore, Texts, WellFormed, Passed,
         Answers;
    var all := [HANDSHAKE] + cmds;
    Handshake(store, cmds);
    assert AllWellFormed(all);
    LinesArrive(all, up);
    AllForwarded(store, policy, all, out, back);
    PassedWellFormed(policy, all);
    MachineAnswers(store, Passed(policy, all), out, back);
    SessionOf(store, policy, all, [[PROMPT]]);
    HandshakePasses(store, policy, cmds);
    Handshake(store, Passed(policy, cmds));
  }

  function Min(a: nat, b: nat): nat { if a < b then a else b }

  /** The loop forwards as long as it gets answers. */
  lemma {:induction false} ForwardsAnswered(policy: Policy, cmds: seq<Command>, answers: seq<Bytes>)
    requires AllWellFormed(cmds)
    ensures var passed := Passed(policy, cmds);
            Outcomes(Turns(policy, LinesOf(cmds), answers)).1 == passed[..Min(|passed|, |answers| + 1)]
    decreases |cmds|
  {
    hide ParseResponse, Allowed, ParseCommand, Response.Text, WellFormed, Command.Line, Judge;
    var lines := LinesOf(cmds);
    if cmds == [] {
      assert lines == [];
    } else {
      var c := cmds[0];
      LineJudged(policy, c);
      assert lines[0] == c.Line() && lines[1..] == LinesOf(cmds[1..]);
      if !Allowed(policy, c) {
        ForwardsAnswered(policy, cmds[1..], answers);
        FirstTurn(Received(lines[0], Some(policy), None), Turns(policy, lines[1..], answers));
      } else if answers == [] {
        FirstTurn(Received(lines[0], Some(policy), None), Turns(policy, lines[1..], []));
      } else {
        ForwardsAnswered(policy, cmds[1..], answers[1..]);
        FirstTurn(Received(lines[0], Some(policy), Some(answers[0])), Turns(policy, lines[1..], answers[1..]));
      }
    }
  }

  /** Since the machine answers every command it is sent, the loop never runs out of answers. */
  lemma AllForwarded(store: Store, policy: Policy, cmds: seq<Command>, out: seq<Bytes>, back: seq<Bytes>)
    requires AllWellFormed(cmds)
    requires Concat(out) == Sent(Outcomes(Turns(policy, LinesOf(cmds), Answers(Drain(Prompts, "", back)))).1)
    requires Concat(back) == Written(store, out)
    ensures Outcomes(Turns(policy, LinesOf(cmds), Answers(Drain(Prompts, "", back)))).1 == Passed(policy, cmds)
  {
    hide Drain, Concat, Conversation, Turns, Outcomes, RepliesTo, FinalStore, Texts, WellFormed, Passed;
    var answers, passed := Answers(Drain(Prompts, "", back)), Passed(policy, cmds);
    ForwardsAnswered(policy, cmds, answers);
    PassedWellFormed(policy, cmds);
    var n := Min(|passed|, |answers| + 1);
    assert AllWellFormed(passed[..n]);
    MachineAnswers(store, passed[..n], out, back);
    RepliesAllFramable(store, passed[..n]);
    assert passed[..|passed|] == passed;
  }

  /** Such streams exist for all commands and policies. */
  lemma StreamsExist(store: Store, policy: Policy, cmds: seq<Command>)
    returns (up: seq<Bytes>, out: seq<Bytes>, back: seq<Bytes>, down: seq<Bytes>)
    requires AllWellFormed(cmds)
    ensures Concat(up) == Sent(cmds) && Concat(back) == Written(store, out)
    ensures var session := Outcomes(Turns(policy, Drain(Lines, "", up), Answers(Drain(Prompts, "", back))));
            Concat(out) == Sent(session.1) && Concat(down) == Conversation(session.0)
  {
    hide Drain, Conversation, Turns, Outcomes, Relayed, RepliesTo, FinalStore, Texts, WellFormed, Passed, Concat;
    var all := [HANDSHAKE] + cmds;
    up, out := [Sent(cmds)], [Sent(Passed(policy, all))];
    back := [Written(store, out)];
    OneChunk(Sent(cmds));
    OneChunk(Sent(Passed(policy, all)));
    OneChunk(Written(store, out));
    Handshake(store, cmds);
    LinesArrive(all, up);
    PassedWellFormed(policy, all);
    MachineAnswers(store, Passed(policy, all), out, back);
    SessionOf(store, policy, all, [[PROMPT]]);
    var session := Outcomes(Turns(policy, Drain(Lines, "", up), Answers(Drain(Prompts, "", back))));
    down := [Conversation(session.0)];
    OneChunk(Conversation(session.0));
  }

  lemma OneChunk(s: Bytes)
    ensures Concat([s]) == s
  {
    assert [s][1..] == [];
    assert Concat([]) == "";
  }
}
