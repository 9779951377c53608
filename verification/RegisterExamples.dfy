/** A run in which a write takes effect after its call has failed. */
module RegisterExamples {
  import opened Wrappers
  import opened Bytes
  import opened Numbers
  import opened Commands
  import opened Responses
  import opened Wire
  import opened Dummy
  import opened Registers
  import Conn
  import ConnExamples
  import ConnPairing

  const STORE5: Command := Write(Num(5, 0), Num(7, 0))

  const SERIAL: Bytes := "SERIAL NUMBER, 1024"

  lemma {:induction false} Snoc(s: State, run: seq<Step>, step: Step)
    requires AfterFrom(s, run).Some? && Enabled(AfterFrom(s, run).value, step)
    ensures AfterFrom(s, run + [step]) == Some(Apply(AfterFrom(s, run).value, step))
    decreases |run|
  {
    hide Enabled, Apply;
    if run == [] {
      assert run + [step] == [step] && [step][1..] == [];
    } else {
      assert (run + [step])[1..] == run[1..] + [step];
      Snoc(Apply(s, run[0]), run[1..], step);
    }
  }

  lemma Extend(run: seq<Step>, s: State, step: Step) returns (run': seq<Step>, s': State)
    requires After(run) == Some(s) && Enabled(s, step)
    ensures run' == run + [step] && s' == Apply(s, step) && After(run') == Some(s')
  {
    hide Enabled, Apply;
    Snoc(START, run, step);
    run', s' := run + [step], Apply(s, step);
  }

  /** A step of the connection. */
  lemma ExtendNet(run: seq<Step>, s: State, n: Conn.Step) returns (run': seq<Step>, s': State)
    requires After(run) == Some(s) && !n.Answer? && Conn.Enabled(s.net, n)
    ensures After(run') == Some(s') && s'.net == Conn.Apply(s.net, n) && StoreOf(s'.log) == StoreOf(s.log)
    ensures n.Scan? && n.i < |s'.net.calls| && Conn.Over(s'.net.calls[n.i].pc) ==> s'.log == s.log + [Ended(n.i)]
  {
    run', s' := Extend(run, s, Net(n));
    hide Conn.Apply, Conn.Enabled, After;
    QuietEvents(s.log, Events(s.net, s'.net, n));
  }

  lemma QuietEvents(log: seq<Event>, events: seq<Event>)
    requires |events| <= 1 && forall i | 0 <= i < |events| :: events[i].Begun? || events[i].Ended?
    ensures StoreOf(log + events) == StoreOf(log)
  {
    if events == [] {
      assert log + events == log;
    } else {
      assert (log + events)[..|log|] == log;
    }
  }

  /** A run of the connection without answers, here. */
  lemma {:induction false} Lift(s: State, run: seq<Conn.Step>) returns (own: seq<Step>)
    requires Conn.AfterFrom(s.net, run).Some? && forall i | 0 <= i < |run| :: !run[i].Answer?
    ensures AfterFrom(s, own).Some? && AfterFrom(s, own).value.net == Conn.AfterFrom(s.net, run).value
    ensures StoreOf(AfterFrom(s, own).value.log) == StoreOf(s.log)
    decreases |run|
  {
    hide Conn.Apply, Conn.Enabled;
    own := [];
    if run != [] {
      var step := Net(run[0]);
      QuietEvents(s.log, Events(s.net, Conn.Apply(s.net, run[0]), run[0]));
      var rest := Lift(Apply(s, step), run[1..]);
      own := [step] + rest;
      assert own[1..] == rest;
    }
  }

  /** The server takes the next text, which is a whole command. */
  lemma ExtendServe(run: seq<Step>, s: State, e: nat, c: Command) returns (run': seq<Step>, s': State)
    requires After(run) == Some(s) && ConnPairing.Inv(s.net) && HasLine(s.net, e) && WellFormed(c)
    requires s.net.epochs[e].texts[|s.net.epochs[e].answers|].bytes == c.Text()
    ensures After(run') == Some(s')
    ensures s'.log == s.log + [Served(e, |s.net.epochs[e].answers|, c.Line())]
    ensures StoreOf(s'.log) == StoreAfter(StoreOf(s.log), c)
    ensures s'.net.epochs
            == s.net.epochs[e := s.net.epochs[e].(answers := s.net.epochs[e].answers + [Reply(StoreOf(s.log), c)])]
    ensures s'.net == s.net.(epochs := s'.net.epochs)
  {
    hide After, Reply, StoreAfter, StoreOf, Command.Line, LineReply, LineStore, ConnPairing.Inv, WellFormed, LineOf;
    TextLine(c);
    ServesCommand(StoreOf(s.log), c);
    ServeEffect(s, e);
    run', s' := Extend(run, s, Serve(e));
    StoreOfServed(s'.log, |s.log|);
    assert s'.log[..|s.log| + 1] == s'.log && s'.log[..|s.log|] == s.log;
    ServeNet(s, e);
  }

  lemma ServeNet(s: State, e: nat)
    requires Enabled(s, Serve(e))
    ensures Apply(s, Serve(e)).net == s.net.(epochs := Apply(s, Serve(e)).net.epochs)
  {
    hide LineReply, StoreOf, LineOf, Framable;
    RepliesFramable(StoreOf(s.log), NextLine(s, e));
  }

  lemma NetOk(run: seq<Step>, s: State)
    requires After(run) == Some(s)
    ensures ConnPairing.Inv(s.net)
  {
    StartInv();
    RunInv(START, run);
  }

  // ----- the run

  const GREETING: Conn.Text := Conn.Text(0, Conn.Greeting, Conn.HANDSHAKE.Text(), false)
  const MAIN: Conn.Text := Conn.Text(0, Conn.Main, STORE5.Text(), false)

  /** One connection, one call, in between: what the scanner holds, and where the call is. */
  function Around(texts: seq<Conn.Text>, answers: seq<Bytes>, read: nat, tokens: nat, sc: Conn.Scanner,
                  pc: Conn.Pc): Conn.State {
    Conn.State(Some(0), Some(0), Some(sc), [Conn.Epoch(texts, answers, read, tokens, false, Conn.Selecting, true)],
               [Conn.Call(STORE5, pc)], Some(0), false)
  }

  /** The handshake is written and served. */
  lemma HandshakeServed() returns (run: seq<Step>, s: State)
    ensures After(run) == Some(s) && StoreOf(s.log) == map[]
    ensures s.net == Around([GREETING], [SERIAL], 0, 0, Conn.Scanner(0, "", false, 0), Conn.Scanning(Conn.Greeting))
  {
    var sent, net := ConnExamples.GreetingSent(STORE5);
    run := Lift(START, sent);
    s := After(run).value;
    NetOk(run, s);
    hide After, Command.Text, StoreOf, ConnPairing.Inv;
    run, s := ExtendServe(run, s, 0, Conn.HANDSHAKE);
    assert [] + [SERIAL] == [SERIAL];
    assert Reply(map[], Conn.HANDSHAKE) == SERIAL;
  }

  const ROW: Bytes := ">>" + (SERIAL + EOL)

  lemma SerialStream()
    ensures Conversation([SERIAL])[0..|ROW|] == ROW && |Conversation([SERIAL])| >= |ROW| > 0
  {
    hide Conversation;
    ConversationRows([SERIAL]);
    assert [SERIAL][1..] == [];
    assert Rows([SERIAL]) == Row(SERIAL) + Rows([]);
  }

  lemma HandshakeRead() returns (run: seq<Step>, s: State)
    ensures After(run) == Some(s) && StoreOf(s.log) == map[]
    ensures s.net == Around([GREETING], [SERIAL], |ROW|, 0, Conn.Scanner(0, ROW, false, 0),
                            Conn.Scanning(Conn.Greeting))
  {
    run, s := HandshakeServed();
    assert LineEnd("") == 0;
    SerialStream();
    hide After, Command.Text, StoreOf, Conversation, PromptSplit, LineEnd, SERIAL, ROW, STORE5, ParseResponse,
         ConnPairing.Inv;
    assert Conn.Stream(s.net.epochs[0]) == Conversation([SERIAL]);
    run, s := ExtendNet(run, s, Conn.Read(0, |ROW|));
    assert "" + ROW == ROW;
  }

  /** The answer to the handshake is read and taken. */
  lemma HandshakeTaken() returns (run: seq<Step>, s: State)
    ensures After(run) == Some(s) && StoreOf(s.log) == map[]
    ensures s.net == Around([GREETING], [SERIAL], |ROW|, 0, Conn.Scanner(0, "", false, 1), Conn.AtSend(Conn.Main))
  {
    run, s := HandshakeRead();
    RowTaken();
    hide After, Command.Text, StoreOf, Conversation, PromptSplit, LineEnd, ParseResponse, SERIAL, ROW, STORE5;
    run, s := ExtendNet(run, s, Conn.Scan(0));
  }

  lemma RowTaken()
    ensures PromptSplit(ROW, false) == Split(|ROW|, Some(SERIAL)) && LineEnd(ROW) < |ROW| && ROW[|ROW|..] == ""
            && SERIAL != ""
  {
    ConnExamples.RowScanned(SERIAL, ROW);
  }

  /** The write is sent, and nothing has come back. */
  lemma WriteSent() returns (run: seq<Step>, s: State)
    ensures After(run) == Some(s) && StoreOf(s.log) == map[]
    ensures s.net == Around([GREETING, MAIN], [SERIAL], |ROW|, 1, Conn.Scanner(0, "", false, 1),
                            Conn.Scanning(Conn.Main))
  {
    run, s := HandshakeTaken();
    hide After, Command.Text, StoreOf, SERIAL, ROW, STORE5;
    run, s := ExtendNet(run, s, Conn.Send(0));
    run, s := ExtendNet(run, s, Conn.WriteOk(0));
    assert [GREETING] + [MAIN] == [GREETING, MAIN];
  }

  /**
   A failed write takes effect after its call: the read of its answer fails, the
   call fails and closes the connection, and only then the machine takes its line.
   */
  lemma LateWrite() returns (run: seq<Step>, s: State)
    ensures After(run) == Some(s) && s.net.calls == [Conn.Call(STORE5, Conn.Failed)]
    ensures |s.log| >= 2 && s.log[|s.log| - 2] == Ended(0) && s.log[|s.log| - 1].Served?
    ensures StoreOf(s.log[..|s.log| - 1]) == map[] && StoreOf(s.log) == map[Num(5, 0) := Num(7, 0)]
  {
    run, s := WriteFailed();
    NetOk(run, s);
    hide After, Command.Text, StoreOf, ConnPairing.Inv, ROW, SERIAL;
    var before := s.log;
    run, s := ExtendServe(run, s, 0, STORE5);
    assert s.log[..|s.log| - 1] == before;
  }

  /** The read of the answer fails. */
  lemma WriteUnanswered() returns (run: seq<Step>, s: State)
    ensures After(run) == Some(s) && StoreOf(s.log) == map[]
    ensures s.net == Around([GREETING, MAIN], [SERIAL], |ROW|, 1, Conn.Scanner(0, "", true, 1),
                            Conn.Scanning(Conn.Main))
  {
    run, s := WriteSent();
    assert LineEnd("") == 0;
    hide After, Command.Text, StoreOf, SERIAL, ROW, STORE5, LineEnd;
    run, s := ExtendNet(run, s, Conn.ReadFail(0));
  }

  lemma WriteFailed() returns (run: seq<Step>, s: State)
    ensures After(run) == Some(s) && StoreOf(s.log) == map[]
    ensures |s.net.epochs| == 1 && s.net.epochs[0].texts == [GREETING, MAIN] && s.net.epochs[0].answers == [SERIAL]
    ensures s.net.calls == [Conn.Call(STORE5, Conn.Failed)] && s.log != [] && s.log[|s.log| - 1] == Ended(0)
  {
    run, s := WriteUnanswered();
    assert PromptSplit("", true).token.None?;
    hide After, Command.Text, StoreOf, SERIAL, ROW, STORE5, LineEnd, PromptSplit;
    run, s := ExtendNet(run, s, Conn.Scan(0));
  }
}
