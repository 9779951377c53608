/** Two runs that show what the connection can do: a stuck state, and a round trip that returns half an answer. */
module ConnExamples {
  import opened Wrappers
  import opened Bytes
  import opened Decimal
  import opened Numbers
  import opened Commands
  import opened Responses
  import opened Wire
  import opened Conn
  import opened ConnShape

  /** Stuck states are reached: the timer fires while the handshake's token is still in the channel. */
  lemma StuckIsReachable(cmd: Command) returns (run: seq<Step>, s: State)
    ensures After(run) == Some(s) && Stuck(s, 0)
  {
    run, s := HandshakeAnswered(cmd);
    hide After, Conversation, PromptSplit;
    var e := s.epochs[0];
    AnswerStream();
    var line := ">>x\r\n";
    assert Stream(s.epochs[0]) == Conversation(["x"]);
    assert "" + line == line;
    assert LineEnd("") == 0;
    run, s := Extend(run, s, Read(0, 5));
    assert s.scanner == Some(Scanner(0, line, false, 0));
    AnswerToken();
    run, s := Extend(run, s, Scan(0));
  }

  lemma AnswerStream()
    ensures |Conversation(["x"])| == 6 && Conversation(["x"])[0..5] == ">>x\r\n"
  {
    assert Frames(["x"]) == Frame("x") + Frames([]);
  }

  lemma AnswerToken()
    ensures PromptSplit(">>x\r\n", false) == Split(5, Some("x")) && LineEnd(">>x\r\n") == 4
  {
    RowScanned("x", ">>x\r\n");
  }

  /** Scanning a whole row. */
  lemma RowScanned(p: Bytes, row: Bytes)
    requires Framable(p) && row == ">>" + (p + EOL)
    ensures PromptSplit(row, false) == Split(|p| + 4, Some(p)) && LineEnd(row) == |p| + 3
  {
    FirstRow(p, "");
    RowPayload(p);
    assert row == Row(p) + "";
    hide Payload, Row;
  }

  /** Scanning a row cut off within its payload, once input has ended. */
  lemma CutRowScanned(p: Bytes, row: Bytes)
    requires Framable(p) && p[|p| - 1] != CR && row == ">>" + p
    ensures LineEnd(row) == |row| && PromptSplit(row, true) == Split(|p| + 2, Some(p))
  {
    LineEndOf(row, "");
    assert row + "" == row && row[|row| - 1] == p[|p| - 1];
    LeadingPromptsAt(row, 2);
    assert row[2..] == p;
  }

  lemma HandshakeAnswered(cmd: Command) returns (run: seq<Step>, s: State)
    ensures After(run) == Some(s)
    ensures s == State(Some(0), Some(0), Some(Scanner(0, "", false, 0)),
      [Epoch([Text(0, Greeting, HANDSHAKE.Text(), false)], ["x"], 0, 1, false, WantsLock, true)],
      [Call(cmd, Scanning(Greeting))], Some(0), false)
  {
    hide After, Command.Text, LineEnd, Conversation;
    run, s := Dialled(cmd);
    run, s := Extend(run, s, Send(0));
    run, s := Extend(run, s, Timer(0));
    assert s == State(Some(0), Some(0), Some(Scanner(0, "", false, 0)),
      [Epoch([], [], 0, 1, false, WantsLock, true)], [Call(cmd, Writing(Greeting))], Some(0), false);
    run, s := Extend(run, s, WriteOk(0));
    var text := Text(0, Greeting, HANDSHAKE.Text(), false);
    assert [] + [text] == [text];
    assert s.epochs == [Epoch([text], [], 0, 1, false, WantsLock, true)];
    assert Framable("x");
    run, s := Extend(run, s, Answer(0, "x"));
    assert [] + ["x"] == ["x"];
  }

  lemma Dialled(cmd: Command) returns (run: seq<Step>, s: State)
    ensures After(run) == Some(s)
    ensures s == State(Some(0), Some(0), Some(Scanner(0, "", false, 0)), [FRESH], [Call(cmd, AtSend(Greeting))],
                       Some(0), false)
    ensures forall i | 0 <= i < |run| :: !run[i].Answer?
  {
    run, s := [], START;
    assert After(run) == Some(s);
    hide After, LineEnd, Conversation;
    run, s := Extend(run, s, Invoke(cmd));
    run, s := Extend(run, s, Queue(0));
    run, s := Extend(run, s, Lock(0));
    assert s == START.(calls := [Call(cmd, Entered)], holder := Some(0));
    run, s := Extend(run, s, Enter(0));
    run, s := Extend(run, s, Dial(0, true));
  }

  // ----- half an answer

  const ASK: Command := Query(Num(2, 0))

  /** The machine answers 12.5, a read fails after the first digit, and the call succeeds with 1. */
  lemma HalfAnAnswer() returns (run: seq<Step>, s: State)
    ensures After(run) == Some(s) && |s.calls| == 1 && s.calls[0].cmd == ASK
    ensures s.calls[0].pc.Returned? && s.calls[0].pc.resp == Value(Num(1, 0))
    ensures |s.epochs| == 1 && s.epochs[0].answers == ["x", "MACRO, 12.5"]
    ensures ParseResponse(ASK, "MACRO, 12.5") == Value(Num(12, 5))
  {
    run, s := Asked();
    hide After, Conversation, PromptSplit, ParseResponse, LineEnd;
    HalfStream();
    HalfToken();
    HalfResponse();
    WholeResponse();
    var stream := Conversation(["x", "MACRO, 12.5"]);
    assert Stream(s.epochs[0]) == stream;
    assert LineEnd("") == 0 by { assert LineEnd("") <= 0; }
    run, s := Extend(run, s, Read(0, 10));
    assert "" + ">>MACRO, 1" == ">>MACRO, 1";
    assert s.scanner == Some(Scanner(0, ">>MACRO, 1", false, 1));
    run, s := Extend(run, s, ReadFail(0));
    run, s := Extend(run, s, Scan(0));
  }

  lemma HalfStream()
    ensures |Conversation(["x", "MACRO, 12.5"])| > 15
    ensures Conversation(["x", "MACRO, 12.5"])[5..15] == ">>MACRO, 1"
  {
    var a, q := ["x", "MACRO, 12.5"], "MACRO, 12.5";
    hide Conversation, Frame;
    ConversationRows(a);
    assert a[1..] == [q] && Rows([q]) == Row(q) + Rows([]);
    assert Rows(a) == Row("x") + (Row(q) + Rows([]));
    assert |Row("x")| == 5 && |Row(q)| == 15;
    assert Conversation(a)[5..15] == Row(q)[..10];
    assert Row(q)[..10] == ">>" + q[..8];
    assert q[..8] == "MACRO, 1";
    assert ">>" + "MACRO, 1" == ">>MACRO, 1";
  }

  lemma HalfToken()
    ensures LineEnd(">>MACRO, 1") == |">>MACRO, 1"|
    ensures PromptSplit(">>MACRO, 1", true) == Split(10, Some("MACRO, 1"))
  {
    CutRowScanned("MACRO, 1", ">>MACRO, 1");
  }

  lemma HalfResponse()
    ensures ParseResponse(ASK, "MACRO, 1") == Value(Num(1, 0))
  {
    hide ParseNumber;
    MacroFields("1");
    assert "MACRO, " + "1" == "MACRO, 1";
    ParsePrinted(1);
    assert Print(1) == "1";
  }

  lemma WholeResponse()
    ensures ParseResponse(ASK, "MACRO, 12.5") == Value(Num(12, 5))
  {
    hide ParseResponse;
    ReportedValue(Num(2, 0), Num(12, 5));
    assert Numeral(1) == "1" && Numeral(5) == "5" && Numeral(12) == "12";
    assert "MACRO, " + Num(12, 5).FormatF() == "MACRO, 12.5";
  }

  lemma Asked() returns (run: seq<Step>, s: State)
    ensures After(run) == Some(s)
    ensures s == State(Some(0), Some(0), Some(Scanner(0, "", false, 1)),
      [Epoch([Text(0, Greeting, HANDSHAKE.Text(), false), Text(0, Main, ASK.Text(), false)],
             ["x", "MACRO, 12.5"], 5, 1, false, Selecting, true)],
      [Call(ASK, Scanning(Main))], Some(0), false)
  {
    run, s := Greeted();
    hide After, Command.Text, LineEnd, Conversation;
    var greeting, text := Text(0, Greeting, HANDSHAKE.Text(), false), Text(0, Main, ASK.Text(), false);
    run, s := Extend(run, s, Send(0));
    run, s := Extend(run, s, WriteOk(0));
    assert [greeting] + [text] == [greeting, text];
    assert s.epochs == [Epoch([greeting, text], ["x"], 5, 1, false, Selecting, true)];
    assert Framable("MACRO, 12.5");
    run, s := Extend(run, s, Answer(0, "MACRO, 12.5"));
    assert ["x"] + ["MACRO, 12.5"] == ["x", "MACRO, 12.5"];
  }

  lemma GreetingSent(cmd: Command) returns (run: seq<Step>, s: State)
    ensures After(run) == Some(s) && forall i | 0 <= i < |run| :: !run[i].Answer?
    ensures s == State(Some(0), Some(0), Some(Scanner(0, "", false, 0)),
      [Epoch([Text(0, Greeting, HANDSHAKE.Text(), false)], [], 0, 0, false, Selecting, true)],
      [Call(cmd, Scanning(Greeting))], Some(0), false)
  {
    run, s := Dialled(cmd);
    hide After, Command.Text, LineEnd, Conversation, PromptSplit;
    var greeting := Text(0, Greeting, HANDSHAKE.Text(), false);
    run, s := Extend(run, s, Send(0));
    run, s := Extend(run, s, Receive(0));
    run, s := Extend(run, s, WriteOk(0));
    assert [] + [greeting] == [greeting];
    assert s.epochs == [Epoch([greeting], [], 0, 0, false, Selecting, true)];
  }

  lemma GreetingAnswered() returns (run: seq<Step>, s: State)
    ensures After(run) == Some(s)
    ensures s == State(Some(0), Some(0), Some(Scanner(0, "", false, 0)),
      [Epoch([Text(0, Greeting, HANDSHAKE.Text(), false)], ["x"], 0, 0, false, Selecting, true)],
      [Call(ASK, Scanning(Greeting))], Some(0), false)
  {
    run, s := GreetingSent(ASK);
    hide After, Command.Text, LineEnd, Conversation, PromptSplit;
    assert Framable("x");
    run, s := Extend(run, s, Answer(0, "x"));
    assert [] + ["x"] == ["x"];
  }

  lemma GreetingRead() returns (run: seq<Step>, s: State)
    ensures After(run) == Some(s)
    ensures s == State(Some(0), Some(0), Some(Scanner(0, ">>x\r\n", false, 0)),
      [Epoch([Text(0, Greeting, HANDSHAKE.Text(), false)], ["x"], 5, 0, false, Selecting, true)],
      [Call(ASK, Scanning(Greeting))], Some(0), false)
  {
    run, s := GreetingAnswered();
    assert LineEnd("") == 0;
    AnswerStream();
    hide After, Command.Text, LineEnd, Conversation, PromptSplit;
    assert Stream(s.epochs[0]) == Conversation(["x"]);
    run, s := Extend(run, s, Read(0, 5));
    assert "" + ">>x\r\n" == ">>x\r\n";
  }

  lemma Greeted() returns (run: seq<Step>, s: State)
    ensures After(run) == Some(s)
    ensures s == State(Some(0), Some(0), Some(Scanner(0, "", false, 1)),
      [Epoch([Text(0, Greeting, HANDSHAKE.Text(), false)], ["x"], 5, 0, false, Selecting, true)],
      [Call(ASK, AtSend(Main))], Some(0), false)
  {
    run, s := GreetingRead();
    AnswerToken();
    hide After, Command.Text, LineEnd, Conversation, PromptSplit, ParseResponse;
    assert ">>x\r\n"[5..] == "";
    run, s := Extend(run, s, Scan(0));
  }
}
