/** Which answer a round trip returns, in every run. */
module ConnPairing {
  import opened Wrappers
  import opened Bytes
  import opened Commands
  import opened Responses
  import opened Wire
  import opened Conn
  import opened ConnShape

  // ----- what was sent

  /** The call has written this part of its round trip, or has ended. */
  predicate Past(pc: Pc, part: Part) {
    || pc.Returned? || pc.Failed? || pc == Scanning(Main)
    || (part.Greeting? && (pc == Scanning(Greeting) || pc == AtSend(Main) || pc == Writing(Main)))
  }

  /** A text is the whole of what its call sends, or the last and a beginning of it on a closed socket. */
  ghost predicate TextOk(s: State, e: nat, k: nat)
    requires e < |s.epochs| && k < |s.epochs[e].texts|
  {
    var t := s.epochs[e].texts[k];
    && t.call < |s.calls| && Past(s.calls[t.call].pc, t.part)
    && (if t.cut then
          t.bytes != "" && t.bytes <= s.Sends(t.call, t.part).Text() && s.epochs[e].closed
            && k == |s.epochs[e].texts| - 1
        else t.bytes == s.Sends(t.call, t.part).Text())
  }

  ghost predicate IsText(s: State, e: nat, k: nat, call: nat, part: Part) {
    e < |s.epochs| && k < |s.epochs[e].texts| && s.epochs[e].texts[k].call == call && s.epochs[e].texts[k].part == part
  }

  /** No call writes one part twice, in whatever epochs. */
  ghost predicate Once(s: State) {
    forall e, k, e', k', call, part :: IsText(s, e, k, call, part) && IsText(s, e', k', call, part) ==>
           e == e' && k == k'
  }

  ghost predicate Texts(s: State) {
    forall e, k | 0 <= e < |s.epochs| && 0 <= k < |s.epochs[e].texts| :: TextOk(s, e, k)
  }

  ghost predicate AnswersOk(e: Epoch) {
    |e.answers| <= |e.texts| && forall k | 0 <= k < |e.answers| :: Framable(e.answers[k])
  }

  ghost predicate Answers(s: State) { forall e | 0 <= e < |s.epochs| :: AnswersOk(s.epochs[e]) }

  // ----- where the scanner stands

  /** The scanner has taken the rows of some answers and buffers what it has read beyond them. */
  ghost predicate Aligned(e: Epoch, sc: Scanner) {
    && sc.taken <= |e.answers|
    && |Rows(e.answers[..sc.taken])| <= e.read <= |Stream(e)|
    && sc.buf == Stream(e)[|Rows(e.answers[..sc.taken])|..e.read]
  }

  predicate InFlight(s: State) {
    s.holder.Some? && s.holder.value < |s.calls| && s.calls[s.holder.value].pc.Scanning?
  }

  /** The last text of the current epoch is the holder's, complete, and the next row will answer it. */
  ghost predicate Expecting(s: State, e: Epoch, sc: Scanner)
    requires InFlight(s)
  {
    var i := s.holder.value;
    var part := s.calls[i].pc.part;
    |e.texts| == sc.taken + 1 && e.texts[sc.taken] == Text(i, part, s.Sends(i, part).Text(), false)
  }

  ghost predicate Paired(s: State) {
    s.conn.Some? && s.conn.value < |s.epochs| && s.scanner.Some? ==>
      var e, sc := s.epochs[s.conn.value], s.scanner.value;
      if sc.fault then
        sc.buf == "" || (LF !in sc.buf && Aligned(e, sc) && InFlight(s) && Expecting(s, e, sc))
      else
        Aligned(e, sc) && if InFlight(s) then Expecting(s, e, sc) else |e.texts| == sc.taken
  }

  // ----- what was returned

  /**
   The row of an answer reaches this far into a scanner that holds so many bytes:
   two prompts and all of the answer, and the row's carriage return too if the
   answer itself ends in one.
   */
  predicate Whole(a: Bytes, held: nat) {
    held >= |a| + 2 + if a != "" && a[|a| - 1] == CR then 1 else 0
  }

  /**
   What a scan can make of the answer expected: all of it, or after a read error
   some beginning of its row, which yields the answer exactly if all of it is there.
   */
  ghost predicate Fits(token: Bytes, answers: seq<Bytes>, k: nat, held: nat, faulted: bool) {
    if faulted then
      && (token == ">" || token == ">>" || (k < |answers| && token != "" && token <= answers[k]))
      && (if k < |answers| then token == answers[k] <==> Whole(answers[k], held) else token == ">" && held <= 1)
    else k < |answers| && token == answers[k]
  }

  /** The call has returned, and without a read error or with all of its answer in the scanner. */
  predicate Complete(s: State, i: nat) {
    && i < |s.calls| && s.calls[i].pc.Returned?
    && (s.calls[i].pc.faulted ==>
          var Returned(_, _, e, k, held, _) := s.calls[i].pc;
          e < |s.epochs| && k < |s.epochs[e].answers| && Whole(s.epochs[e].answers[k], held))
  }

  ghost predicate ResultOk(s: State, i: nat)
    requires i < |s.calls|
  {
    s.calls[i].pc.Returned? ==>
      var Returned(resp, token, e, k, held, faulted) := s.calls[i].pc;
      && e < |s.epochs| && k < |s.epochs[e].texts|
      && s.epochs[e].texts[k] == Text(i, Main, s.calls[i].cmd.Text(), false)
      && Fits(token, s.epochs[e].answers, k, held, faulted)
      && resp == ParseResponse(s.calls[i].cmd, token)
  }

  ghost predicate Results(s: State) { forall i | 0 <= i < |s.calls| :: ResultOk(s, i) }

  ghost predicate Inv(s: State) {
    Shape(s) && Texts(s) && Once(s) && Answers(s) && Paired(s) && Results(s)
  }

  // ----- steps and texts

  /** How a step moves the call that takes it. */
  predicate Moves(a: Pc, b: Pc, step: Step) {
    match step
    case Refuse(_) => a.Invoked? && b.Failed?
    case Queue(_) => a.Invoked? && b.Waiting?
    case Lock(_) => a.Waiting? && b.Entered?
    case Enter(_) => a.Entered? && (b.Dialing? || b == AtSend(Main))
    case Dial(_, ok) => a.Dialing? && b == if ok then AtSend(Greeting) else Failed
    case Send(_) => a.AtSend? && (b == a || b == Writing(a.part))
    case WriteOk(_) => a.Writing? && b == Scanning(a.part)
    case WriteFail(_, _) => a.Writing? && b.Failed?
    case Scan(_) => a.Scanning? && (b.Failed? || if a.part.Greeting? then b == AtSend(Main) else b.Returned?)
    case _ => b == a
  }

  lemma CallEffect(s: State, step: Step)
    requires Fields(s) && Epochs(s) && Enabled(s, step)
    ensures var s' := Apply(s, step);
            && |s'.calls| == |s.calls| + (if step.Invoke? then 1 else 0)
            && (step.Invoke? ==> s'.calls[|s.calls|] == Call(step.cmd, Invoked))
            && (CallStep(step) && !step.Invoke? ==>
                  step.i < |s.calls| && Moves(s.calls[step.i].pc, s'.calls[step.i].pc, step)
                  && s'.calls[step.i].cmd == s.calls[step.i].cmd)
            && forall i | 0 <= i < |s.calls| && !(CallStep(step) && !step.Invoke? && step.i == i) ::
              s'.calls[i] == s.calls[i]
  {
    CloseEffect(s);
    if step.WriteFail? { WriteFailCalls(s, step.i, step.n); }
    if step.Scan? { ScanCalls(s, step.i); }
    hide CloseLocked, PromptSplit, Stream, LineEnd, ParseResponse, Command.Text, Fields, Epochs, ScanToken;
  }

  lemma ScanCalls(s: State, i: nat)
    requires Enabled(s, Scan(i))
    ensures var s' := Apply(s, Scan(i));
            |s'.calls| == |s.calls| && s'.calls[i].cmd == s.calls[i].cmd
              && Moves(s.calls[i].pc, s'.calls[i].pc, Scan(i))
    ensures forall j | 0 <= j < |s.calls| && j != i :: Apply(s, Scan(i)).calls[j] == s.calls[j]
  {
    hide PromptSplit, Stream, LineEnd, ParseResponse, Command.Text;
  }

  lemma WriteFailCalls(s: State, i: nat, n: nat)
    requires Enabled(s, WriteFail(i, n))
    ensures Apply(s, WriteFail(i, n)).calls == s.calls[i := s.calls[i].(pc := Failed)]
  {
  }

  /**
   How a call comes where it is: to a send from the dial, from entering an open
   connection or from the handshake's answer; to each write from its send, which
   puts one token into the channel; to each scan from its write; and to its response
   from the scan of its own answer.
   */
  lemma LifeCycle(s: State, step: Step, i: nat)
    requires Shape(s) && Enabled(s, step)
    requires i < |s.calls| && i < |Apply(s, step).calls| && Apply(s, step).calls[i].pc != s.calls[i].pc
    ensures match Apply(s, step).calls[i].pc
            case Invoked => false
            case Waiting => step == Queue(i) && s.calls[i].pc.Invoked?
            case Entered => step == Lock(i) && s.calls[i].pc.Waiting?
            case Dialing => step == Enter(i) && s.calls[i].pc.Entered?
            case AtSend(Greeting) => step == Dial(i, true) && s.calls[i].pc.Dialing?
            case AtSend(Main) =>
              || (step == Enter(i) && s.calls[i].pc.Entered?)
              || (step == Scan(i) && s.calls[i].pc == Scanning(Greeting))
            case Writing(p) => step == Send(i) && s.calls[i].pc == AtSend(p)
            case Scanning(p) => step == WriteOk(i) && s.calls[i].pc == Writing(p)
            case Returned(_, _, _, _, _, _) => step == Scan(i) && s.calls[i].pc == Scanning(Main)
            case Failed => step in {Refuse(i), Dial(i, false), Scan(i)} || (step.WriteFail? && step.i == i)
  {
    CallEffect(s, step);
    hide Apply, Enabled, Shape;
  }

  /** Calls keep their command and never go back before a part they have written. */
  lemma CallsMonotone(s: State, step: Step)
    requires Shape(s) && Enabled(s, step)
    ensures var s' := Apply(s, step);
            && |s.calls| <= |s'.calls|
            && forall i | 0 <= i < |s.calls| ::
                 && s'.calls[i].cmd == s.calls[i].cmd
                 && (forall part :: Past(s.calls[i].pc, part) ==> Past(s'.calls[i].pc, part))
                 && (s.calls[i].pc.Returned? ==> s'.calls[i].pc == s.calls[i].pc)
  {
    CallEffect(s, step);
    hide Apply, Enabled, Shape;
  }

  /** Epochs stay; only a write by the holder adds a text and only an answer adds an answer. */
  lemma EpochsMonotone(s: State, step: Step)
    requires Shape(s) && Enabled(s, step)
    ensures var s' := Apply(s, step);
            && |s.epochs| <= |s'.epochs|
            && (forall e | 0 <= e < |s.epochs| ::
                  && (s.epochs[e].closed ==> s'.epochs[e].closed)
                  && (!(step.Answer? && step.e == e) ==> s'.epochs[e].answers == s.epochs[e].answers)
                  && (!((step.WriteOk? || step.WriteFail?) && s.conn == Some(e)) ==>
                      s'.epochs[e].texts == s.epochs[e].texts))
            && (forall e | |s.epochs| <= e < |s'.epochs| :: s'.epochs[e] == FRESH)
  {
    hide CloseLocked, PromptSplit, Stream, LineEnd, ParseResponse, Command.Text, EpochOk, CallOk;
    if step.WriteFail? {
      if step.n > 0 { CutEffect(s, step.i, step.n); } else { CloseEffect(s); }
    } else {
      CloseEffect(s);
    }
  }

  /** The text a write leaves behind. */
  function Written(s: State, step: Step): seq<Text>
    requires (step.WriteOk? || step.WriteFail?) && Enabled(s, step)
  {
    var i := step.i;
    var part := s.calls[i].pc.part;
    var full := s.Sends(i, part).Text();
    if step.WriteOk? then [Text(i, part, full, false)]
    else if step.n == 0 then []
    else [Text(i, part, full[..step.n], true)]
  }

  lemma CutEffect(s: State, i: nat, n: nat)
    requires Shape(s) && Enabled(s, WriteFail(i, n)) && n > 0
    ensures var s1 := AddText(s, i, s.Sends(i, s.calls[i].pc.part).Text()[..n], true);
            Fields(s1) && Epochs(s1)
    ensures var s' := Apply(s, WriteFail(i, n));
            && |s'.epochs| == |s.epochs| && s'.conn.None?
            && s'.calls == s.calls[i := s.calls[i].(pc := Failed)]
            && forall e | 0 <= e < |s.epochs| ::
                 s'.epochs[e] == if s.conn == Some(e)
                   then s.epochs[e].(texts := s.epochs[e].texts + Written(s, WriteFail(i, n)), socketOpen := false,
                                     closed := true)
                   else s.epochs[e]
  {
    var s1 := AddText(s, i, s.Sends(i, s.calls[i].pc.part).Text()[..n], true);
    AddTextShape(s, i, s.Sends(i, s.calls[i].pc.part).Text()[..n], true);
    hide CloseLocked, Command.Text;
    CloseEffect(s1);
  }

  lemma WriteEffect(s: State, step: Step)
    requires Shape(s) && Enabled(s, step) && (step.WriteOk? || step.WriteFail?)
    ensures var s' := Apply(s, step);
            && var e := s.conn.value;
            && |s'.epochs| == |s.epochs| && s'.epochs[e].texts == s.epochs[e].texts + Written(s, step)
            && s'.epochs[e].answers == s.epochs[e].answers
            && (step.WriteFail? ==> s'.epochs[e].closed && s'.conn.None?)
            && s'.calls[step.i].pc == (if step.WriteOk? then Scanning(s.calls[step.i].pc.part) else Failed)
  {
    hide Command.Text;
    CloseEffect(s);
    if step.WriteFail? && step.n > 0 { CutEffect(s, step.i, step.n); }
    hide CloseLocked;
  }

  lemma StepTexts(s: State, step: Step)
    requires Inv(s) && Enabled(s, step)
    ensures Texts(Apply(s, step))
  {
    var s' := Apply(s, step);
    hide Paired, Results, Answers, Once, Apply, Enabled, Command.Text, Shape;
    CallsMonotone(s, step);
    EpochsMonotone(s, step);
    forall e, k | 0 <= e < |s'.epochs| && 0 <= k < |s'.epochs[e].texts| ensures TextOk(s', e, k) {
      if (step.WriteOk? || step.WriteFail?) && s.conn == Some(e) {
        WrittenOk(s, step, k);
      } else {
        assert TextOk(s, e, k);
      }
    }
  }

  /** The writer's epoch has no cut text yet, because it is open. */
  lemma WrittenOk(s: State, step: Step, k: nat)
    requires Shape(s) && Texts(s) && Enabled(s, step) && (step.WriteOk? || step.WriteFail?)
    requires k < |Apply(s, step).epochs[s.conn.value].texts|
    ensures s.conn.value < |Apply(s, step).epochs| && TextOk(Apply(s, step), s.conn.value, k)
  {
    hide Apply, Enabled, Command.Text, Shape;
    WriterReady(s, step);
    WriteEffect(s, step);
    CallsMonotone(s, step);
    var s', e := Apply(s, step), s.conn.value;
    if k < |s.epochs[e].texts| {
      hide Past, Written;
      assert TextOk(s, e, k) && s'.epochs[e].texts[k] == s.epochs[e].texts[k];
    } else {
      WrittenForm(s, step);
      hide Texts, Written;
      assert s'.epochs[e].texts[k] == Written(s, step)[0] && k == |s'.epochs[e].texts| - 1;
    }
  }

  lemma WrittenForm(s: State, step: Step)
    requires (step.WriteOk? || step.WriteFail?) && Enabled(s, step) && Written(s, step) != []
    ensures |Written(s, step)| == 1
    ensures var t, i := Written(s, step)[0], step.i;
            && t.call == i && t.part == s.calls[i].pc.part && t.cut == step.WriteFail?
            && t.bytes <= s.Sends(i, t.part).Text()
            && if t.cut then t.bytes != "" else t.bytes == s.Sends(i, t.part).Text()
  {
    hide Command.Text;
  }

  lemma WriterReady(s: State, step: Step)
    requires Shape(s) && Enabled(s, step) && (step.WriteOk? || step.WriteFail?)
    ensures step.i < |s.calls| && s.calls[step.i].pc.Writing?
    ensures s.conn.Some? && s.conn.value < |s.epochs| && !s.epochs[s.conn.value].closed
  {
    ConnectedShape(s, step.i);
    assert EpochOk(s.epochs[s.conn.value], true);
  }

  lemma StepOnce(s: State, step: Step)
    requires Inv(s) && Enabled(s, step)
    ensures Once(Apply(s, step))
  {
    var s' := Apply(s, step);
    hide Paired, Results, Answers, Texts, Apply, Enabled, Command.Text, Shape;
    forall e, k, call, part | IsText(s', e, k, call, part)
      ensures IsText(s, e, k, call, part) || NewText(s, step, e, k, call, part)
    {
      OldOrNew(s, step, e, k, call, part);
    }
    forall e, k, e', k', call, part | IsText(s', e, k, call, part) && IsText(s', e', k', call, part)
      ensures e == e' && k == k'
    {
      if NewText(s, step, e, k, call, part) { NothingBefore(s, step, e', k'); }
      if NewText(s, step, e', k', call, part) { NothingBefore(s, step, e, k); }
    }
  }

  predicate NewText(s: State, step: Step, e: nat, k: nat, call: nat, part: Part) {
    && (step.WriteOk? || step.WriteFail?) && s.conn == Some(e) && e < |s.epochs| && k == |s.epochs[e].texts|
    && call == step.i < |s.calls| && s.calls[call].pc == Writing(part)
  }

  lemma OldOrNew(s: State, step: Step, e: nat, k: nat, call: nat, part: Part)
    requires Shape(s) && Enabled(s, step) && IsText(Apply(s, step), e, k, call, part)
    ensures IsText(s, e, k, call, part) || NewText(s, step, e, k, call, part)
  {
    EpochsMonotone(s, step);
    if step.WriteOk? || step.WriteFail? { WriteEffect(s, step); }
    hide Apply, Command.Text, Shape;
  }

  /** The writer has not written this part before. */
  lemma NothingBefore(s: State, step: Step, e: nat, k: nat)
    requires Texts(s) && (step.WriteOk? || step.WriteFail?) && step.i < |s.calls| && s.calls[step.i].pc.Writing?
    ensures !IsText(s, e, k, step.i, s.calls[step.i].pc.part)
  {
    if e < |s.epochs| && k < |s.epochs[e].texts| { assert TextOk(s, e, k); }
  }

  lemma StepAnswers(s: State, step: Step)
    requires Shape(s) && Answers(s) && Enabled(s, step)
    ensures Answers(Apply(s, step))
  {
    var s' := Apply(s, step);
    EpochsMonotone(s, step);
    if step.WriteOk? || step.WriteFail? { WriteEffect(s, step); }
    forall e | 0 <= e < |s'.epochs| ensures AnswersOk(s'.epochs[e]) {
      if e < |s.epochs| {
        assert AnswersOk(s.epochs[e]);
        if step.Answer? && step.e == e { assert s'.epochs[e].answers == s.epochs[e].answers + [step.payload]; }
      }
    }
  }

  // ----- the stream and its rows

  lemma {:induction false} RowsJoin(a: seq<Bytes>, b: seq<Bytes>)
    ensures Rows(a + b) == Rows(a) + Rows(b)
  {
    if a == [] {
      assert a + b == b;
    } else {
      assert (a + b)[1..] == a[1..] + b;
      RowsJoin(a[1..], b);
    }
  }

  /** After the rows of some answers come those of the rest, then the prompt. */
  lemma StreamFrom(e: Epoch, n: nat)
    requires n <= |e.answers|
    ensures |Rows(e.answers[..n])| <= |Stream(e)|
    ensures Stream(e)[|Rows(e.answers[..n])|..] == Rows(e.answers[n..]) + [PROMPT]
  {
    hide Conversation, Row, Rows;
    ConversationRows(e.answers);
    RowsJoin(e.answers[..n], e.answers[n..]);
    assert e.answers[..n] + e.answers[n..] == e.answers;
  }

  /** What the scanner buffers is the beginning of that. */
  lemma BufferedIsPrefix(e: Epoch, sc: Scanner)
    requires Aligned(e, sc)
    ensures sc.buf <= Rows(e.answers[sc.taken..]) + [PROMPT]
  {
    hide Stream, Rows;
    StreamFrom(e, sc.taken);
    var pos := |Rows(e.answers[..sc.taken])|;
    assert sc.buf == Stream(e)[pos..][..e.read - pos];
  }

  /** New answers leave the stream read so far as it was. */
  lemma AlignedKept(e: Epoch, sc: Scanner, payload: Bytes)
    requires Aligned(e, sc)
    ensures Aligned(e.(answers := e.answers + [payload]), sc)
  {
    hide Conversation, Rows;
    var e' := e.(answers := e.answers + [payload]);
    assert e'.answers[..sc.taken] == e.answers[..sc.taken];
    StreamGrows(e.answers, payload);
    assert Conversation(e'.answers)[..|Conversation(e.answers)|] == Conversation(e.answers);
    var pos := |Rows(e.answers[..sc.taken])|;
    assert Stream(e')[pos..e.read] == Conversation(e'.answers)[..|Conversation(e.answers)|][pos..e.read];
  }

  lemma StreamGrows(answers: seq<Bytes>, payload: Bytes)
    ensures Conversation(answers) <= Conversation(answers + [payload])
  {
    hide Conversation, Rows;
    FramesSnoc(answers, payload);
  }

  /** Reading takes more of the stream into the buffer. */
  lemma AlignedRead(e: Epoch, sc: Scanner, n: nat)
    requires Aligned(e, sc) && e.read + n <= |Stream(e)|
    ensures Aligned(e.(read := e.read + n), sc.(buf := sc.buf + Stream(e)[e.read..e.read + n]))
  {
    hide Conversation, Rows;
    var pos := |Rows(e.answers[..sc.taken])|;
    assert Stream(e)[pos..e.read] + Stream(e)[e.read..e.read + n] == Stream(e)[pos..e.read + n];
  }

  // ----- scanning

  /** A complete line in the buffer is the row of the next answer, and scanning yields the answer. */
  lemma ScanComplete(e: Epoch, sc: Scanner, eof: bool)
    requires Aligned(e, sc) && AnswersOk(e) && LineEnd(sc.buf) < |sc.buf|
    ensures sc.taken < |e.answers|
    ensures var r := PromptSplit(sc.buf, eof);
            && r.token == Some(e.answers[sc.taken])
            && Aligned(e, sc.(buf := sc.buf[r.advance..], taken := sc.taken + 1))
  {
    BufferedIsPrefix(e, sc);
    NotAllTaken(e, sc);
    assert Framable(e.answers[sc.taken]);
    hide Conversation, Rows, Row, PromptSplit, LineEnd, Aligned, Framable, AnswersOk;
    NextRow(e, sc.taken);
    ScanRow(e.answers[sc.taken], Rows(e.answers[sc.taken + 1..]) + [PROMPT], sc.buf, eof);
    TakenRow(e, sc, e.answers[sc.taken]);
  }

  /** A buffer that holds a line and begins like the row of an answer yields the answer. */
  lemma ScanRow(a: Bytes, after: Bytes, buf: Bytes, eof: bool)
    requires Framable(a) && buf <= Row(a) + after && LineEnd(buf) < |buf|
    ensures |Row(a)| <= |buf| && PromptSplit(buf, eof) == Split(|Row(a)|, Some(a))
  {
    FirstRow(a, after);
    LineOfPrefix(buf, Row(a) + after);
    RowPayload(a);
    hide LineEnd, StripPrompts, DropCR, Framable;
  }

  /** With a line in the buffer, some answer has not been taken. */
  lemma NotAllTaken(e: Epoch, sc: Scanner)
    requires sc.taken <= |e.answers| && sc.buf <= Rows(e.answers[sc.taken..]) + [PROMPT] && LineEnd(sc.buf) < |sc.buf|
    ensures sc.taken < |e.answers|
  {
    var rest := Rows(e.answers[sc.taken..]) + [PROMPT];
    assert sc.buf[LineEnd(sc.buf)] == LF && LF in rest;
    assert sc.taken == |e.answers| ==> rest == [PROMPT];
  }

  lemma NextRow(e: Epoch, n: nat)
    requires n < |e.answers|
    ensures Rows(e.answers[n..]) + [PROMPT] == Row(e.answers[n]) + (Rows(e.answers[n + 1..]) + [PROMPT])
  {
    hide Row;
    assert e.answers[n..][1..] == e.answers[n + 1..];
  }

  lemma LineOfPrefix(s: Bytes, t: Bytes)
    requires s <= t && LineEnd(s) < |s|
    ensures LineEnd(s) == LineEnd(t) && s[..LineEnd(s)] == t[..LineEnd(t)]
  {
    FirstLineEnd(s, t[|s|..]);
    assert s + t[|s|..] == t;
  }

  lemma TakenRow(e: Epoch, sc: Scanner, a: Bytes)
    requires Aligned(e, sc) && sc.taken < |e.answers| && a == e.answers[sc.taken] && |Row(a)| <= |sc.buf|
    ensures Aligned(e, sc.(buf := sc.buf[|Row(a)|..], taken := sc.taken + 1))
  {
    hide Stream, Row;
    var pos := |Rows(e.answers[..sc.taken])|;
    assert e.answers[..sc.taken + 1] == e.answers[..sc.taken] + [a];
    RowsJoin(e.answers[..sc.taken], [a]);
    assert Rows([a]) == Row(a) + Rows([]) && Rows([]) == "";
    assert sc.buf[|Row(a)|..] == Stream(e)[pos + |Row(a)|..e.read];
  }

  /** After a read error, what the incomplete line in the buffer yields. */
  lemma ScanPartial(e: Epoch, sc: Scanner)
    requires Aligned(e, sc) && AnswersOk(e) && LF !in sc.buf && sc.buf != ""
    ensures PromptSplit(sc.buf, true).advance == |sc.buf|
    ensures PromptSplit(sc.buf, true).token.Some?
    ensures var t := PromptSplit(sc.buf, true).token.value; t != "" && Fits(t, e.answers, sc.taken, |sc.buf|, true)
  {
    BufferedIsPrefix(e, sc);
    LineEndOf(sc.buf, "");
    assert sc.buf + "" == sc.buf;
    if sc.taken == |e.answers| {
      assert sc.buf == [PROMPT];
      LonePrompt();
    } else {
      var a := e.answers[sc.taken];
      NextRow(e, sc.taken);
      PartialRow(a, Rows(e.answers[sc.taken + 1..]) + [PROMPT], sc.buf);
    }
  }

  /** The beginnings of a row. */
  lemma PartialRow(a: Bytes, after: Bytes, s: Bytes)
    requires Framable(a) && s <= Row(a) + after && LF !in s && s != ""
    ensures var t := Payload(s); t == ">" || t == ">>" || (t != "" && t <= a)
    ensures Payload(s) == a <==> Whole(a, |s|)
  {
    var line := ">>" + (a + [CR]);
    assert Row(a) + after == line + ([LF] + after);
    assert (line + ([LF] + after))[|line|] == LF;
    assert s == line[..|s|];
    var d := DropCR(s);
    WholeRow(a, s);
    if |s| <= 2 {
      assert s == ">>"[..|s|];
      PromptsOnly(s);
    } else {
      var m := |d| - 2;
      assert d == ">>" + a[..m];
      if m == 0 {
        PromptsOnly(d);
      } else {
        LeadingPromptsAt(d, 2);
        assert d[2..] == a[..m];
      }
    }
  }

  /** Without its carriage return a beginning of a row is all of it exactly if the answer is whole. */
  lemma WholeRow(a: Bytes, s: Bytes)
    requires Framable(a) && s != "" && s <= ">>" + (a + [CR])
    ensures DropCR(s) == ">>" + a <==> Whole(a, |s|)
  {
    var line := ">>" + (a + [CR]);
    assert s == line[..|s|] && line[..|a| + 2] == ">>" + a;
    assert |s| >= 1 && s[|s| - 1] == line[|s| - 1];
    assert |s| == |a| + 2 ==> s[|s| - 1] == a[|a| - 1];
    assert |s| == |a| + 3 ==> s[|s| - 1] == CR && s[..|s| - 1] == ">>" + a;
  }

  lemma PromptsOnly(s: Bytes)
    requires s == ">" || s == ">>"
    ensures DropCR(s) == s && StripPrompts(s) == s
  {
    assert LeadingPrompts(">") == 1 && LeadingPrompts(">>") == 2;
  }

  // ----- the invariant of the pairing

  /** Steps that touch neither the current epoch's texts, the scanner nor who is in flight. */
  lemma PairedFrame(s: State, s': State)
    requires Paired(s) && s'.conn == s.conn && s'.scanner == s.scanner
    requires InFlight(s') == InFlight(s)
    requires InFlight(s) ==> s'.holder == s.holder && s'.calls[s.holder.value] == s.calls[s.holder.value]
    requires s.conn.Some? && s.conn.value < |s.epochs| ==>
               var e := s.conn.value;
               && e < |s'.epochs| && s'.epochs[e].texts == s.epochs[e].texts
               && s'.epochs[e].answers == s.epochs[e].answers && s'.epochs[e].read == s.epochs[e].read
    requires s.conn.Some? ==> s.conn.value < |s.epochs|
    ensures Paired(s')
  {
    hide Conversation, Rows, Command.Text;
  }

  /** Nothing is open, so nothing is expected. */
  lemma PairedClosed(s: State)
    requires s.conn.None?
    ensures Paired(s)
  {
  }

  lemma StepPaired(s: State, step: Step)
    requires Inv(s) && Enabled(s, step)
    ensures Paired(Apply(s, step))
  {
    var s' := Apply(s, step);
    hide Texts, Once, Results, Answers, Paired, Apply, Enabled, Conversation, Rows, Command.Text, CloseLocked;
    match step {
      case WriteOk(i) => WritePaired(s, i);
      case WriteFail(i, n) =>
        WriteEffect(s, step);
        PairedClosed(s');
      case Read(i, n) => ReadPaired(s, step);
      case ReadFail(i) => ReadPaired(s, step);
      case Scan(i) => ScanPaired(s, i);
      case Answer(e, payload) => AnswerPaired(s, e, payload);
      case Dial(i, ok) => DialPaired(s, i, ok);
      case Close => ClosePaired(s, step);
      case IdleClose(e) => ClosePaired(s, step);
      case _ => QuietPaired(s, step);
    }
  }

  predicate Quiet(step: Step) {
    step.Invoke? || step.Refuse? || step.Queue? || step.Lock? || step.Enter? || step.Send?
    || step.Receive? || step.ReceiveClosed? || step.Timer?
  }

  lemma QuietPaired(s: State, step: Step)
    requires Shape(s) && Paired(s) && Enabled(s, step) && Quiet(step)
    ensures Paired(Apply(s, step))
  {
    hide Paired;
    var s' := Apply(s, step);
    if step.Send? {
      HolderAlone(s, step.i);
      var e := s.keepAlive.value;
      assert EpochOk(s.epochs[e], true);
    } else if step.Enter? {
      HolderAlone(s, step.i);
    } else if step.Refuse? || step.Queue? {
      assert CallOk(s, step.i);
    }
    PairedFrame(s, s');
  }

  lemma ClosePaired(s: State, step: Step)
    requires Shape(s) && Paired(s) && Enabled(s, step) && (step.Close? || step.IdleClose?)
    ensures Paired(Apply(s, step))
  {
    hide Paired, CloseLocked;
    CloseEffect(s);
    var s' := Apply(s, step);
    if s'.conn.None? { PairedClosed(s'); } else { PairedFrame(s, s'); }
  }

  lemma DialPaired(s: State, i: nat, ok: bool)
    requires Shape(s) && Paired(s) && Enabled(s, Dial(i, ok))
    ensures Paired(Apply(s, Dial(i, ok)))
  {
    var s' := Apply(s, Dial(i, ok));
    HolderAlone(s, i);
    assert CallOk(s, i);
    if ok {
      assert s'.calls[i].pc == AtSend(Greeting) && s'.holder == Some(i);
      assert FRESH.answers[..0] == [];
    }
  }

  lemma WritePaired(s: State, i: nat)
    requires Shape(s) && Paired(s) && Enabled(s, WriteOk(i))
    ensures Paired(Apply(s, WriteOk(i)))
  {
    hide Conversation, Rows, Command.Text;
    HolderAlone(s, i);
    ConnectedShape(s, i);
  }

  lemma ReadPaired(s: State, step: Step)
    requires Shape(s) && Paired(s) && Enabled(s, step) && (step.Read? || step.ReadFail?)
    ensures Paired(Apply(s, step))
  {
    hide Conversation, Rows, Command.Text, Aligned;
    HolderAlone(s, step.i);
    ConnectedShape(s, step.i);
    var e, sc := s.epochs[s.conn.value], s.scanner.value;
    if step.Read? {
      AlignedRead(e, sc, step.n);
    } else {
      assert sc.buf[..|sc.buf|] == sc.buf;
      AlignedIgnoresFault(e, sc);
    }
  }

  lemma AlignedIgnoresFault(e: Epoch, sc: Scanner)
    requires Aligned(e, sc)
    ensures Aligned(e, sc.(fault := true))
  {
  }

  lemma AnswerPaired(s: State, e: nat, payload: Bytes)
    requires Shape(s) && Paired(s) && Enabled(s, Answer(e, payload))
    ensures Paired(Apply(s, Answer(e, payload)))
  {
    hide Conversation, Rows, Command.Text, Aligned;
    if s.conn == Some(e) {
      var sc := s.scanner.value;
      if Aligned(s.epochs[e], sc) { AlignedKept(s.epochs[e], sc, payload); }
    } else {
      PairedFrame(s, Apply(s, Answer(e, payload)));
    }
  }

  /** A scan that yields nothing closes; a complete one moves on by a row; a partial one leaves a spent scanner. */
  lemma ScanPaired(s: State, i: nat)
    requires Shape(s) && Answers(s) && Paired(s) && Enabled(s, Scan(i))
    ensures Paired(Apply(s, Scan(i)))
  {
    hide Conversation, Rows, Command.Text, Aligned, PromptSplit, CloseLocked, ParseResponse;
    HolderAlone(s, i);
    ConnectedShape(s, i);
    var e, sc := s.epochs[s.conn.value], s.scanner.value;
    assert AnswersOk(e);
    ScanOutcome(s, i);
    var r := PromptSplit(sc.buf, sc.fault);
    if r.token.None? || r.token.value == "" {
      CloseEffect(s);
      PairedClosed(Apply(s, Scan(i)));
    }
  }

  /** What the scan of the call in flight finds. */
  lemma ScanOutcome(s: State, i: nat)
    requires Shape(s) && Answers(s) && Paired(s) && Enabled(s, Scan(i))
    ensures s.holder == Some(i) && s.conn.Some? && s.conn.value < |s.epochs| && s.scanner.value.epoch == s.conn.value
    ensures var e, sc := s.epochs[s.conn.value], s.scanner.value;
            var r := PromptSplit(sc.buf, sc.fault);
            var part := s.calls[i].pc.part;
            if sc.buf == "" then sc.fault && r.token.None?
            else
              && r.token.Some? && r.token.value != ""
              && Fits(r.token.value, e.answers, sc.taken, |sc.buf|, sc.fault)
              && |e.texts| == sc.taken + 1 && e.texts[sc.taken] == Text(i, part, s.Sends(i, part).Text(), false)
              && (if sc.fault then r.advance == |sc.buf|
                  else Aligned(e, sc.(buf := sc.buf[r.advance..], taken := sc.taken + 1)))
  {
    hide Conversation, Rows, Command.Text, Aligned, CloseLocked, ParseResponse;
    HolderAlone(s, i);
    ConnectedShape(s, i);
    var e, sc := s.epochs[s.conn.value], s.scanner.value;
    assert AnswersOk(e);
    if sc.buf != "" {
      hide PromptSplit;
      if sc.fault {
        ScanPartial(e, sc);
      } else {
        ScanComplete(e, sc, false);
        assert Framable(e.answers[sc.taken]);
      }
    }
  }

  lemma StepResults(s: State, step: Step)
    requires Inv(s) && Enabled(s, step)
    ensures Results(Apply(s, step))
  {
    var s' := Apply(s, step);
    CallsMonotone(s, step);
    hide Apply, Enabled, ResultOk, Inv;
    forall i | 0 <= i < |s'.calls| ensures ResultOk(s', i) {
      if i < |s.calls| && s.calls[i].pc.Returned? {
        OldResult(s, step, i);
      } else if s'.calls[i].pc.Returned? {
        NewResult(s, step, i);
      }
    }
  }

  lemma AnswerEffect(s: State, e: nat, payload: Bytes)
    requires Enabled(s, Answer(e, payload))
    ensures Apply(s, Answer(e, payload)).epochs[e] == s.epochs[e].(answers := s.epochs[e].answers + [payload])
  {
  }

  /** A result stays what it was: an answer that comes later was not there to be read. */
  lemma OldResult(s: State, step: Step, i: nat)
    requires Inv(s) && Enabled(s, step) && i < |s.calls| && s.calls[i].pc.Returned?
    ensures i < |Apply(s, step).calls| && ResultOk(Apply(s, step), i)
  {
    CallsMonotone(s, step);
    EpochsMonotone(s, step);
    if step.WriteOk? || step.WriteFail? { WriteEffect(s, step); }
    if step.Answer? { AnswerEffect(s, step.e, step.payload); }
    assert ResultOk(s, i);
    hide Apply, Enabled, Inv, Command.Text, ParseResponse, Fits;
    var Returned(resp, token, e, k, held, faulted) := s.calls[i].pc;
    if step.Answer? && step.e == e {
      assert Framable(step.payload) by { AnswerFramable(s, step.e, step.payload); }
      FitsGrows(token, s.epochs[e].answers, k, held, faulted, step.payload);
    }
  }

  lemma AnswerFramable(s: State, e: nat, payload: Bytes)
    requires Enabled(s, Answer(e, payload))
    ensures Framable(payload)
  {
  }

  lemma FitsGrows(token: Bytes, answers: seq<Bytes>, k: nat, held: nat, faulted: bool, payload: Bytes)
    requires Fits(token, answers, k, held, faulted) && Framable(payload)
    ensures Fits(token, answers + [payload], k, held, faulted)
  {
  }

  /** Only a scan makes a call return, and it returns what the scan found. */
  lemma NewResult(s: State, step: Step, i: nat)
    requires Inv(s) && Enabled(s, step) && i < |Apply(s, step).calls| && Apply(s, step).calls[i].pc.Returned?
    requires i < |s.calls| ==> !s.calls[i].pc.Returned?
    ensures ResultOk(Apply(s, step), i)
  {
    CallEffect(s, step);
    assert step.Scan? && step.i == i by { hide Apply, Enabled, Inv; }
    ReturnedEffect(s, i);
    ScanOutcome(s, i);
    hide Apply, Enabled, Command.Text, PromptSplit, ParseResponse, Texts, Once, Results;
  }

  lemma ReturnedEffect(s: State, i: nat)
    requires Shape(s) && Enabled(s, Scan(i))
    requires i < |Apply(s, Scan(i)).calls| && Apply(s, Scan(i)).calls[i].pc.Returned?
    ensures var s', sc := Apply(s, Scan(i)), s.scanner.value;
            var r := PromptSplit(sc.buf, sc.fault);
            && s'.epochs == s.epochs && s.calls[i].pc == Scanning(Main) && r.token.Some?
            && s'.calls[i] == s.calls[i].(pc :=
                 Returned(ParseResponse(s.calls[i].cmd, r.token.value), r.token.value, sc.epoch, sc.taken, |sc.buf|,
                          sc.fault))
  {
    CloseEffect(s);
    hide CloseLocked, PromptSplit, ParseResponse, LineEnd;
  }

  lemma StepInv(s: State, step: Step)
    requires Inv(s) && Enabled(s, step)
    ensures Inv(Apply(s, step))
  {
    hide Texts, Once, Results, Answers, Paired, Shape, Apply, Enabled;
    StepShape(s, step);
    StepTexts(s, step);
    StepOnce(s, step);
    StepAnswers(s, step);
    StepPaired(s, step);
    StepResults(s, step);
  }

  lemma StartInv()
    ensures Inv(START)
  {
    StartShape();
  }

  lemma {:induction false} RunInv(s: State, run: seq<Step>)
    requires Inv(s) && AfterFrom(s, run).Some?
    ensures Inv(AfterFrom(s, run).value)
    decreases |run|
  {
    hide Inv, Apply, Enabled;
    if run != [] {
      StepInv(s, run[0]);
      RunInv(Apply(s, run[0]), run[1..]);
    }
  }

  // ----- the theorems

  /**
   Response pairing. After any run, a round trip that has returned sent its
   command whole, and its response is what `ParseResponse` makes of the answer
   the backend gave to that very text, if and only if no read failed during the
   call or the scanner held all of the answer when one did. Otherwise the response
   comes from a beginning of that answer, or is one or two bare prompts.
   */
  lemma ResponsePairing(run: seq<Step>, i: nat)
    requires After(run).Some? && i < |After(run).value.calls| && After(run).value.calls[i].pc.Returned?
    ensures var s := After(run).value;
            var Returned(resp, token, e, k, _, _) := s.calls[i].pc;
            && e < |s.epochs| && k < |s.epochs[e].texts|
            && s.epochs[e].texts[k] == Text(i, Main, s.calls[i].cmd.Text(), false)
            && resp == ParseResponse(s.calls[i].cmd, token)
            && (k < |s.epochs[e].answers| && token == s.epochs[e].answers[k] <==> Complete(s, i))
            && (token in {">", ">>"} || (k < |s.epochs[e].answers| && token != "" && token <= s.epochs[e].answers[k]))
  {
    hide Command.Text, ParseResponse;
    StartInv();
    RunInv(START, run);
    assert ResultOk(After(run).value, i);
  }

  /** Each command is sent at most once: no call has two texts for one part, in any epochs. */
  lemma SentAtMostOnce(run: seq<Step>, e: nat, k: nat, e': nat, k': nat)
    requires After(run).Some? && e < |After(run).value.epochs| && e' < |After(run).value.epochs|
    requires k < |After(run).value.epochs[e].texts| && k' < |After(run).value.epochs[e'].texts|
    requires var t, t' := After(run).value.epochs[e].texts[k], After(run).value.epochs[e'].texts[k'];
             t.call == t'.call && t.part == t'.part
    ensures e == e' && k == k'
  {
    StartInv();
    RunInv(START, run);
    var s := After(run).value;
    var t := s.epochs[e].texts[k];
    assert IsText(s, e, k, t.call, t.part) && IsText(s, e', k', t.call, t.part);
  }

  /** No answer is delivered to two calls, so one left unread by a failed call reaches nobody. */
  lemma AnswersNotShared(run: seq<Step>, i: nat, j: nat)
    requires After(run).Some? && i < |After(run).value.calls| && j < |After(run).value.calls| && i != j
    requires After(run).value.calls[i].pc.Returned? && After(run).value.calls[j].pc.Returned?
    ensures var s := After(run).value;
            s.calls[i].pc.epoch != s.calls[j].pc.epoch || s.calls[i].pc.index != s.calls[j].pc.index
  {
    StartInv();
    RunInv(START, run);
    assert ResultOk(After(run).value, i) && ResultOk(After(run).value, j);
  }
}
