/** What every run keeps of the fields behind the mutex, the channels and the lock. */
module ConnShape {
  import opened Wrappers
  import opened Bytes
  import opened Commands
  import opened Responses
  import opened Wire
  import opened Conn

  /** Socket, channel and scanner are all of one epoch or all nil. */
  ghost predicate Fields(s: State) {
    && s.keepAlive == s.conn
    && (s.scanner.Some? <==> s.conn.Some?)
    && (s.conn.Some? ==> s.conn.value < |s.epochs| && s.scanner.value.epoch == s.conn.value)
    && !s.panicked
  }

  /** An epoch is open exactly while it is the current one; its goroutine is there at least that long. */
  ghost predicate EpochOk(e: Epoch, current: bool) {
    && (e.closed <==> !current)
    && (e.socketOpen <==> current)
    && e.tokens <= 1
    && (current ==> !e.idler.Exited?)
  }

  ghost predicate Epochs(s: State) {
    forall e | 0 <= e < |s.epochs| :: EpochOk(s.epochs[e], s.conn == Some(e))
  }

  /** The calls inside the critical section are exactly the holder. */
  ghost predicate CallOk(s: State, i: nat)
    requires i < |s.calls|
  {
    var pc := s.calls[i].pc;
    && (pc.Holding() <==> s.holder == Some(i))
    && (pc.Connected() ==> s.conn.Some?)
    && (pc.Dialing? ==> s.conn.None?)
  }

  ghost predicate Calls(s: State) {
    && (s.holder.Some? ==> s.holder.value < |s.calls|)
    && forall i | 0 <= i < |s.calls| :: CallOk(s, i)
  }

  ghost predicate Shape(s: State) { Fields(s) && Epochs(s) && Calls(s) }

  /** Closing affects the current epoch only. */
  lemma CloseEffect(s: State)
    requires Fields(s) && Epochs(s)
    ensures var s' := CloseLocked(s);
            && s'.conn.None? && s'.keepAlive.None? && s'.scanner.None? && !s'.panicked
            && s'.calls == s.calls && s'.holder == s.holder && |s'.epochs| == |s.epochs|
            && (forall e | 0 <= e < |s.epochs| ::
                  s'.epochs[e] == if s.conn == Some(e) then s.epochs[e].(socketOpen := false, closed := true)
                    else s.epochs[e])
  {
  }

  lemma FailShape(s: State, i: nat)
    requires Fields(s) && Epochs(s) && i < |s.calls|
    requires forall j | 0 <= j < |s.calls| && j != i :: !s.calls[j].pc.Holding()
    ensures Shape(Fail(s, i))
  {
    hide CloseLocked;
    CloseEffect(s);
  }

  /** A step that replaces one epoch by another of the same standing. */
  lemma EpochShape(s: State, e: nat, epoch: Epoch)
    requires Shape(s) && e < |s.epochs| && EpochOk(epoch, s.conn == Some(e))
    ensures Shape(s.SetEpoch(e, epoch))
  {
    var s' := s.SetEpoch(e, epoch);
    forall i | 0 <= i < |s.calls| ensures CallOk(s', i) { assert CallOk(s, i); }
  }

  /** Only the holder is in the critical section. */
  lemma HolderAlone(s: State, i: nat)
    requires Calls(s) && i < |s.calls| && s.calls[i].pc.Holding()
    ensures s.holder == Some(i) && forall j | 0 <= j < |s.calls| && j != i :: !s.calls[j].pc.Holding()
  {
    assert CallOk(s, i);
    forall j | 0 <= j < |s.calls| && j != i ensures !s.calls[j].pc.Holding() { assert CallOk(s, j); }
  }

  predicate CallStep(step: Step) {
    step.Invoke? || step.Refuse? || step.Queue? || step.Lock? || step.Enter? || step.Dial? || step.Send?
    || step.WriteOk? || step.WriteFail? || step.Read? || step.ReadFail? || step.Scan?
  }

  lemma StepShape(s: State, step: Step)
    requires Shape(s) && Enabled(s, step)
    ensures Shape(Apply(s, step))
  {
    if CallStep(step) { CallStepShape(s, step); } else { OtherStepShape(s, step); }
  }

  lemma OtherStepShape(s: State, step: Step)
    requires Shape(s) && Enabled(s, step) && !CallStep(step)
    ensures Shape(Apply(s, step))
  {
    hide CloseLocked, Shape;
    match step {
      case Close => IdleShape(s);
      case IdleClose(e) => IdleCloseShape(s, e);
      case Receive(e) => StandingKept(s, e, s.epochs[e].(tokens := s.epochs[e].tokens - 1));
      case ReceiveClosed(e) => StandingKept(s, e, s.epochs[e].(idler := Exited));
      case Timer(e) => StandingKept(s, e, s.epochs[e].(idler := WantsLock));
      case Answer(e, payload) => StandingKept(s, e, s.epochs[e].(answers := s.epochs[e].answers + [payload]));
    }
  }

  lemma StandingKept(s: State, e: nat, epoch: Epoch)
    requires Shape(s) && e < |s.epochs|
    requires epoch.closed == s.epochs[e].closed && epoch.socketOpen == s.epochs[e].socketOpen
    requires epoch.tokens <= s.epochs[e].tokens
    requires epoch.idler == s.epochs[e].idler || epoch.idler != Exited || epoch.closed
    ensures Shape(s.SetEpoch(e, epoch))
  {
    assert EpochOk(s.epochs[e], s.conn == Some(e));
    EpochShape(s, e, epoch);
  }

  /** `closeLocked` while no call is in the critical section. */
  lemma IdleShape(s: State)
    requires Shape(s) && s.holder.None?
    ensures Shape(CloseLocked(s))
  {
    hide CloseLocked;
    CloseEffect(s);
    var s' := CloseLocked(s);
    forall i | 0 <= i < |s.calls| ensures CallOk(s', i) { assert CallOk(s, i); }
  }

  lemma IdleCloseShape(s: State, e: nat)
    requires Shape(s) && Enabled(s, IdleClose(e))
    ensures Shape(Apply(s, IdleClose(e)))
  {
    hide CloseLocked;
    CloseEffect(s);
    var s' := if s.keepAlive == Some(e) then CloseLocked(s) else s;
    assert Shape(s') by { IdleShape(s); }
    assert EpochOk(s'.epochs[e], s'.conn == Some(e));
    EpochShape(s', e, s'.epochs[e].(idler := Exited));
  }

  lemma CallStepShape(s: State, step: Step)
    requires Shape(s) && Enabled(s, step) && CallStep(step)
    ensures Shape(Apply(s, step))
  {
    hide CloseLocked, ScanToken, Shape;
    match step {
      case Invoke(cmd) => InvokeShape(s, cmd);
      case Refuse(i) => PcShape(s, i, Failed);
      case Queue(i) => PcShape(s, i, Waiting);
      case Lock(i) => LockShape(s, i);
      case Enter(i) => PcShape(s, i, if s.conn.None? then Dialing else AtSend(Main));
      case Dial(i, ok) => DialShape(s, i, ok);
      case Send(i) => SendShape(s, i);
      case WriteOk(i) => WriteShape(s, step);
      case WriteFail(i, n) => WriteShape(s, step);
      case Read(i, n) => ReadShape(s, step);
      case ReadFail(i) => ReadShape(s, step);
      case Scan(i) => ScanShape(s, i);
    }
  }

  lemma InvokeShape(s: State, cmd: Command)
    requires Shape(s)
    ensures Shape(Apply(s, Invoke(cmd)))
  {
    var s' := Apply(s, Invoke(cmd));
    forall i | 0 <= i < |s'.calls| ensures CallOk(s', i) { if i < |s.calls| { assert CallOk(s, i); } }
  }

  /** A call moves on without entering or leaving the critical section. */
  lemma PcShape(s: State, i: nat, pc: Pc)
    requires Shape(s) && i < |s.calls| && (pc.Holding() <==> s.calls[i].pc.Holding())
    requires (pc.Connected() ==> s.conn.Some?) && (pc.Dialing? ==> s.conn.None?)
    ensures Shape(s.SetPc(i, pc))
  {
    var s' := s.SetPc(i, pc);
    forall j | 0 <= j < |s.calls| ensures CallOk(s', j) { assert CallOk(s, j); }
  }

  lemma LeaveShape(s: State, i: nat, pc: Pc)
    requires Shape(s) && i < |s.calls| && s.calls[i].pc.Holding() && !pc.Holding()
    ensures Shape(Unlock(s, i, pc))
  {
    HolderAlone(s, i);
    var s' := Unlock(s, i, pc);
    forall j | 0 <= j < |s.calls| ensures CallOk(s', j) { assert CallOk(s, j); }
  }

  lemma LockShape(s: State, i: nat)
    requires Shape(s) && Enabled(s, Lock(i))
    ensures Shape(Apply(s, Lock(i)))
  {
    var s' := Apply(s, Lock(i));
    forall j | 0 <= j < |s.calls| ensures CallOk(s', j) { assert CallOk(s, j); }
  }

  lemma DialShape(s: State, i: nat, ok: bool)
    requires Shape(s) && Enabled(s, Dial(i, ok))
    ensures Shape(Apply(s, Dial(i, ok)))
  {
    if ok {
      HolderAlone(s, i);
      assert CallOk(s, i);
      var s' := Apply(s, Dial(i, ok));
      forall j | 0 <= j < |s.calls| ensures CallOk(s', j) { assert CallOk(s, j); }
    } else {
      LeaveShape(s, i, Failed);
    }
  }

  lemma SendShape(s: State, i: nat)
    requires Shape(s) && Enabled(s, Send(i))
    ensures Shape(Apply(s, Send(i)))
  {
    var e := s.keepAlive.value;
    assert EpochOk(s.epochs[e], true);
    assert CallOk(s, i);
    var epoch := s.epochs[e].(tokens := s.epochs[e].tokens + 1);
    EpochShape(s, e, epoch);
    PcShape(s.SetEpoch(e, epoch), i, Writing(s.calls[i].pc.part));
  }

  lemma WriteShape(s: State, step: Step)
    requires Shape(s) && Enabled(s, step) && (step.WriteOk? || step.WriteFail?)
    ensures Shape(Apply(s, step))
  {
    hide CloseLocked, Shape;
    var i := step.i;
    var bytes := s.Sends(i, s.calls[i].pc.part).Text();
    HolderAlone(s, i) by { ShapeParts(s); }
    if step.WriteOk? {
      AddTextShape(s, i, bytes, false);
      ConnectedShape(s, i);
      PcShape(AddText(s, i, bytes, false), i, Scanning(s.calls[i].pc.part));
    } else {
      var s1 := if step.n == 0 then s else AddText(s, i, bytes[..step.n], true);
      assert Shape(s1) by { AddTextShape(s, i, bytes[..step.n], true); }
      ShapeParts(s1);
      FailShape(s1, i);
    }
  }

  lemma ShapeParts(s: State)
    requires Shape(s)
    ensures Fields(s) && Epochs(s) && Calls(s)
  {
  }

  lemma ConnectedShape(s: State, i: nat)
    requires Shape(s) && i < |s.calls| && s.calls[i].pc.Connected()
    ensures s.conn.Some? && s.conn.value < |s.epochs| && s.scanner.Some? && s.scanner.value.epoch == s.conn.value
  {
    assert CallOk(s, i);
  }

  lemma AddTextShape(s: State, i: nat, bytes: Bytes, cut: bool)
    requires Shape(s) && i < |s.calls| && s.calls[i].pc.Writing? && s.conn.Some? && s.conn.value < |s.epochs|
    ensures Shape(AddText(s, i, bytes, cut))
  {
    var e := s.conn.value;
    StandingKept(s, e, s.epochs[e].(texts := s.epochs[e].texts + [Text(i, s.calls[i].pc.part, bytes, cut)]));
  }

  lemma ScannerShape(s: State, sc: Scanner)
    requires Shape(s) && s.scanner.Some? && sc.epoch == s.scanner.value.epoch
    ensures Shape(s.(scanner := Some(sc)))
  {
    var s' := s.(scanner := Some(sc));
    forall j | 0 <= j < |s.calls| ensures CallOk(s', j) { assert CallOk(s, j); }
  }

  lemma ReadShape(s: State, step: Step)
    requires Shape(s) && Enabled(s, step) && (step.Read? || step.ReadFail?)
    ensures Shape(Apply(s, step))
  {
    hide Shape, Stream, LineEnd;
    var sc := s.scanner.value;
    if step.Read? {
      var epoch := s.epochs[sc.epoch];
      var epoch' := epoch.(read := epoch.read + step.n);
      StandingKept(s, sc.epoch, epoch');
      ScannerShape(s.SetEpoch(sc.epoch, epoch'), sc.(buf := sc.buf + Stream(epoch)[epoch.read..epoch.read + step.n]));
    } else {
      ScannerShape(s, sc.(fault := true));
    }
  }

  lemma ScanShape(s: State, i: nat)
    requires Shape(s) && Enabled(s, Scan(i))
    ensures Shape(Apply(s, Scan(i)))
  {
    hide Shape, CloseLocked, PromptSplit, LineEnd;
    var sc := s.scanner.value;
    var r := PromptSplit(sc.buf, sc.fault);
    if r.token.None? || r.token.value == "" {
      ShapeParts(s);
      HolderAlone(s, i);
      FailShape(s, i);
    } else {
      var sc' := sc.(buf := sc.buf[r.advance..], taken := sc.taken + 1);
      ScannerShape(s, sc');
      ConnectedShape(s, i);
      if s.calls[i].pc.part.Greeting? {
        PcShape(s.(scanner := Some(sc')), i, AtSend(Main));
      } else {
        LeaveShape(s.(scanner := Some(sc')), i, Apply(s, Scan(i)).calls[i].pc);
      }
    }
  }

  lemma StartShape()
    ensures Shape(START)
  {
  }

  lemma {:induction false} RunShape(s: State, run: seq<Step>)
    requires Shape(s) && AfterFrom(s, run).Some?
    ensures Shape(AfterFrom(s, run).value)
    decreases |run|
  {
    hide Shape, Apply, Enabled;
    if run != [] {
      StepShape(s, run[0]);
      RunShape(Apply(s, run[0]), run[1..]);
    }
  }

  // ----- epoch safety

  /**
   Epoch safety. After any run socket, channel and scanner are all set, and of
   the same epoch, or all nil; no channel was closed twice or used after closing;
   the socket of every earlier epoch is closed.
   */
  lemma EpochSafety(run: seq<Step>)
    requires After(run).Some?
    ensures var s := After(run).value;
            && !s.panicked
            && (s.conn.Some? <==> s.keepAlive.Some?) && (s.conn.Some? <==> s.scanner.Some?)
            && (s.conn.Some? ==> s.keepAlive == s.conn && s.scanner.value.epoch == s.conn.value)
            && (forall e | 0 <= e < |s.epochs| :: s.epochs[e].socketOpen <==> s.conn == Some(e))
            && (forall e | 0 <= e < |s.epochs| :: s.epochs[e].closed <==> !s.epochs[e].socketOpen)
  {
    StartShape();
    RunShape(START, run);
    var s := After(run).value;
    forall e | 0 <= e < |s.epochs|
      ensures (s.epochs[e].socketOpen <==> s.conn == Some(e)) && (s.epochs[e].closed <==> !s.epochs[e].socketOpen)
    {
      assert EpochOk(s.epochs[e], s.conn == Some(e));
    }
  }

  /** A timer that fired in one epoch closes that epoch or nothing, whatever was dialled since. */
  lemma StaleTimer(run: seq<Step>, e: nat)
    requires After(run).Some? && Enabled(After(run).value, IdleClose(e))
    ensures var s, s' := After(run).value, Apply(After(run).value, IdleClose(e));
            && (s.conn != Some(e) ==> s'.conn == s.conn && s'.keepAlive == s.keepAlive && s'.scanner == s.scanner)
            && (s.conn == Some(e) ==> s'.conn.None? && s'.keepAlive.None? && s'.scanner.None?)
            && |s'.epochs| == |s.epochs| && (forall x | 0 <= x < |s.epochs| && x != e :: s'.epochs[x] == s.epochs[x])
  {
    hide CloseLocked;
    StartShape();
    RunShape(START, run);
    CloseEffect(After(run).value);
  }

  /** The step closes the connection: `Close` does, and every failure of a write or of the wait for its answer. */
  predicate Closes(s: State, step: Step)
    requires Enabled(s, step)
  {
    || step.Close? || step.WriteFail?
    || (step.Scan? && step.i < |Apply(s, step).calls| && Apply(s, step).calls[step.i].pc.Failed?)
  }

  /** After any run, such a step leaves no connection, channel or scanner, and every channel and socket closed. */
  lemma ClosesAll(run: seq<Step>, step: Step)
    requires After(run).Some? && Enabled(After(run).value, step) && Closes(After(run).value, step)
    ensures var s := Apply(After(run).value, step);
            && s.conn.None? && s.keepAlive.None? && s.scanner.None?
            && forall e | 0 <= e < |s.epochs| :: s.epochs[e].closed && !s.epochs[e].socketOpen
  {
    StartShape();
    RunShape(START, run);
    var s := After(run).value;
    StepShape(s, step);
    CloseStep(s, step);
    hide Apply, Enabled;
    var s' := Apply(s, step);
    forall e | 0 <= e < |s'.epochs| ensures s'.epochs[e].closed && !s'.epochs[e].socketOpen {
      assert EpochOk(s'.epochs[e], s'.conn == Some(e));
    }
  }

  lemma CloseStep(s: State, step: Step)
    requires Shape(s) && Enabled(s, step) && Closes(s, step)
    ensures var s' := Apply(s, step); s'.conn.None? && s'.keepAlive.None? && s'.scanner.None?
  {
    hide PromptSplit, ParseResponse, Command.Text, Stream, LineEnd;
    CloseEffect(s);
    if step.WriteFail? && step.n > 0 {
      var bytes := s.Sends(step.i, s.calls[step.i].pc.part).Text()[..step.n];
      AddTextShape(s, step.i, bytes, true);
      CloseEffect(AddText(s, step.i, bytes, true));
    }
    hide CloseLocked;
  }

  /** A dial that succeeds opens a new epoch with all three fields; no other step opens one or moves to another. */
  lemma OpensOnlyByDial(s: State, step: Step)
    requires Shape(s) && Enabled(s, step)
    ensures var s' := Apply(s, step);
            if step.Dial? && step.ok then
              && s.conn.None? && s'.conn == s'.keepAlive == Some(|s.epochs|) && s'.epochs == s.epochs + [FRESH]
              && s'.scanner == Some(Scanner(|s.epochs|, "", false, 0))
            else |s'.epochs| == |s.epochs| && (s'.conn == s.conn || s'.conn.None?)
  {
    hide PromptSplit, ParseResponse, Command.Text, Stream, LineEnd;
    CloseEffect(s);
    if step.WriteFail? { CloseStep(s, step); }
    if step.Dial? { assert CallOk(s, step.i); }
    hide CloseLocked;
  }

  // ----- stuck states

  /** The holder waits for a free slot and the goroutine that would free it waits for the holder's mutex. */
  predicate Stuck(s: State, i: nat) {
    && i < |s.calls| && s.calls[i].pc.AtSend? && s.holder == Some(i)
    && s.keepAlive.Some? && s.keepAlive.value < |s.epochs|
    && var epoch := s.epochs[s.keepAlive.value];
    epoch.tokens > 0 && !epoch.closed && epoch.idler.WantsLock?
  }

  lemma StuckStep(s: State, i: nat, step: Step)
    requires Shape(s) && Stuck(s, i) && Enabled(s, step)
    ensures Stuck(Apply(s, step), i) && Apply(s, step).calls[i] == s.calls[i]
  {
    hide CloseLocked, ScanToken, Stream, LineEnd;
    if CallStep(step) && !step.Invoke? && !step.Lock? {
      if s.calls[step.i].pc.Holding() { HolderAlone(s, step.i); }
    }
  }

  lemma {:induction false} StuckForever(s: State, i: nat, run: seq<Step>)
    requires Shape(s) && Stuck(s, i) && AfterFrom(s, run).Some?
    ensures Stuck(AfterFrom(s, run).value, i) && AfterFrom(s, run).value.calls[i] == s.calls[i]
    decreases |run|
  {
    hide Apply, Enabled, Stuck, Shape;
    if run != [] {
      StuckStep(s, i, run[0]);
      StepShape(s, run[0]);
      StuckForever(Apply(s, run[0]), i, run[1..]);
    }
  }

  /** Some continuation takes the call past the send. */
  ghost predicate CanPass(s: State, i: nat) {
    exists run :: AfterFrom(s, run).Some? && i < |AfterFrom(s, run).value.calls|
           && AfterFrom(s, run).value.calls[i].pc.Writing?
  }

  /**
   Exact stuck states. After any run, a holder at the keep-alive send waits
   forever exactly when a token is already in the channel and the current
   epoch's goroutine has taken its timer arm; otherwise the send, or the receive
   that makes room for it, is enabled.
   */
  lemma ExactStuckStates(run: seq<Step>, i: nat)
    requires After(run).Some? && i < |After(run).value.calls| && After(run).value.calls[i].pc.AtSend?
    ensures Stuck(After(run).value, i) <==> !CanPass(After(run).value, i)
    ensures var s := After(run).value;
            && s.keepAlive.Some?
            && (Stuck(s, i) <==> !Enabled(s, Send(i)) && !Enabled(s, Receive(s.keepAlive.value)))
  {
    StartShape();
    RunShape(START, run);
    var s := After(run).value;
    assert CallOk(s, i);
    var e := s.keepAlive.value;
    assert EpochOk(s.epochs[e], true);
    if Stuck(s, i) {
      forall more | AfterFrom(s, more).Some?
        ensures i < |AfterFrom(s, more).value.calls| && AfterFrom(s, more).value.calls[i].pc.AtSend?
      {
        StuckForever(s, i, more);
      }
    } else if Enabled(s, Send(i)) {
      Passes(s, i, []);
    } else {
      StepShape(s, Receive(e));
      Passes(s, i, [Receive(e)]);
    }
  }

  lemma Passes(s: State, i: nat, before: seq<Step>)
    requires |before| <= 1 && (before != [] ==> Enabled(s, before[0]) && before[0].Receive?)
    requires var s1 := if before == [] then s else Apply(s, before[0]);
             Shape(s1) && Enabled(s1, Send(i))
    ensures CanPass(s, i)
  {
    var s1 := if before == [] then s else Apply(s, before[0]);
    var run := before + [Send(i)];
    assert EpochOk(s1.epochs[s1.keepAlive.value], true);
    if before == [] {
      assert run[1..] == [];
    } else {
      assert run[0] == before[0] && run[1..] == [Send(i)] && run[1..][1..] == [];
      assert AfterFrom(s1, [Send(i)]) == AfterFrom(Apply(s1, Send(i)), [Send(i)][1..]);
    }
    assert AfterFrom(s, run) == Some(Apply(s1, Send(i)));
  }

  /** One more step at the end of a run. */
  lemma {:induction false} Snoc(s: State, run: seq<Step>, step: Step)
    requires AfterFrom(s, run).Some? && Enabled(AfterFrom(s, run).value, step)
    ensures AfterFrom(s, run + [step]) == Some(Apply(AfterFrom(s, run).value, step))
    decreases |run|
  {
    hide Apply, Enabled;
    var longer := run + [step];
    if run == [] {
      assert longer == [step] && [step][1..] == [];
    } else {
      assert longer[0] == run[0] && longer[1..] == run[1..] + [step];
      Snoc(Apply(s, run[0]), run[1..], step);
    }
  }

  lemma Extend(run: seq<Step>, s: State, step: Step) returns (run': seq<Step>, s': State)
    requires After(run) == Some(s) && Enabled(s, step)
    ensures run' == run + [step] && After(run') == Some(s') && s' == Apply(s, step)
  {
    hide Apply, Enabled;
    Snoc(START, run, step);
    run', s' := run + [step], Apply(s, step);
  }
}
