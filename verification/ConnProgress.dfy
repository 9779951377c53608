/** Which calls can still come to an end: exactly when those that wait for the mutex wait for ever. */
module ConnProgress {
  import opened Wrappers
  import opened Commands
  import opened Responses
  import opened Wire
  import opened Conn
  import opened ConnShape
  import P = ConnPairing

  /** The channel is full, and the goroutine that would empty it waits for the mutex. */
  predicate Blocked(s: State) {
    && s.keepAlive.Some? && s.keepAlive.value < |s.epochs|
    && var epoch := s.epochs[s.keepAlive.value];
       epoch.tokens > 0 && !epoch.closed && epoch.idler.WantsLock?
  }

  /** From here the next thing the holder can do, but for reading on, is to come to the send. */
  predicate ComesToSend(s: State, pc: Pc) {
    || pc.Entered? || pc.AtSend?
    || (pc == Scanning(Greeting) && s.scanner.Some? && s.scanner.value.buf != "")
  }

  /** The holder will be stuck at the keep-alive send, or is. */
  predicate Doomed(s: State) {
    && s.holder.Some? && s.holder.value < |s.calls|
    && Blocked(s) && ComesToSend(s, s.calls[s.holder.value].pc)
  }

  // ----- nothing helps once the holder is doomed

  /** A call that holds the mutex or waits for it. */
  predicate Queues(s: State, i: nat) { i < |s.calls| && (s.calls[i].pc.Waiting? || s.holder == Some(i)) }

  /** A scanner that holds anything in flight yields a token. */
  lemma TokenFound(s: State, i: nat)
    requires P.Inv(s) && Enabled(s, Scan(i)) && s.scanner.value.buf != ""
    ensures var t := PromptSplit(s.scanner.value.buf, s.scanner.value.fault).token; t.Some? && t.value != ""
  {
    P.ScanOutcome(s, i);
  }

  /** What a scan that finds a token does to the call. */
  lemma ScanFinds(s: State, i: nat)
    requires Enabled(s, Scan(i))
    requires var t := PromptSplit(s.scanner.value.buf, s.scanner.value.fault).token; t.Some? && t.value != ""
    ensures var s' := Apply(s, Scan(i));
            && s'.keepAlive == s.keepAlive && s'.epochs == s.epochs && |s'.calls| == |s.calls|
            && (s.calls[i].pc.part.Greeting? ==> s'.holder == s.holder && s'.calls[i].pc == AtSend(Main))
            && (s.calls[i].pc.part.Main? ==> s'.holder.None? && s'.calls[i].pc.Returned?)
            && forall j | 0 <= j < |s.calls| && j != i :: s'.calls[j] == s.calls[j]
  {
    hide PromptSplit, ParseResponse;
  }

  lemma DoomedStep(s: State, step: Step)
    requires P.Inv(s) && Doomed(s) && Enabled(s, step)
    ensures Doomed(Apply(s, step)) && Apply(s, step).holder == s.holder
  {
    if CallStep(step) && !step.Invoke? {
      DoomedCallStep(s, step);
    } else {
      hide P.Inv, CloseLocked, Stream;
    }
  }

  lemma DoomedCallStep(s: State, step: Step)
    requires P.Inv(s) && Doomed(s) && Enabled(s, step) && CallStep(step) && !step.Invoke?
    ensures Doomed(Apply(s, step)) && Apply(s, step).holder == s.holder
  {
    if s.calls[step.i].pc.Holding() {
      HolderAlone(s, step.i);
      if step.Scan? {
        TokenFound(s, step.i);
        ScanFinds(s, step.i);
        hide P.Inv, Enabled, Apply, PromptSplit;
      } else {
        ConnKept(s);
        hide P.Inv, CloseLocked, Stream, LineEnd;
      }
    } else {
      hide P.Inv, CloseLocked, Stream, ScanToken;
    }
  }

  lemma ConnKept(s: State)
    requires Shape(s)
    ensures s.keepAlive == s.conn
  {
  }

  /** Who queues goes on queueing. */
  lemma QueuesOn(s: State, step: Step, i: nat)
    requires P.Inv(s) && Doomed(s) && Enabled(s, step) && Queues(s, i)
    ensures Queues(Apply(s, step), i)
  {
    DoomedStep(s, step);
    P.CallEffect(s, step);
    hide P.Inv, Apply;
  }

  lemma {:induction false} DoomedForever(s: State, run: seq<Step>, i: nat)
    requires P.Inv(s) && Doomed(s) && Queues(s, i) && AfterFrom(s, run).Some?
    ensures var s' := AfterFrom(s, run).value; P.Inv(s') && Doomed(s') && Queues(s', i)
    decreases |run|
  {
    hide P.Inv, Doomed, Apply, Enabled;
    if run != [] {
      DoomedStep(s, run[0]);
      QueuesOn(s, run[0], i);
      P.StepInv(s, run[0]);
      DoomedForever(Apply(s, run[0]), run[1..], i);
    }
  }

  // ----- otherwise the holder can come to an end

  /** The holder is over and has let go of the mutex, and nothing has happened to anyone else. */
  ghost predicate Freed(s: State, s': State) {
    && s'.holder.None? && |s'.calls| == |s.calls|
    && (forall j | 0 <= j < |s.calls| && s.holder != Some(j) :: s'.calls[j] == s.calls[j])
    && (s.holder.Some? && s.holder.value < |s.calls| ==> Over(s'.calls[s.holder.value].pc))
  }

  ghost predicate CanFree(s: State) { exists run :: AfterFrom(s, run).Some? && Freed(s, AfterFrom(s, run).value) }

  /** A step of the holder, or of the goroutine that takes its token. */
  predicate Helps(s: State, step: Step) {
    && Enabled(s, step) && s.holder.Some? && s.holder.value < |s.calls|
    && (step.Receive? || (CallStep(step) && !step.Invoke? && s.holder == Some(step.i)))
  }

  /** Such a step moves the holder only. */
  lemma OthersStay(s: State, step: Step)
    requires P.Inv(s) && Helps(s, step)
    ensures var s' := Apply(s, step);
            |s'.calls| == |s.calls| && forall j | 0 <= j < |s.calls| && s.holder != Some(j) :: s'.calls[j] == s.calls[j]
  {
    P.CallEffect(s, step);
    hide P.Inv, Apply, Enabled;
  }

  lemma AfterFirst(s: State, step: Step, rest: seq<Step>)
    requires Enabled(s, step)
    ensures AfterFrom(s, [step] + rest) == AfterFrom(Apply(s, step), rest)
  {
    hide Apply, Enabled;
    assert ([step] + rest)[1..] == rest;
  }

  /** The holder is over, or still holds the mutex and can be freed. */
  ghost predicate Frees(s: State, s': State)
    requires s.holder.Some?
  {
    if s'.holder.None? then s.holder.value < |s'.calls| && Over(s'.calls[s.holder.value].pc)
    else s'.holder == s.holder && CanFree(s')
  }

  lemma FreedFirst(s: State, step: Step)
    requires P.Inv(s) && Helps(s, step) && Frees(s, Apply(s, step))
    ensures CanFree(s)
  {
    OthersStay(s, step);
    hide P.Inv, Apply, Enabled;
    var s' := Apply(s, step);
    if s'.holder.None? {
      AfterFirst(s, step, []);
      assert Freed(s, AfterFrom(s, [step] + []).value);
    } else {
      var rest :| AfterFrom(s', rest).Some? && Freed(s', AfterFrom(s', rest).value);
      AfterFirst(s, step, rest);
      assert Freed(s, AfterFrom(s, [step] + rest).value);
    }
  }

  /** The holder's own position. */
  predicate HolderAt(s: State, h: nat) { s.holder == Some(h) && h < |s.calls| }

  lemma FreeWriting(s: State, h: nat)
    requires P.Inv(s) && HolderAt(s, h) && s.calls[h].pc.Writing?
    ensures CanFree(s)
  {
    ConnectedShape(s, h);
    var step := WriteFail(h, 0);
    assert Enabled(s, step);
    FailsNow(s, h);
    FreedFirst(s, step);
  }

  lemma FailsNow(s: State, h: nat)
    requires HolderAt(s, h) && Enabled(s, WriteFail(h, 0))
    ensures var s' := Apply(s, WriteFail(h, 0)); s'.holder.None? && h < |s'.calls| && s'.calls[h].pc.Failed?
  {
    hide Command.Text;
  }

  lemma FreeAtSend(s: State, h: nat)
    requires P.Inv(s) && HolderAt(s, h) && s.calls[h].pc.AtSend? && !Blocked(s)
    ensures CanFree(s)
  {
    SendPossible(s, h);
    if s.epochs[s.keepAlive.value].tokens == 0 {
      FreeSend(s, h);
    } else {
      var step := Receive(s.keepAlive.value);
      P.StepInv(s, step);
      FreeSend(Apply(s, step), h);
      FreedFirst(s, step);
    }
  }

  lemma SendPossible(s: State, h: nat)
    requires P.Inv(s) && HolderAt(s, h) && s.calls[h].pc.AtSend? && !Blocked(s)
    ensures s.keepAlive.Some? && s.keepAlive.value < |s.epochs| && !s.epochs[s.keepAlive.value].closed
    ensures s.epochs[s.keepAlive.value].tokens > 0 ==>
              var step := Receive(s.keepAlive.value);
              && Enabled(s, step)
              && var s' := Apply(s, step);
                 && HolderAt(s', h) && s'.calls == s.calls && s'.keepAlive == s.keepAlive
                 && |s'.epochs| == |s.epochs| && s'.epochs[s.keepAlive.value].tokens == 0
  {
    assert CallOk(s, h);
    assert EpochOk(s.epochs[s.keepAlive.value], true);
  }

  lemma FreeSend(s: State, h: nat)
    requires P.Inv(s) && HolderAt(s, h) && s.calls[h].pc.AtSend?
    requires s.keepAlive.Some? && s.keepAlive.value < |s.epochs| && s.epochs[s.keepAlive.value].tokens == 0
    ensures CanFree(s)
  {
    var step := Send(h);
    ConnectedShape(s, h);
    assert EpochOk(s.epochs[s.keepAlive.value], true) by { ConnKept(s); }
    P.StepInv(s, step);
    FreeWriting(Apply(s, step), h);
    FreedFirst(s, step);
  }

  lemma FreeDialing(s: State, h: nat)
    requires P.Inv(s) && HolderAt(s, h) && s.calls[h].pc.Dialing?
    ensures CanFree(s)
  {
    FreedFirst(s, Dial(h, false));
  }

  lemma FreeEntered(s: State, h: nat)
    requires P.Inv(s) && HolderAt(s, h) && s.calls[h].pc.Entered? && !Blocked(s)
    ensures CanFree(s)
  {
    var step := Enter(h);
    P.StepInv(s, step);
    if s.conn.None? { FreeDialing(Apply(s, step), h); } else { FreeAtSend(Apply(s, step), h); }
    FreedFirst(s, step);
  }

  /** A scan that finds nothing ends the call; one that finds something ends it unless it was the handshake's. */
  lemma FreeScan(s: State, h: nat)
    requires P.Inv(s) && HolderAt(s, h) && s.calls[h].pc.Scanning? && Enabled(s, Scan(h)) && !Doomed(s)
    ensures CanFree(s)
  {
    var step := Scan(h);
    P.StepInv(s, step);
    if s.scanner.value.buf == "" {
      ScanEmpty(s, h);
    } else {
      TokenFound(s, h);
      ScanFinds(s, h);
      hide P.Inv, Apply, Enabled, PromptSplit;
      if s.calls[h].pc.part.Greeting? { FreeAtSend(Apply(s, step), h); }
    }
    FreedFirst(s, step);
  }

  lemma ScanEmpty(s: State, h: nat)
    requires HolderAt(s, h) && Enabled(s, Scan(h)) && s.scanner.value.buf == ""
    ensures var s' := Apply(s, Scan(h)); s'.holder.None? && h < |s'.calls| && s'.calls[h].pc.Failed?
  {
    assert PromptSplit("", s.scanner.value.fault).token.None?;
    hide PromptSplit, ParseResponse;
  }

  lemma FreeScanning(s: State, h: nat)
    requires P.Inv(s) && HolderAt(s, h) && s.calls[h].pc.Scanning? && !Doomed(s)
    ensures CanFree(s)
  {
    ScannerSet(s, h);
    InputOrScan(s, h);
    hide P.Inv, Apply, Enabled, CanFree, NeedsInput, Doomed;
    if NeedsInput(s.scanner.value) {
      var step := ReadFail(h);
      ReadFails(s, h);
      P.StepInv(s, step);
      FreeScan(Apply(s, step), h);
      FreedFirst(s, step);
    } else {
      FreeScan(s, h);
    }
  }

  lemma InputOrScan(s: State, h: nat)
    requires HolderAt(s, h) && s.calls[h].pc.Scanning? && s.scanner.Some? && s.scanner.value.epoch < |s.epochs|
    ensures if NeedsInput(s.scanner.value) then Enabled(s, ReadFail(h)) else Enabled(s, Scan(h))
  {
    hide LineEnd;
  }

  lemma ScannerSet(s: State, h: nat)
    requires P.Inv(s) && HolderAt(s, h) && s.calls[h].pc.Scanning?
    ensures s.scanner.Some? && s.scanner.value.epoch < |s.epochs|
  {
    assert Shape(s);
    hide P.Inv;
    ConnectedShape(s, h);
  }

  /** A read error changes nothing but that the scanner will have no more input. */
  lemma ReadFails(s: State, h: nat)
    requires HolderAt(s, h) && Enabled(s, ReadFail(h)) && s.scanner.value.epoch < |s.epochs| && !Doomed(s)
    ensures Helps(s, ReadFail(h))
    ensures var s' := Apply(s, ReadFail(h));
            HolderAt(s', h) && s'.calls == s.calls && Enabled(s', Scan(h)) && !Doomed(s')
  {
    hide LineEnd;
  }

  lemma FreeHolder(s: State)
    requires P.Inv(s) && !Doomed(s)
    ensures CanFree(s)
  {
    hide P.Inv, Apply, Enabled, CanFree;
    if s.holder.Some? {
      var h := s.holder.value;
      HolderIn(s);
      match s.calls[h].pc
      case Entered => FreeEntered(s, h);
      case Dialing => FreeDialing(s, h);
      case AtSend(_) => FreeAtSend(s, h);
      case Writing(_) => FreeWriting(s, h);
      case Scanning(_) => FreeScanning(s, h);
    } else {
      FreeAlready(s);
    }
  }

  lemma FreeAlready(s: State)
    requires s.holder.None?
    ensures CanFree(s)
  {
    assert AfterFrom(s, []) == Some(s) && Freed(s, s);
  }

  lemma HolderIn(s: State)
    requires P.Inv(s) && s.holder.Some?
    ensures s.holder.value < |s.calls| && s.calls[s.holder.value].pc.Holding()
  {
    assert CallOk(s, s.holder.value);
  }

  // ----- the theorem

  ghost predicate EndsWith(s: State, run: seq<Step>, i: nat) {
    && AfterFrom(s, run).Some? && i < |AfterFrom(s, run).value.calls|
    && Over(AfterFrom(s, run).value.calls[i].pc)
  }

  /** Some continuation ends the call. */
  ghost predicate CanEnd(s: State, i: nat) { exists run :: EndsWith(s, run, i) }

  lemma EndFirst(s: State, step: Step, i: nat)
    requires Enabled(s, step) && (CanEnd(Apply(s, step), i) || Apply(s, step).At(i, Failed))
    ensures CanEnd(s, i)
  {
    hide Apply, Enabled;
    var s' := Apply(s, step);
    assert s'.At(i, Failed) ==> EndsWith(s', [], i);
    var rest :| EndsWith(s', rest, i);
    AfterFirst(s, step, rest);
    assert EndsWith(s, [step] + rest, i);
  }

  /** Close, take the mutex, find no connection, fail to dial. */
  lemma GiveUp(s: State, i: nat)
    requires P.Inv(s) && s.holder.None? && s.At(i, Waiting)
    ensures CanEnd(s, i)
  {
    CloseEffect(s);
    GiveUpClosed(Apply(s, Close), i);
    EndFirst(s, Close, i);
  }

  lemma GiveUpClosed(s: State, i: nat)
    requires s.conn.None? && s.holder.None? && s.At(i, Waiting)
    ensures CanEnd(s, i)
  {
    var s1 := Apply(s, Lock(i));
    var s2 := Apply(s1, Enter(i));
    assert Apply(s2, Dial(i, false)).At(i, Failed);
    EndFirst(s2, Dial(i, false), i);
    EndFirst(s1, Enter(i), i);
    EndFirst(s, Lock(i), i);
  }

  lemma {:induction false} AfterJoin(s: State, a: seq<Step>, b: seq<Step>)
    requires AfterFrom(s, a).Some?
    ensures AfterFrom(s, a + b) == AfterFrom(AfterFrom(s, a).value, b)
    decreases |a|
  {
    hide Apply, Enabled;
    if a == [] {
      assert a + b == b;
    } else {
      assert (a + b)[1..] == a[1..] + b;
      AfterJoin(Apply(s, a[0]), a[1..], b);
    }
  }

  lemma EndLater(s: State, run: seq<Step>, i: nat)
    requires AfterFrom(s, run).Some? && CanEnd(AfterFrom(s, run).value, i)
    ensures CanEnd(s, i)
  {
    hide AfterFrom;
    var s' := AfterFrom(s, run).value;
    var more :| EndsWith(s', more, i);
    AfterJoin(s, run, more);
    assert EndsWith(s, run + more, i);
  }

  lemma CanFreeEnds(s: State, i: nat)
    requires P.Inv(s) && Queues(s, i) && CanFree(s)
    ensures CanEnd(s, i)
  {
    hide P.Inv, AfterFrom;
    var run :| AfterFrom(s, run).Some? && Freed(s, AfterFrom(s, run).value);
    if s.holder == Some(i) {
      assert EndsWith(s, run, i);
    } else {
      P.RunInv(s, run);
      GiveUp(AfterFrom(s, run).value, i);
      EndLater(s, run, i);
    }
  }

  lemma NeverEnds(s: State, run: seq<Step>, i: nat)
    requires P.Inv(s) && Doomed(s) && Queues(s, i)
    ensures !EndsWith(s, run, i)
  {
    if AfterFrom(s, run).Some? {
      DoomedForever(s, run, i);
      var s' := AfterFrom(s, run).value;
      if s'.holder == Some(i) { HolderIn(s'); }
    }
  }

  /**
   Exact progress. After any run, a call that holds the mutex or waits for it has a
   continuation in which it is over if and only if the holder is not doomed: the
   channel is full and its goroutine has taken the timer arm, and the holder has
   entered, is at the send, or has some of the answer to the handshake in hand.
   */
  lemma ExactProgress(run: seq<Step>, i: nat)
    requires After(run).Some? && Queues(After(run).value, i)
    ensures CanEnd(After(run).value, i) <==> !Doomed(After(run).value)
  {
    P.StartInv();
    P.RunInv(START, run);
    var s := After(run).value;
    hide After, P.Inv, Doomed;
    if Doomed(s) {
      forall more ensures !EndsWith(s, more, i) { NeverEnds(s, more, i); }
    } else {
      FreeHolder(s);
      CanFreeEnds(s, i);
    }
  }
}
