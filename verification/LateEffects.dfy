/**
 What a call can still do to the machine once it is over: exactly when the text of
 its command can be served afterwards, and what that does to the store.
 */
module LateEffects {
  import opened Wrappers
  import opened Bytes
  import opened Commands
  import opened Wire
  import opened Dummy
  import opened Truncation
  import opened Registers
  import Conn
  import ConnPairing
  import ConnShape

  /** The command of the call has gone out, or some of it has. */
  ghost predicate Wrote(net: Conn.State, i: nat) { exists e, k :: ConnPairing.IsText(net, e, k, i, Conn.Main) }

  /** The machine has yet to take this text of the call. */
  ghost predicate Waits(net: Conn.State, i: nat, e: nat, k: nat) {
    ConnPairing.IsText(net, e, k, i, Conn.Main) && |net.epochs[e].answers| <= k
  }

  ghost predicate WaitsSome(net: Conn.State, i: nat) { exists e: nat, k: nat :: Waits(net, i, e, k) }

  /** The event at p of a later log takes the text of the call. */
  ghost predicate TakenAt(s: State, s': State, i: nat, p: nat) {
    && |s.log| <= p < |s'.log| && s'.log[p].Served?
    && ConnPairing.IsText(s'.net, s'.log[p].epoch, s'.log[p].index, i, Conn.Main)
  }

  ghost predicate TakenLater(s: State, i: nat, more: seq<Step>, p: nat) {
    AfterFrom(s, more).Some? && TakenAt(s, AfterFrom(s, more).value, i, p)
  }

  // ----- serving as far as a text

  /** The next text of an epoch can be served at any time. */
  lemma HeadServed(s: State, e: nat)
    requires Inv(s) && HasLine(s.net, e)
    ensures Enabled(s, Serve(e))
  {
    var k := |s.net.epochs[e].answers|;
    assert ConnPairing.TextOk(s.net, e, k);
    var t := s.net.epochs[e].texts[k];
    var c := s.net.Sends(t.call, t.part);
    hide Inv, Command.Text, LineReply, StoreOf, LineOf;
    assert c.Text()[..|t.bytes|] == t.bytes;
    TextNotEmpty(c);
    EveryTextIsServed(c, |t.bytes|, StoreOf(s.log));
  }

  /** Serving an epoch again and again reaches any text of it. */
  lemma {:induction false} ServeUpTo(s: State, e: nat, k: nat) returns (more: seq<Step>)
    requires Inv(s) && e < |s.net.epochs| && |s.net.epochs[e].answers| <= k < |s.net.epochs[e].texts|
    ensures AfterFrom(s, more).Some?
    ensures var s' := AfterFrom(s, more).value;
            && |s.log| < |s'.log| && ServedAt(s'.log, e, k, |s'.log| - 1)
            && |s'.net.epochs| == |s.net.epochs| && s'.net.epochs[e].texts == s.net.epochs[e].texts
    decreases k - |s.net.epochs[e].answers|
  {
    ServeNext(s, e);
    hide Inv, Enabled, Apply;
    var s1, rest := Apply(s, Serve(e)), [];
    if |s.net.epochs[e].answers| < k { rest := ServeUpTo(s1, e, k); }
    more := [Serve(e)] + rest;
    assert more[1..] == rest;
  }

  lemma ServeNext(s: State, e: nat)
    requires Inv(s) && HasLine(s.net, e)
    ensures Enabled(s, Serve(e)) && Inv(Apply(s, Serve(e)))
    ensures var s1, k := Apply(s, Serve(e)), |s.net.epochs[e].answers|;
            && |s1.log| == |s.log| + 1 && ServedAt(s1.log, e, k, |s.log|)
            && |s1.net.epochs| == |s.net.epochs| && s1.net.epochs[e].texts == s.net.epochs[e].texts
            && |s1.net.epochs[e].answers| == k + 1
  {
    HeadServed(s, e);
    ServeEffect(s, e);
    StepInv(s, Serve(e));
    hide Inv, Enabled, Apply;
  }

  // ----- a call that is over writes no more

  ghost predicate SameTexts(net: Conn.State, net': Conn.State, i: nat) {
    forall e: nat, k: nat ::
      ConnPairing.IsText(net', e, k, i, Conn.Main) <==> ConnPairing.IsText(net, e, k, i, Conn.Main)
  }

  /** A call that is over stays as it is, and so do its texts. */
  ghost predicate Settled(s: State, s': State, i: nat) {
    && i < |s.net.calls| && i < |s'.net.calls| && s'.net.calls[i] == s.net.calls[i]
    && s.log <= s'.log && NetGrows(s.net, s'.net) && SameTexts(s.net, s'.net, i)
  }

  lemma StepSettled(s: State, step: Step, i: nat)
    requires Inv(s) && Enabled(s, step) && i < |s.net.calls| && Conn.Over(s.net.calls[i].pc)
    ensures Settled(s, Apply(s, step), i)
  {
    match step {
      case Net(n) => NetSettled(s, n, i);
      case Serve(e) =>
        ServeEffect(s, e);
        hide Inv, Enabled, Apply, NextLine, LineReply, StoreOf;
      case _ =>
        hide Inv;
    }
  }

  lemma NetSettled(s: State, n: Conn.Step, i: nat)
    requires Inv(s) && Enabled(s, Net(n)) && i < |s.net.calls| && Conn.Over(s.net.calls[i].pc)
    ensures Settled(s, Apply(s, Net(n)), i)
  {
    NetMonotone(s.net, n);
    OverSame(s.net, n, i);
    OverWritesNot(s.net, n, i);
    hide Inv, Conn.Apply, Conn.Enabled, NetGrows, SameTexts;
  }

  lemma OverSame(s: Conn.State, n: Conn.Step, i: nat)
    requires ConnPairing.Inv(s) && Conn.Enabled(s, n) && i < |s.calls| && Conn.Over(s.calls[i].pc)
    ensures i < |Conn.Apply(s, n).calls| && Conn.Apply(s, n).calls[i] == s.calls[i]
  {
    ConnPairing.CallEffect(s, n);
    hide ConnPairing.Inv, Conn.Apply, Conn.Enabled;
  }

  lemma OverWritesNot(s: Conn.State, n: Conn.Step, i: nat)
    requires ConnPairing.Inv(s) && Conn.Enabled(s, n) && i < |s.calls| && Conn.Over(s.calls[i].pc)
    ensures SameTexts(s, Conn.Apply(s, n), i)
  {
    var s' := Conn.Apply(s, n);
    NetMonotone(s, n);
    assert forall e: nat, k: nat | ConnPairing.IsText(s', e, k, i, Conn.Main) ::
           ConnPairing.IsText(s, e, k, i, Conn.Main) by {
      forall e: nat, k: nat | ConnPairing.IsText(s', e, k, i, Conn.Main)
        ensures ConnPairing.IsText(s, e, k, i, Conn.Main) {
        ConnPairing.OldOrNew(s, n, e, k, i, Conn.Main);
      }
    }
    hide ConnPairing.Inv, Conn.Apply, Conn.Enabled;
  }

  lemma SettledFurther(s: State, s1: State, s2: State, i: nat)
    requires Settled(s, s1, i) && Settled(s1, s2, i)
    ensures Settled(s, s2, i)
  {
    hide ConnPairing.IsText;
  }

  lemma {:induction false} RunSettled(s: State, more: seq<Step>, i: nat)
    requires Inv(s) && i < |s.net.calls| && Conn.Over(s.net.calls[i].pc) && AfterFrom(s, more).Some?
    ensures Inv(AfterFrom(s, more).value) && Settled(s, AfterFrom(s, more).value, i)
    decreases |more|
  {
    hide Inv, Enabled, Apply;
    if more != [] {
      StepInv(s, more[0]);
      StepSettled(s, more[0], i);
      RunSettled(Apply(s, more[0]), more[1..], i);
      SettledFurther(s, Apply(s, more[0]), AfterFrom(s, more).value, i);
    }
  }

  /** A text taken later was waiting. */
  lemma TakenWaited(s: State, s': State, i: nat, p: nat)
    requires Inv(s) && Inv(s') && Settled(s, s', i) && TakenAt(s, s', i, p)
    ensures Waits(s.net, i, s'.log[p].epoch, s'.log[p].index)
  {
    hide ConnPairing.Inv, StoreOf, LineReply;
    var e, k := s'.log[p].epoch, s'.log[p].index;
    assert ServedAt(s'.log, e, k, p);
    assert ConnPairing.IsText(s.net, e, k, i, Conn.Main);
    if k < |s.net.epochs[e].answers| { Once(s, s', e, k, p); }
  }

  /** What has been answered is not served again. */
  lemma Once(s: State, s': State, e: nat, k: nat, p: nat)
    requires Answered(s) && Answered(s') && s.log <= s'.log && HasAnswer(s, e, k) && ServedAt(s'.log, e, k, p)
    ensures p < |s.log|
  {
    hide AnswerLogged;
    assert Logged(s, e, k);
    var q: nat :| AnswerLogged(s, e, k, q);
    LoggedIsServed(s, e, k, q);
    assert ServedAt(s'.log, e, k, q);
  }

  // ----- the theorems

  /**
   Late effect. Once a call is over, its command can still be taken by the machine
   in some continuation if and only if some of it is on a socket and has not been
   taken yet.
   */
  lemma LateEffect(run: seq<Step>, i: nat)
    requires After(run).Some? && i < |After(run).value.net.calls| && Conn.Over(After(run).value.net.calls[i].pc)
    ensures var s := After(run).value;
            (exists more, p: nat :: TakenLater(s, i, more, p)) <==> WaitsSome(s.net, i)
  {
    StartInv();
    RunInv(START, run);
    var s := After(run).value;
    hide After, AfterFrom, Inv;
    forall more, p: nat | TakenLater(s, i, more, p) ensures WaitsSome(s.net, i) {
      RunSettled(s, more, i);
      TakenWaited(s, AfterFrom(s, more).value, i, p);
    }
    if e: nat, k: nat :| Waits(s.net, i, e, k) {
      var more := ServeUpTo(s, e, k);
      RunSettled(s, more, i);
      assert TakenLater(s, i, more, |AfterFrom(s, more).value.log| - 1);
    }
  }

  /**
   What it does then. A text taken after its call is over is one that was waiting:
   it changes nothing but the variable its command writes, it is read as the command
   if and only if enough of it is on the socket now, and then does exactly what the
   command says.
   */
  lemma LateChange(run: seq<Step>, i: nat, more: seq<Step>, p: nat)
    requires After(run).Some? && i < |After(run).value.net.calls| && Conn.Over(After(run).value.net.calls[i].pc)
    requires TakenLater(After(run).value, i, more, p)
    ensures var s, s' := After(run).value, AfterFrom(After(run).value, more).value;
            && Waits(s.net, i, s'.log[p].epoch, s'.log[p].index)
            && DoesNoMore(s.net.calls[i].cmd, |s.net.epochs[s'.log[p].epoch].texts[s'.log[p].index].bytes|,
                          s'.log[p].line, StoreOf(s'.log[..p]), StoreOf(s'.log[..p + 1]))
  {
    StartInv();
    RunInv(START, run);
    hide After, AfterFrom, Inv, DoesNoMore, StoreOf;
    ChangeAt(After(run).value, i, more, p);
  }

  lemma ChangeAt(s: State, i: nat, more: seq<Step>, p: nat)
    requires Inv(s) && i < |s.net.calls| && Conn.Over(s.net.calls[i].pc) && TakenLater(s, i, more, p)
    ensures var s' := AfterFrom(s, more).value;
            && Waits(s.net, i, s'.log[p].epoch, s'.log[p].index)
            && DoesNoMore(s.net.calls[i].cmd, |s.net.epochs[s'.log[p].epoch].texts[s'.log[p].index].bytes|,
                          s'.log[p].line, StoreOf(s'.log[..p]), StoreOf(s'.log[..p + 1]))
  {
    hide AfterFrom, Inv, DoesNoMore, StoreOf;
    RunSettled(s, more, i);
    var s' := AfterFrom(s, more).value;
    TakenWaited(s, s', i, p);
    EffectAt(s', p);
  }

  /** A call that is over and of whose command nothing went out never takes effect, neither before nor later. */
  lemma NeverTaken(run: seq<Step>, i: nat, more: seq<Step>, p: nat)
    requires After(run).Some? && i < |After(run).value.net.calls| && Conn.Over(After(run).value.net.calls[i].pc)
    requires !Wrote(After(run).value.net, i) && AfterFrom(After(run).value, more).Some?
    ensures var s' := AfterFrom(After(run).value, more).value;
            p < |s'.log| && s'.log[p].Served? ==>
              !ConnPairing.IsText(s'.net, s'.log[p].epoch, s'.log[p].index, i, Conn.Main)
  {
    StartInv();
    RunInv(START, run);
    hide After, AfterFrom, Inv;
    RunSettled(After(run).value, more, i);
  }

  /** The text is enough of the command to be read as it. */
  ghost predicate WaitsEnough(net: Conn.State, i: nat, e: nat, k: nat) {
    && Waits(net, i, e, k) && i < |net.calls|
    && |net.epochs[e].texts[k].bytes| + Slack(net.calls[i].cmd) >= |net.calls[i].cmd.Line()|
  }

  /** The event at p of a later log is the call's own command, and does to the store what it says. */
  ghost predicate CarriedOut(s: State, i: nat, more: seq<Step>, p: nat) {
    && TakenLater(s, i, more, p) && i < |s.net.calls|
    && var log := AfterFrom(s, more).value.log;
       && ParseCommand(TrimSpace(log[p].line)) == Ok(s.net.calls[i].cmd)
       && StoreOf(log[..p + 1]) == StoreAfter(StoreOf(log[..p]), s.net.calls[i].cmd)
  }

  /**
   Late effect, of the whole command. A call of a well-formed command that is over
   can still be carried out in some continuation if and only if enough of its
   command waits on a socket.
   */
  lemma LateCommand(run: seq<Step>, i: nat)
    requires After(run).Some? && i < |After(run).value.net.calls| && Conn.Over(After(run).value.net.calls[i].pc)
    requires WellFormed(After(run).value.net.calls[i].cmd)
    ensures var s := After(run).value;
            (exists more, p: nat :: CarriedOut(s, i, more, p)) <==> exists e: nat, k: nat :: WaitsEnough(s.net, i, e, k)
  {
    StartInv();
    RunInv(START, run);
    var s := After(run).value;
    hide After, AfterFrom, Inv, CarriedOut, WaitsEnough, WellFormed;
    forall more, p: nat | CarriedOut(s, i, more, p) ensures exists e: nat, k: nat :: WaitsEnough(s.net, i, e, k) {
      CarriedWaited(s, i, more, p);
    }
    if e: nat, k: nat :| WaitsEnough(s.net, i, e, k) { var more, p := CarryOut(s, i, e, k); }
  }

  lemma CarriedWaited(s: State, i: nat, more: seq<Step>, p: nat)
    requires Inv(s) && i < |s.net.calls| && Conn.Over(s.net.calls[i].pc) && WellFormed(s.net.calls[i].cmd)
             && CarriedOut(s, i, more, p)
    ensures exists e: nat, k: nat :: WaitsEnough(s.net, i, e, k)
  {
    hide AfterFrom, Inv, StoreOf, ParseCommand, TrimSpace, WellFormed, Slack, Command.Line, StoreAfter;
    ChangeAt(s, i, more, p);
    var event := AfterFrom(s, more).value.log[p];
    assert WaitsEnough(s.net, i, event.epoch, event.index);
  }

  lemma CarryOut(s: State, i: nat, e: nat, k: nat) returns (more: seq<Step>, p: nat)
    requires Inv(s) && i < |s.net.calls| && Conn.Over(s.net.calls[i].pc) && WellFormed(s.net.calls[i].cmd)
    requires WaitsEnough(s.net, i, e, k)
    ensures CarriedOut(s, i, more, p)
  {
    hide AfterFrom, Inv, StoreOf, ParseCommand, TrimSpace, WellFormed, Slack, Command.Line, StoreAfter;
    more := ServeUpTo(s, e, k);
    RunSettled(s, more, i);
    p := |AfterFrom(s, more).value.log| - 1;
    assert TakenLater(s, i, more, p);
    ChangeAt(s, i, more, p);
  }

  // ----- which calls have written

  /** A call that has written its command whole, and waits for the answer or has it. */
  predicate Sent(pc: Conn.Pc) { pc == Conn.Scanning(Conn.Main) || pc.Returned? }

  ghost predicate SentWrote(net: Conn.State) {
    forall i | 0 <= i < |net.calls| && Sent(net.calls[i].pc) :: Wrote(net, i)
  }

  lemma WroteStays(s: Conn.State, s': Conn.State, i: nat)
    requires Wrote(s, i) && NetGrows(s, s')
    ensures Wrote(s', i)
  {
    var e, k :| ConnPairing.IsText(s, e, k, i, Conn.Main);
    assert ConnPairing.IsText(s', e, k, i, Conn.Main);
  }

  lemma StepSentWrote(s: Conn.State, n: Conn.Step)
    requires ConnPairing.Inv(s) && SentWrote(s) && Conn.Enabled(s, n)
    ensures SentWrote(Conn.Apply(s, n))
  {
    var s' := Conn.Apply(s, n);
    NetMonotone(s, n);
    forall i | 0 <= i < |s'.calls| && Sent(s'.calls[i].pc) ensures Wrote(s', i) {
      SentBefore(s, n, i);
      if i < |s.calls| && Sent(s.calls[i].pc) { WroteStays(s, s', i); } else { WriteWrote(s, n); }
    }
  }

  lemma SentBefore(s: Conn.State, n: Conn.Step, i: nat)
    requires ConnPairing.Inv(s) && Conn.Enabled(s, n) && i < |Conn.Apply(s, n).calls|
             && Sent(Conn.Apply(s, n).calls[i].pc)
    ensures (i < |s.calls| && Sent(s.calls[i].pc)) || (n.WriteOk? && n.i == i && Writes(s, n))
  {
    ConnPairing.CallEffect(s, n);
    hide ConnPairing.Inv, Conn.Apply, Conn.Enabled, ConnPairing.Moves, Sent;
    assert !Sent(Conn.Invoked) by { NotSent(); }
    if i < |s.calls| && !Sent(s.calls[i].pc) && ConnShape.CallStep(n) && !n.Invoke? && n.i == i {
      SentMoves(s.calls[i].pc, Conn.Apply(s, n).calls[i].pc, n);
    }
  }

  lemma NotSent()
    ensures !Sent(Conn.Invoked)
  {
  }

  /** Only the write of the command itself makes a call one that has sent it. */
  lemma SentMoves(a: Conn.Pc, b: Conn.Pc, n: Conn.Step)
    requires ConnPairing.Moves(a, b, n) && Sent(b) && !Sent(a)
    ensures n.WriteOk? && a == Conn.Writing(Conn.Main)
  {
  }

  /** The step writes some of the command of its call. */
  predicate Writes(s: Conn.State, n: Conn.Step) {
    && (n.WriteOk? || (n.WriteFail? && n.n > 0))
    && n.i < |s.calls| && s.calls[n.i].pc == Conn.Writing(Conn.Main)
  }

  lemma WriteWrote(s: Conn.State, n: Conn.Step)
    requires ConnPairing.Inv(s) && Conn.Enabled(s, n) && (n.WriteOk? || n.WriteFail?)
    ensures Writes(s, n) ==> Wrote(Conn.Apply(s, n), n.i)
  {
    ConnPairing.WriteEffect(s, n);
    if Writes(s, n) {
      var e := s.conn.value;
      assert ConnPairing.IsText(Conn.Apply(s, n), e, |s.epochs[e].texts|, n.i, Conn.Main);
    }
  }

  /** The step of the connection that a step is, if any. */
  function NetOf(s: State, step: Step): Option<Conn.Step>
    requires Enabled(s, step)
  {
    match step
    case Net(n) => Some(n)
    case Serve(e) => Some(Conn.Answer(e, LineReply(StoreOf(s.log), NextLine(s, e)).value))
    case _ => None
  }

  lemma StepNet(s: State, step: Step)
    requires Enabled(s, step)
    ensures match NetOf(s, step)
            case None => Apply(s, step).net == s.net
            case Some(n) => Conn.Enabled(s.net, n) && Apply(s, step).net == Conn.Apply(s.net, n)
  {
    hide LineReply, StoreOf, Framable, Conn.Apply;
    if step.Serve? { RepliesFramable(StoreOf(s.log), NextLine(s, step.epoch)); }
  }

  lemma {:induction false} RunSentWrote(s: State, run: seq<Step>)
    requires Inv(s) && SentWrote(s.net) && AfterFrom(s, run).Some?
    ensures Inv(AfterFrom(s, run).value) && SentWrote(AfterFrom(s, run).value.net)
    decreases |run|
  {
    if run != [] {
      assert ConnPairing.Inv(s.net);
      hide Inv, ConnPairing.Inv, SentWrote, Apply, Enabled, Conn.Apply, Conn.Enabled;
      StepInv(s, run[0]);
      StepNet(s, run[0]);
      if NetOf(s, run[0]).Some? { StepSentWrote(s.net, NetOf(s, run[0]).value); }
      RunSentWrote(Apply(s, run[0]), run[1..]);
    }
  }

  /**
   Which failures leave something behind. The step in which a call fails leaves some
   of its command on a socket if and only if it is a scan for the command's own
   answer, or the write of the command after at least one byte. A call refused, or
   failing at the dial, at the handshake or before the first byte, has sent nothing.
   */
  lemma FailureLeaves(run: seq<Step>, n: Conn.Step, i: nat)
    requires After(run).Some? && Enabled(After(run).value, Net(n)) && i < |After(run).value.net.calls|
    requires !Conn.Over(After(run).value.net.calls[i].pc)
    requires var net := Apply(After(run).value, Net(n)).net; i < |net.calls| && net.calls[i].pc.Failed?
    ensures var s := After(run).value;
            Wrote(Apply(s, Net(n)).net, i)
            <==> (n.Scan? && s.net.calls[i].pc == Conn.Scanning(Conn.Main)) || (n.WriteFail? && Writes(s.net, n))
  {
    StartInv();
    RunSentWrote(START, run);
    hide After, AfterFrom;
    FailingStep(After(run).value.net, n, i);
  }

  lemma FailingStep(s: Conn.State, n: Conn.Step, i: nat)
    requires ConnPairing.Inv(s) && SentWrote(s) && Conn.Enabled(s, n) && i < |s.calls| && !Conn.Over(s.calls[i].pc)
    requires i < |Conn.Apply(s, n).calls| && Conn.Apply(s, n).calls[i].pc.Failed?
    ensures Wrote(Conn.Apply(s, n), i)
            <==> (n.Scan? && s.calls[i].pc == Conn.Scanning(Conn.Main)) || (n.WriteFail? && Writes(s, n))
  {
    var s' := Conn.Apply(s, n);
    FailMoves(s, n, i);
    NetMonotone(s, n);
    if n.WriteFail? { WriteWrote(s, n); }
    hide Conn.Apply, Conn.Enabled;
    if s.calls[i].pc == Conn.Scanning(Conn.Main) { WroteStays(s, s', i); }
    if e, k :| ConnPairing.IsText(s', e, k, i, Conn.Main) {
      ConnPairing.OldOrNew(s, n, e, k, i, Conn.Main);
      if ConnPairing.IsText(s, e, k, i, Conn.Main) { assert ConnPairing.TextOk(s, e, k); }
    }
  }

  lemma FailMoves(s: Conn.State, n: Conn.Step, i: nat)
    requires ConnPairing.Inv(s) && Conn.Enabled(s, n) && i < |s.calls| && !Conn.Over(s.calls[i].pc)
    requires i < |Conn.Apply(s, n).calls| && Conn.Apply(s, n).calls[i].pc.Failed?
    ensures n.Refuse? || n.Dial? || n.WriteFail? || n.Scan?
    ensures n.i == i && ConnPairing.Moves(s.calls[i].pc, Conn.Failed, n)
  {
    ConnPairing.CallEffect(s, n);
    hide ConnPairing.Inv, Conn.Apply, Conn.Enabled;
  }
}
