/**
 The connection in terms of the reference: what one epoch of it writes is the
 handshake and then the commands of its calls, and what its calls return is what
 the machine says to those commands, handled one after the other.
 */
module SharedConnection {
  import opened Wrappers
  import opened Bytes
  import opened Commands
  import opened Responses
  import opened Wire
  import opened Dummy
  import opened Conn
  import opened ConnShape
  import Decimal
  import P = ConnPairing
  import T = Transparency

  // ----- the handshake comes first, and once

  /** The holder has yet to write the handshake. */
  predicate Opening(s: State) {
    s.holder.Some? && s.holder.value < |s.calls| && s.calls[s.holder.value].pc in {AtSend(Greeting), Writing(Greeting)}
  }

  ghost predicate FirstGreets(e: Epoch) {
    forall k | 0 <= k < |e.texts| :: e.texts[k].part.Greeting? <==> k == 0
  }

  ghost predicate Greets(s: State) {
    && (forall e | 0 <= e < |s.epochs| :: FirstGreets(s.epochs[e]))
    && (s.conn.Some? && s.conn.value < |s.epochs| ==> (Opening(s) <==> s.epochs[s.conn.value].texts == []))
  }

  /** Every other step leaves the writer where it was in this respect, or closes. */
  lemma OpeningKept(s: State, step: Step)
    requires Shape(s) && Enabled(s, step) && !step.WriteOk? && !step.WriteFail? && !(step.Dial? && step.ok)
    ensures var s' := Apply(s, step);
            s'.conn.None? || (s'.conn == s.conn && Opening(s') == Opening(s))
  {
    hide CloseLocked, PromptSplit, Stream, LineEnd, ParseResponse, Command.Text;
    CloseEffect(s);
    if CallStep(step) && !step.Invoke? && s.calls[step.i].pc.Holding() { HolderAlone(s, step.i); }
  }

  lemma StepGreets(s: State, step: Step)
    requires Shape(s) && Greets(s) && Enabled(s, step)
    ensures Greets(Apply(s, step))
  {
    var s' := Apply(s, step);
    P.EpochsMonotone(s, step);
    if step.WriteOk? || step.WriteFail? {
      WriteGreets(s, step);
    } else if step.Dial? && step.ok {
      DialGreets(s, step.i);
    } else {
      OpeningKept(s, step);
      hide Apply, Enabled, Shape, Opening;
      forall e | 0 <= e < |s'.epochs| ensures FirstGreets(s'.epochs[e]) {
        if e < |s.epochs| { assert FirstGreets(s.epochs[e]); }
      }
      assert s'.conn.Some? ==> s'.conn.value < |s.epochs| by { ConnKnown(s); }
    }
  }

  lemma ConnKnown(s: State)
    requires Shape(s)
    ensures s.conn.Some? ==> s.conn.value < |s.epochs|
  {
  }

  lemma DialGreets(s: State, i: nat)
    requires Shape(s) && Greets(s) && Enabled(s, Dial(i, true))
    ensures Greets(Apply(s, Dial(i, true)))
  {
    HolderAlone(s, i);
  }

  lemma WriteGreets(s: State, step: Step)
    requires Shape(s) && Greets(s) && Enabled(s, step) && (step.WriteOk? || step.WriteFail?)
    ensures Greets(Apply(s, step))
  {
    var s' := Apply(s, step);
    P.EpochsMonotone(s, step);
    P.WriteEffect(s, step);
    WriteKeeps(s, step);
    hide Apply, Enabled, Shape, Command.Text, Opening, P.Written;
    forall e | 0 <= e < |s'.epochs| ensures FirstGreets(s'.epochs[e]) {
      assert FirstGreets(s.epochs[e]);
      if s.conn == Some(e) { assert s'.epochs[e].texts == s.epochs[e].texts + P.Written(s, step); }
    }
  }

  lemma WriteKeeps(s: State, step: Step)
    requires Shape(s) && Enabled(s, step) && (step.WriteOk? || step.WriteFail?)
    ensures var s', written := Apply(s, step), P.Written(s, step);
            && |written| <= 1 && (Opening(s) <==> s.calls[step.i].pc.part.Greeting?)
            && (written != [] ==> written[0].part == s.calls[step.i].pc.part)
            && (step.WriteOk? ==> s'.conn == s.conn && !Opening(s') && written != [])
  {
    hide Command.Text;
    HolderAlone(s, step.i);
  }

  lemma {:induction false} RunGreets(s: State, run: seq<Step>)
    requires P.Inv(s) && Greets(s) && AfterFrom(s, run).Some?
    ensures P.Inv(AfterFrom(s, run).value) && Greets(AfterFrom(s, run).value)
    decreases |run|
  {
    hide P.Inv, Greets, Apply, Enabled;
    if run != [] {
      P.StepInv(s, run[0]);
      StepGreets(s, run[0]) by { assert Shape(s) by { InvShape(s); } }
      RunGreets(Apply(s, run[0]), run[1..]);
    }
  }

  lemma InvShape(s: State)
    requires P.Inv(s)
    ensures Shape(s) && P.Texts(s) && P.Results(s) && P.Answers(s)
  {
  }

  /** The handshake asks for the serial number. */
  lemma HandshakeText()
    ensures HANDSHAKE.Text() == "?Q100\n"
  {
    assert Decimal.Numeral(1) == "1" && Decimal.Numeral(10) == "10" && Decimal.Numeral(100) == "100";
  }

  // ----- what is written

  /** The commands of the calls that wrote to an epoch after the handshake, in order. */
  ghost function CommandsOf(s: State, e: nat): (cmds: seq<Command>)
    requires e < |s.epochs| && P.Texts(s)
    ensures |s.epochs[e].texts| > 0 ==> |cmds| == |s.epochs[e].texts| - 1
  {
    if s.epochs[e].texts == [] then []
    else
      seq(|s.epochs[e].texts| - 1, k requires 0 <= k < |s.epochs[e].texts| - 1 =>
        assert P.TextOk(s, e, k + 1); s.calls[s.epochs[e].texts[k + 1].call].cmd)
  }

  function BytesOf(texts: seq<Text>): seq<Bytes> { seq(|texts|, k requires 0 <= k < |texts| => texts[k].bytes) }

  /** No write to the epoch has failed part way. */
  predicate AllWhole(e: Epoch) { e.texts != [] && forall k | 0 <= k < |e.texts| :: !e.texts[k].cut }

  /** An epoch has written the handshake and then its calls' commands, whole and in order. */
  lemma WritesSent(run: seq<Step>, e: nat)
    requires After(run).Some? && e < |After(run).value.epochs| && AllWhole(After(run).value.epochs[e])
    ensures P.Texts(After(run).value)
    ensures Concat(BytesOf(After(run).value.epochs[e].texts)) == T.Sent(CommandsOf(After(run).value, e))
  {
    hide Concat, Command.Text, Greets, P.Inv;
    StartGreets();
    RunGreets(START, run);
    var s := After(run).value;
    InvShape(s);
    WrittenTexts(s, e);
  }

  lemma StartGreets()
    ensures P.Inv(START) && Greets(START)
  {
    P.StartInv();
  }

  lemma WrittenTexts(s: State, e: nat)
    requires P.Texts(s) && Greets(s) && e < |s.epochs| && AllWhole(s.epochs[e])
    ensures BytesOf(s.epochs[e].texts) == T.Texts([HANDSHAKE] + CommandsOf(s, e))
  {
    hide Command.Text;
    var texts, all := s.epochs[e].texts, [HANDSHAKE] + CommandsOf(s, e);
    assert FirstGreets(s.epochs[e]);
    forall k | 0 <= k < |texts| ensures texts[k].bytes == all[k].Text() {
      assert P.TextOk(s, e, k);
    }
  }

  // ----- what is returned

  lemma {:induction false} DirectBeginning(store: Store, cmds: seq<Command>, n: nat)
    requires n <= |cmds|
    ensures |T.Direct(store, cmds).0| == |cmds| && T.Direct(store, cmds[..n]).0 == T.Direct(store, cmds).0[..n]
    decreases |cmds|
  {
    hide Reply, StoreAfter, ParseResponse;
    if n > 0 {
      assert cmds[..n][1..] == cmds[1..][..n - 1];
      DirectBeginning(StoreAfter(store, cmds[0]), cmds[1..], n - 1);
    } else if cmds != [] {
      DirectBeginning(StoreAfter(store, cmds[0]), cmds[1..], 0);
    }
  }

  /**
   The machine on an epoch has read the handshake and n of the commands, in any
   reads, and nothing else has answered.
   */
  ghost predicate Answering(store: Store, e: Epoch, cmds: seq<Command>, out: seq<Bytes>, n: nat) {
    n <= |cmds| && Concat(out) == T.Sent(cmds[..n]) && Stream(e) == T.Written(store, out)
  }

  /** The answers of such an epoch are understood as the reference says. */
  lemma AnswersDirect(store: Store, e: Epoch, cmds: seq<Command>, out: seq<Bytes>, n: nat, k: nat)
    requires T.AllWellFormed(cmds) && Answering(store, e, cmds, out, n) && T.AllFramable(e.answers)
             && 0 < k < |e.answers|
    ensures k <= n <= |cmds| == |T.Direct(store, cmds).0|
    ensures ParseResponse(cmds[k - 1], e.answers[k]) == T.Direct(store, cmds).0[k - 1]
  {
    hide Drain, Concat, Conversation, Reply, StoreAfter, ParseResponse, Framable, T.Direct, T.Sent, T.Written,
         T.RepliesTo, T.FinalStore, WellFormed;
    var back, some := [Stream(e)], cmds[..n];
    assert Concat(back) == Stream(e) by { ConcatOne(Stream(e)); }
    T.PayloadsArrive(e.answers, back);
    T.MachineAnswers(store, some, out, back);
    T.RepliesAllFramable(store, some);
    T.DirectConnection(store, some, out, back);
    var answers := T.Answers(Drain(Prompts, "", back));
    assert answers == (e.answers + [[PROMPT]])[1..];
    assert T.Understood(some, answers)[k - 1] == ParseResponse(some[k - 1], answers[k - 1]);
    DirectBeginning(store, cmds, n);
  }

  lemma ConcatOne(b: Bytes)
    ensures Concat([b]) == b
  {
    assert Concat([b][1..]) == "";
  }

  /**
   While the backend of an epoch is the machine, a call that returns on that epoch
   with all of its answer gets the response of the reference to its own command,
   in its place among those written, however calls of any number of callers, dials,
   timers and failures are interleaved.
   */
  lemma ReturnsReference(run: seq<Step>, e: nat, store: Store, out: seq<Bytes>, n: nat, i: nat)
    requires After(run).Some? && P.Texts(After(run).value)
    requires var s := After(run).value;
             && e < |s.epochs| && AllWhole(s.epochs[e]) && i < |s.calls|
             && T.AllWellFormed(CommandsOf(s, e)) && Answering(store, s.epochs[e], CommandsOf(s, e), out, n)
             && P.Complete(s, i) && s.calls[i].pc.epoch == e
    ensures var s := After(run).value;
            var k, cmds := s.calls[i].pc.index, CommandsOf(s, e);
            && 0 < k <= |cmds| == |T.Direct(store, cmds).0| && cmds[k - 1] == s.calls[i].cmd
            && s.calls[i].pc.resp == T.Direct(store, cmds).0[k - 1]
  {
    StartGreets();
    RunGreets(START, run);
    hide After, Greets, P.Inv, P.Complete, Answering, CommandsOf, AllWhole, T.Direct, T.AllWellFormed;
    var s := After(run).value;
    ReturnedWith(s, e, i);
    InvShape(s);
    AnswersDirect(store, s.epochs[e], CommandsOf(s, e), out, n, s.calls[i].pc.index);
  }

  /** A call with all of its answer has the answer to its own text, which is not the handshake. */
  lemma ReturnedWith(s: State, e: nat, i: nat)
    requires P.Inv(s) && Greets(s) && e < |s.epochs| && AllWhole(s.epochs[e]) && P.Complete(s, i)
             && s.calls[i].pc.epoch == e
    ensures T.AllFramable(s.epochs[e].answers)
    ensures var pc, answers := s.calls[i].pc, s.epochs[e].answers;
            && 0 < pc.index < |answers| && pc.index <= |CommandsOf(s, e)|
              && CommandsOf(s, e)[pc.index - 1] == s.calls[i].cmd
            && pc.resp == ParseResponse(s.calls[i].cmd, answers[pc.index])
  {
    hide Command.Text, ParseResponse, Framable;
    InvShape(s);
    GreetsAt(s, e);
    assert P.ResultOk(s, i) && P.AnswersOk(s.epochs[e]);
    hide Greets, P.Inv, P.Results, P.Answers, P.Texts;
  }

  lemma GreetsAt(s: State, e: nat)
    requires Greets(s) && e < |s.epochs|
    ensures FirstGreets(s.epochs[e])
  {
  }
}
