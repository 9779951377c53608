/**
 Macro variables as registers: round trips of one connection against the dummy
 server, in any interleaving with whatever else changes the server's store.
 The log is the order of the server's lock, with the beginning and the end of
 every round trip put in between.
 */
module Registers {
  import opened Wrappers
  import opened Bytes
  import opened Decimal
  import opened Numbers
  import opened Commands
  import opened Responses
  import opened Wire
  import opened Dummy
  import opened Truncation
  import Conn
  import ConnPairing

  datatype Event =
    | Begun(call: nat)
    | Served(epoch: nat, index: nat, line: Bytes)
    | Poked(variable: Number, value: Number)
    | Foreign(line: Bytes)                       // a line received from another connection
    | Ended(call: nat)

  datatype State = State(net: Conn.State, log: seq<Event>)

  const START := State(Conn.START, [])

  /** What an event does to the store. */
  function StoreNext(before: Store, event: Event): Store {
    match event
    case Served(_, _, line) => LineStore(before, line)
    case Poked(n, v) => before[n := v]
    case Foreign(line) => LineStore(before, line)
    case _ => before
  }

  function StoreOf(log: seq<Event>): Store {
    if log == [] then map[] else StoreNext(StoreOf(log[..|log| - 1]), log[|log| - 1])
  }

  datatype Step =
    | Net(step: Conn.Step)
    | Serve(epoch: nat)
    | Poke(variable: Number, value: Number)
    | Elsewhere(line: Bytes)

  /** The server has yet to take a text of this epoch. */
  predicate HasLine(net: Conn.State, e: nat) {
    e < |net.epochs| && |net.epochs[e].answers| < |net.epochs[e].texts|
  }

  /** The line the server takes next from an epoch. */
  function NextLine(s: State, e: nat): Bytes
    requires HasLine(s.net, e)
  {
    LineOf(s.net.epochs[e].texts[|s.net.epochs[e].answers|].bytes)
  }

  predicate Enabled(s: State, step: Step) {
    match step
    case Net(n) => !n.Answer? && Conn.Enabled(s.net, n)
    case Serve(e) => HasLine(s.net, e) && LineReply(StoreOf(s.log), NextLine(s, e)).Some?
    case Poke(_, _) => true
    case Elsewhere(_) => true
  }

  /** The events of a step of the connection. */
  function Events(s: Conn.State, s': Conn.State, step: Conn.Step): seq<Event> {
    if step.Invoke? then [Begun(|s.calls|)]
    else if !step.Send? && (step.Refuse? || step.Dial? || step.WriteFail? || step.Scan?)
            && step.i < |s'.calls| && Conn.Over(s'.calls[step.i].pc) then [Ended(step.i)]
    else []
  }

  function Apply(s: State, step: Step): State
    requires Enabled(s, step)
  {
    match step
    case Net(n) =>
      var net := Conn.Apply(s.net, n);
      State(net, s.log + Events(s.net, net, n))
    case Serve(e) =>
      var line := NextLine(s, e);
      var reply := LineReply(StoreOf(s.log), line).value;
      RepliesFramable(StoreOf(s.log), line);
      State(Conn.Apply(s.net, Conn.Answer(e, reply)), s.log + [Served(e, |s.net.epochs[e].answers|, line)])
    case Poke(n, v) => s.(log := s.log + [Poked(n, v)])
    case Elsewhere(line) => s.(log := s.log + [Foreign(line)])
  }

  function AfterFrom(s: State, run: seq<Step>): Option<State>
    decreases |run|
  {
    if run == [] then Some(s)
    else if !Enabled(s, run[0]) then None
    else AfterFrom(Apply(s, run[0]), run[1..])
  }

  function After(run: seq<Step>): Option<State> { AfterFrom(START, run) }

  // ----- the invariant

  ghost predicate BegunBefore(log: seq<Event>, call: nat, p: nat) {
    exists q: nat | q < p && q < |log| :: log[q] == Begun(call)
  }

  ghost predicate ServedAt(log: seq<Event>, e: nat, k: nat, p: nat) {
    p < |log| && log[p].Served? && log[p].epoch == e && log[p].index == k
  }

  /** Every answer has its place in the log, after its call began, and is the reply of the store at that place. */
  ghost predicate AnswerLogged(s: State, e: nat, k: nat, p: nat) {
    && e < |s.net.epochs| && k < |s.net.epochs[e].answers| && k < |s.net.epochs[e].texts|
    && ServedAt(s.log, e, k, p)
    && s.log[p].line == LineOf(s.net.epochs[e].texts[k].bytes)
    && LineReply(StoreOf(s.log[..p]), s.log[p].line) == Some(s.net.epochs[e].answers[k])
    && BegunBefore(s.log, s.net.epochs[e].texts[k].call, p)
  }

  predicate HasAnswer(s: State, e: nat, k: nat) { e < |s.net.epochs| && k < |s.net.epochs[e].answers| }

  ghost predicate Logged(s: State, e: nat, k: nat) { exists p: nat :: AnswerLogged(s, e, k, p) }

  ghost predicate Answered(s: State) {
    && (forall e: nat, k: nat :: HasAnswer(s, e, k) ==> Logged(s, e, k))
    && (forall e: nat, k: nat, p: nat :: ServedAt(s.log, e, k, p) ==> HasAnswer(s, e, k))
    && (forall e: nat, k: nat, p: nat, q: nat :: ServedAt(s.log, e, k, p) && ServedAt(s.log, e, k, q) ==> p == q)
  }

  ghost predicate CallsLogged(s: State) {
    forall i | 0 <= i < |s.net.calls| :: BegunBefore(s.log, i, |s.log|)
  }

  /** The call has returned with something of its answer. */
  predicate Informed(pc: Conn.Pc) { pc.Returned? && (pc.faulted ==> pc.held > 1) }

  /** A call that returned with something of its answer ended in the log after that answer. */
  ghost predicate EndLogged(s: State, i: nat) {
    && i < |s.net.calls|
    && (Informed(s.net.calls[i].pc) ==>
          exists p: nat, q: nat :: EndsAfter(s.log, i, s.net.calls[i].pc.epoch, s.net.calls[i].pc.index, p, q))
  }

  ghost predicate EndsAfter(log: seq<Event>, i: nat, e: nat, k: nat, p: nat, q: nat) {
    p < q < |log| && ServedAt(log, e, k, p) && log[q] == Ended(i)
  }

  ghost predicate Inv(s: State) {
    && ConnPairing.Inv(s.net) && Answered(s) && CallsLogged(s)
    && forall i | 0 <= i < |s.net.calls| :: EndLogged(s, i)
  }

  // ----- the log only grows

  lemma StoreOfPrefix(log: seq<Event>, more: seq<Event>, p: nat)
    requires p <= |log|
    ensures (log + more)[..p] == log[..p]
  {
  }

  lemma BegunKept(log: seq<Event>, more: seq<Event>, call: nat, p: nat)
    requires BegunBefore(log, call, p)
    ensures BegunBefore(log + more, call, p)
  {
    var q: nat :| q < p && q < |log| && log[q] == Begun(call);
    assert (log + more)[q] == Begun(call);
  }

  /** What the connection may do to epochs and calls between two states of the log. */
  ghost predicate NetGrows(s: Conn.State, s': Conn.State) {
    && |s.epochs| <= |s'.epochs| && |s.calls| <= |s'.calls|
    && forall e | 0 <= e < |s.epochs| ::
      s.epochs[e].texts <= s'.epochs[e].texts && s.epochs[e].answers <= s'.epochs[e].answers
  }

  lemma LoggedKept(s: State, s': State, e: nat, k: nat, p: nat)
    requires AnswerLogged(s, e, k, p) && NetGrows(s.net, s'.net) && s.log <= s'.log
    ensures AnswerLogged(s', e, k, p)
  {
    var more := s'.log[|s.log|..];
    assert s'.log == s.log + more;
    StoreOfPrefix(s.log, more, p);
    BegunKept(s.log, more, s.net.epochs[e].texts[k].call, p);
  }

  /** New answers aside, everything logged stays logged. */
  lemma AnsweredKept(s: State, s': State)
    requires Answered(s) && NetGrows(s.net, s'.net) && s.log <= s'.log
    requires forall p | |s.log| <= p < |s'.log| :: !s'.log[p].Served?
    requires forall e | 0 <= e < |s.net.epochs| :: s'.net.epochs[e].answers == s.net.epochs[e].answers
    requires forall e | |s.net.epochs| <= e < |s'.net.epochs| :: s'.net.epochs[e].answers == []
    ensures Answered(s')
  {
    hide AnswerLogged;
    forall e: nat, k: nat | HasAnswer(s', e, k) ensures Logged(s', e, k) {
      assert HasAnswer(s, e, k);
      var p: nat :| AnswerLogged(s, e, k, p);
      LoggedKept(s, s', e, k, p);
    }
    forall e: nat, k: nat, p: nat | ServedAt(s'.log, e, k, p) ensures ServedAt(s.log, e, k, p) { }
  }

  lemma CallsKept(s: State, s': State)
    requires CallsLogged(s) && s.log <= s'.log && |s.net.calls| <= |s'.net.calls| <= |s.net.calls| + 1
    requires |s'.net.calls| > |s.net.calls| ==> s'.log == s.log + [Begun(|s.net.calls|)]
    ensures CallsLogged(s')
  {
    var more := s'.log[|s.log|..];
    assert s'.log == s.log + more;
    forall i | 0 <= i < |s'.net.calls| ensures BegunBefore(s'.log, i, |s'.log|) {
      if i < |s.net.calls| {
        BegunKept(s.log, more, i, |s.log|);
      } else {
        assert s'.log[|s.log|] == Begun(i);
      }
    }
  }

  lemma EndsKept(s: State, s': State, i: nat)
    requires EndLogged(s, i) && s.log <= s'.log && i < |s'.net.calls| && s'.net.calls[i].pc == s.net.calls[i].pc
    ensures EndLogged(s', i)
  {
    if Informed(s.net.calls[i].pc) {
      var e, k := s.net.calls[i].pc.epoch, s.net.calls[i].pc.index;
      var p: nat, q: nat :| EndsAfter(s.log, i, e, k, p, q);
      assert EndsAfter(s'.log, i, e, k, p, q);
    }
  }

  lemma NetMonotone(s: Conn.State, step: Conn.Step)
    requires ConnPairing.Inv(s) && Conn.Enabled(s, step)
    ensures NetGrows(s, Conn.Apply(s, step))
  {
    hide Conn.Apply, Conn.Enabled, ConnPairing.Once, ConnPairing.Texts, ConnPairing.Paired, ConnPairing.Results;
    ConnPairing.CallsMonotone(s, step);
    ConnPairing.EpochsMonotone(s, step);
    if step.WriteOk? || step.WriteFail? { ConnPairing.WriteEffect(s, step); }
    if step.Answer? { ConnPairing.AnswerEffect(s, step.e, step.payload); }
    forall e | 0 <= e < |s.epochs|
      ensures s.epochs[e].texts <= Conn.Apply(s, step).epochs[e].texts
      ensures s.epochs[e].answers <= Conn.Apply(s, step).epochs[e].answers
    {
    }
  }

  lemma StepInv(s: State, step: Step)
    requires Inv(s) && Enabled(s, step)
    ensures Inv(Apply(s, step))
  {
    match step {
      case Net(n) => NetInv(s, n);
      case Serve(e) => ServeInv(s, e);
      case Poke(_, _) => OutsideInv(s, step);
      case Elsewhere(_) => OutsideInv(s, step);
    }
  }

  lemma OutsideInv(s: State, step: Step)
    requires Inv(s) && (step.Poke? || step.Elsewhere?)
    ensures Inv(Apply(s, step))
  {
    hide ConnPairing.Inv, StoreOf, Answered, CallsLogged, EndLogged;
    var s' := Apply(s, step);
    AnsweredKept(s, s');
    CallsKept(s, s');
    forall i | 0 <= i < |s'.net.calls| ensures EndLogged(s', i) { EndsKept(s, s', i); }
  }

  lemma ServeInv(s: State, e: nat)
    requires Inv(s) && Enabled(s, Serve(e))
    ensures Inv(Apply(s, Serve(e)))
  {
    hide ConnPairing.Inv, StoreOf, LineReply, CallsLogged, EndLogged, Conversation;
    var s' := Apply(s, Serve(e));
    var k, line := |s.net.epochs[e].answers|, NextLine(s, e);
    var reply := LineReply(StoreOf(s.log), line).value;
    RepliesFramable(StoreOf(s.log), line);
    ConnPairing.StepInv(s.net, Conn.Answer(e, reply));
    ConnPairing.AnswerEffect(s.net, e, reply);
    assert NetGrows(s.net, s'.net);
    CallsKept(s, s');
    forall i | 0 <= i < |s'.net.calls| ensures EndLogged(s', i) { EndsKept(s, s', i); }
    ServeAnswered(s, e);
  }

  lemma ServeAnswered(s: State, e: nat)
    requires ConnPairing.Inv(s.net) && Answered(s) && CallsLogged(s) && Enabled(s, Serve(e))
    ensures Answered(Apply(s, Serve(e)))
  {
    var s' := Apply(s, Serve(e));
    var k, end := |s.net.epochs[e].answers|, |s.log|;
    ServeEffect(s, e);
    ServeLogged(s, e);
    hide Apply, Enabled, AnswerLogged;
    forall e': nat, k': nat | HasAnswer(s', e', k') ensures Logged(s', e', k') {
      if e' == e && k' == k {
        assert AnswerLogged(s', e, k, end);
      } else {
        assert HasAnswer(s, e', k');
        var p: nat :| AnswerLogged(s, e', k', p);
        LoggedKept(s, s', e', k', p);
      }
    }
    forall e': nat, k': nat, p: nat | ServedAt(s'.log, e', k', p)
      ensures if p == end then e' == e && k' == k else ServedAt(s.log, e', k', p)
    {
    }
    assert !HasAnswer(s, e, k);
  }

  lemma ServeEffect(s: State, e: nat)
    requires ConnPairing.Inv(s.net) && Enabled(s, Serve(e))
    ensures var s' := Apply(s, Serve(e));
            var reply := LineReply(StoreOf(s.log), NextLine(s, e)).value;
            && s'.log == s.log + [Served(e, |s.net.epochs[e].answers|, NextLine(s, e))]
            && s'.net.epochs == s.net.epochs[e := s.net.epochs[e].(answers := s.net.epochs[e].answers + [reply])]
            && s'.net.calls == s.net.calls
            && NetGrows(s.net, s'.net)
  {
    hide LineReply, StoreOf, LineOf, ConnPairing.Inv, Framable;
    RepliesFramable(StoreOf(s.log), NextLine(s, e));
  }

  lemma ServeLogged(s: State, e: nat)
    requires ConnPairing.Inv(s.net) && CallsLogged(s) && Enabled(s, Serve(e))
    ensures AnswerLogged(Apply(s, Serve(e)), e, |s.net.epochs[e].answers|, |s.log|)
  {
    var s' := Apply(s, Serve(e));
    var k, end := |s.net.epochs[e].answers|, |s.log|;
    ServeEffect(s, e);
    ServeKnown(s, e);
    hide ConnPairing.Inv, CallsLogged, StoreOf, LineReply, Apply, LineOf, BegunBefore;
    BegunKept(s.log, [Served(e, k, NextLine(s, e))], s.net.epochs[e].texts[k].call, end);
    assert s'.log[..end] == s.log;
  }

  /** The text served next is known, and its call has begun. */
  lemma ServeKnown(s: State, e: nat)
    requires ConnPairing.Inv(s.net) && CallsLogged(s) && Enabled(s, Serve(e))
    ensures e < |s.net.epochs| && |s.net.epochs[e].answers| < |s.net.epochs[e].texts|
    ensures BegunBefore(s.log, s.net.epochs[e].texts[|s.net.epochs[e].answers|].call, |s.log|)
  {
    hide StoreOf, LineReply;
    assert ConnPairing.TextOk(s.net, e, |s.net.epochs[e].answers|);
  }

  lemma NetInv(s: State, n: Conn.Step)
    requires Inv(s) && Enabled(s, Net(n))
    ensures Inv(Apply(s, Net(n)))
  {
    var s' := Apply(s, Net(n));
    ConnPairing.StepInv(s.net, n);
    NetMonotone(s.net, n);
    ConnPairing.CallEffect(s.net, n);
    ConnPairing.EpochsMonotone(s.net, n);
    hide ConnPairing.Inv, StoreOf, Answered, CallsLogged, EndLogged, Conn.Apply, Conn.Enabled;
    AnsweredKept(s, s');
    CallsKept(s, s');
    forall i | 0 <= i < |s'.net.calls| ensures EndLogged(s', i) {
      if i < |s.net.calls| && s'.net.calls[i].pc == s.net.calls[i].pc {
        EndsKept(s, s', i);
      } else {
        EndsNow(s, n, i);
      }
    }
  }

  /** The call that returns in this step ends after its answer, which is already logged. */
  lemma EndsNow(s: State, n: Conn.Step, i: nat)
    requires Inv(s) && Enabled(s, Net(n)) && i < |Apply(s, Net(n)).net.calls|
    requires !(i < |s.net.calls| && Apply(s, Net(n)).net.calls[i].pc == s.net.calls[i].pc)
    ensures EndLogged(Apply(s, Net(n)), i)
  {
    var s' := Apply(s, Net(n));
    ConnPairing.StepInv(s.net, n);
    ConnPairing.EpochsMonotone(s.net, n);
    EndEvent(s, n, i);
    assert ConnPairing.ResultOk(s'.net, i);
    hide ConnPairing.Inv, Apply, Enabled, ConnPairing.ResultOk, Answered, EndLogged;
    if s'.net.calls[i].pc.Returned? { EndsNext(s, s', i); } else { NoEnd(s', i); }
  }

  lemma NoEnd(s: State, i: nat)
    requires i < |s.net.calls| && !s.net.calls[i].pc.Returned?
    ensures EndLogged(s, i)
  {
  }

  lemma EndsNext(s: State, s': State, i: nat)
    requires Answered(s) && i < |s'.net.calls| && ConnPairing.ResultOk(s'.net, i) && s'.log == s.log + [Ended(i)]
    requires |s.net.epochs| <= |s'.net.epochs|
    requires forall x | 0 <= x < |s.net.epochs| :: s'.net.epochs[x].answers == s.net.epochs[x].answers
    requires forall x | |s.net.epochs| <= x < |s'.net.epochs| :: s'.net.epochs[x] == Conn.FRESH
    ensures EndLogged(s', i)
  {
    hide StoreOf, ParseResponse, AnswerLogged, LineOf, Command.Text, Answered;
    if Informed(s'.net.calls[i].pc) {
      var e, k := s'.net.calls[i].pc.epoch, s'.net.calls[i].pc.index;
      LogAnswered(s, s'.net, e, k);
      var p: nat :| AnswerLogged(s, e, k, p);
      LoggedIsServed(s, e, k, p);
      assert EndsAfter(s'.log, i, e, k, p, |s.log|);
    }
  }

  /** The step in which a call returns is a scan of that call, and its end goes into the log. */
  lemma EndEvent(s: State, n: Conn.Step, i: nat)
    requires ConnPairing.Inv(s.net) && Enabled(s, Net(n)) && i < |Apply(s, Net(n)).net.calls|
    requires !(i < |s.net.calls| && Apply(s, Net(n)).net.calls[i].pc == s.net.calls[i].pc)
    ensures Apply(s, Net(n)).net.calls[i].pc.Returned? ==> Apply(s, Net(n)).log == s.log + [Ended(i)] && !n.Answer?
  {
    ConnPairing.CallEffect(s.net, n);
    hide ConnPairing.Inv, Conn.Apply, Conn.Enabled;
  }

  /** An answer still there after a step of the connection was there before and is in the log. */
  lemma LogAnswered(s: State, net: Conn.State, e: nat, k: nat)
    requires Answered(s) && |s.net.epochs| <= |net.epochs| && e < |net.epochs| && k < |net.epochs[e].answers|
    requires forall x | 0 <= x < |s.net.epochs| :: net.epochs[x].answers == s.net.epochs[x].answers
    requires forall x | |s.net.epochs| <= x < |net.epochs| :: net.epochs[x] == Conn.FRESH
    ensures Logged(s, e, k)
  {
    assert HasAnswer(s, e, k);
  }

  lemma LoggedIsServed(s: State, e: nat, k: nat, p: nat)
    requires AnswerLogged(s, e, k, p)
    ensures ServedAt(s.log, e, k, p)
  {
  }

  lemma {:induction false} RunInv(s: State, run: seq<Step>)
    requires Inv(s) && AfterFrom(s, run).Some?
    ensures Inv(AfterFrom(s, run).value)
    decreases |run|
  {
    hide Inv, Apply, Enabled;
    if run != [] {
      StepInv(s, run[0]);
      RunInv(Apply(s, run[0]), run[1..]);
    }
  }

  lemma StartInv()
    ensures Inv(START)
  {
    ConnPairing.StartInv();
  }

  // ----- each call begins and ends once

  /** A call is marked once where it begins and, if it is over, at most once where it ends. */
  ghost predicate Marks(s: State) {
    && (forall p | 0 <= p < |s.log| && (s.log[p].Begun? || s.log[p].Ended?) ::
          s.log[p].call < |s.net.calls| && (s.log[p].Ended? ==> Conn.Over(s.net.calls[s.log[p].call].pc)))
    && (forall p, q | 0 <= p < |s.log| && 0 <= q < |s.log| && (s.log[p].Begun? || s.log[p].Ended?)
        && s.log[p] == s.log[q] :: p == q)
  }

  lemma MarksKept(s: State, step: Step)
    requires Inv(s) && Marks(s) && Enabled(s, step)
    ensures Marks(Apply(s, step))
  {
    match step {
      case Net(n) => NetMarks(s, n);
      case Serve(e) =>
        ServeEffect(s, e);
        hide Apply, Enabled, Inv, StoreOf, LineReply, NextLine;
      case _ =>
        hide Inv, StoreOf;
    }
  }

  lemma NetMarks(s: State, n: Conn.Step)
    requires Inv(s) && Marks(s) && Enabled(s, Net(n))
    ensures Marks(Apply(s, Net(n)))
  {
    OverStays(s.net, n);
    var net := Conn.Apply(s.net, n);
    var more := Events(s.net, net, n);
    assert |more| <= 1;
    hide Inv, Conn.Apply, Conn.Enabled, Events, Marks;
    MarkMore(s, net, more);
  }

  /** One more mark, of a call that begins or ends now. */
  lemma MarkMore(s: State, net: Conn.State, more: seq<Event>)
    requires Marks(s) && |more| <= 1 && |s.net.calls| <= |net.calls|
    requires forall i | 0 <= i < |s.net.calls| && Conn.Over(s.net.calls[i].pc) :: Conn.Over(net.calls[i].pc)
    requires forall i | 0 <= i < |s.net.calls| && Ended(i) in more :: !Conn.Over(s.net.calls[i].pc)
    requires forall i: nat | Ended(i) in more :: i < |net.calls| && Conn.Over(net.calls[i].pc)
    requires forall i: nat | Begun(i) in more :: i == |s.net.calls| < |net.calls|
    ensures Marks(State(net, s.log + more))
  {
    if more != [] { assert more[0] in more; }
  }

  /** A call that is over stays over, and a step that ends a call finds it not yet over. */
  lemma OverStays(s: Conn.State, n: Conn.Step)
    requires ConnPairing.Inv(s) && Conn.Enabled(s, n) && !n.Answer?
    ensures var s' := Conn.Apply(s, n);
            && |s.calls| <= |s'.calls|
            && (forall i | 0 <= i < |s.calls| && Conn.Over(s.calls[i].pc) :: Conn.Over(s'.calls[i].pc))
            && (forall i | 0 <= i < |s.calls| && Ended(i) in Events(s, s', n) :: !Conn.Over(s.calls[i].pc))
            && (forall i: nat | Ended(i) in Events(s, s', n) :: i < |s'.calls| && Conn.Over(s'.calls[i].pc))
            && (forall i: nat | Begun(i) in Events(s, s', n) :: i == |s.calls| < |s'.calls| && n.Invoke?)
  {
    ConnPairing.CallEffect(s, n);
    hide Conn.Apply, Conn.Enabled, ConnPairing.Inv;
  }

  /** A step marks the beginning of the call it makes, and the end of the call it ends, and nothing else. */
  lemma MarksExactly(s: Conn.State, n: Conn.Step, i: nat)
    requires ConnPairing.Inv(s) && Conn.Enabled(s, n) && !n.Answer?
    ensures var s' := Conn.Apply(s, n);
            && (Begun(i) in Events(s, s', n) <==> |s.calls| <= i < |s'.calls|)
            && (Ended(i) in Events(s, s', n) <==>
                  i < |s'.calls| && Conn.Over(s'.calls[i].pc) && !(i < |s.calls| && Conn.Over(s.calls[i].pc)))
  {
    OverStays(s, n);
    ConnPairing.CallEffect(s, n);
    hide Conn.Apply, Conn.Enabled, ConnPairing.Inv;
  }

  lemma {:induction false} RunMarks(s: State, run: seq<Step>)
    requires Inv(s) && Marks(s) && AfterFrom(s, run).Some?
    ensures Inv(AfterFrom(s, run).value) && Marks(AfterFrom(s, run).value)
    decreases |run|
  {
    hide Inv, Marks, Apply, Enabled;
    if run != [] {
      StepInv(s, run[0]);
      MarksKept(s, run[0]);
      RunMarks(Apply(s, run[0]), run[1..]);
    }
  }

  /** Each call has one beginning and at most one end in the log. */
  lemma MarkedOnce(run: seq<Step>, p: nat, q: nat)
    requires After(run).Some? && p < |After(run).value.log| && q < |After(run).value.log|
    requires var log := After(run).value.log; (log[p].Begun? || log[p].Ended?) && log[p] == log[q]
    ensures p == q
  {
    StartInv();
    RunMarks(START, run);
  }

  // ----- the theorems

  /**
   Linearizability. A call of a well-formed command that returns with all of its
   answer takes its effect and gets its response at one point of the server's lock
   order between its beginning and its end, the one where its own text is served:
   the response is what the server replies to the command in the store of that
   point, and the store after the point is the one the command leaves.
   */
  lemma LinearizableCall(run: seq<Step>, i: nat) returns (begin: nat, point: nat, end: nat)
    requires After(run).Some? && i < |After(run).value.net.calls|
    requires var call := After(run).value.net.calls[i];
             WellFormed(call.cmd) && ConnPairing.Complete(After(run).value.net, i)
    ensures var s := After(run).value;
            && begin < point < end < |s.log|
            && s.log[begin] == Begun(i) && s.log[end] == Ended(i)
            && ServedAt(s.log, s.net.calls[i].pc.epoch, s.net.calls[i].pc.index, point)
            && var c, before := s.net.calls[i].cmd, StoreOf(s.log[..point]);
            && s.net.calls[i].pc.resp == ParseResponse(c, Reply(before, c))
            && StoreOf(s.log[..point + 1]) == StoreAfter(before, c)
  {
    StartInv();
    RunInv(START, run);
    var s := After(run).value;
    var pc, c := s.net.calls[i].pc, s.net.calls[i].cmd;
    assert ConnPairing.ResultOk(s.net, i) && EndLogged(s, i);
    hide Inv, ConnPairing.Inv, StoreOf, After, AfterFrom, ParseResponse, LineReply, LineStore, StoreAfter, Reply,
         ParseCommand, WellFormed;
    var p: nat, q: nat :| EndsAfter(s.log, i, pc.epoch, pc.index, p, q);
    LoggedAt(s, pc.epoch, pc.index, p);
    assert BegunBefore(s.log, i, p);
    var b: nat :| b < p && b < |s.log| && s.log[b] == Begun(i);
    begin, point, end := b, p, q;
    TextLine(c);
    ServesCommand(StoreOf(s.log[..p]), c);
    StoreOfServed(s.log, p);
  }

  /**
   A query of an integer variable that returns with all of its answer returns the
   value the variable had at a point of the server's lock order between the
   beginning and the end of the call: the value last stored, zero if none was,
   and NaN for variable 0.
   */
  lemma LinearizableQuery(run: seq<Step>, i: nat, n: Int64) returns (begin: nat, point: nat, end: nat)
    requires n >= 0 && After(run).Some? && i < |After(run).value.net.calls|
    requires var call := After(run).value.net.calls[i];
             call.cmd == Query(Num(n, 0)) && ConnPairing.Complete(After(run).value.net, i)
    ensures var s := After(run).value;
            && begin < point < end < |s.log|
            && s.log[begin] == Begun(i) && s.log[end] == Ended(i)
            && var before, v := StoreOf(s.log[..point]), Num(n, 0);
               s.net.calls[i].pc.resp == Value(if n == 0 then NaN else if v in before then before[v] else Num(0, 0))
  {
    begin, point, end := LinearizableCall(run, i);
    hide After, ParseResponse, Reply, StoreOf, StoreAfter;
    QueryReads(StoreOf(After(run).value.log[..point]), n);
  }

  /** A write that returns with all of its answer succeeds, and stores its value at such a point. */
  lemma LinearizableWrite(run: seq<Step>, i: nat, v: Number, x: Number) returns (begin: nat, point: nat, end: nat)
    requires WellFormed(Write(v, x)) && After(run).Some? && i < |After(run).value.net.calls|
    requires var call := After(run).value.net.calls[i];
             call.cmd == Write(v, x) && ConnPairing.Complete(After(run).value.net, i)
    ensures var s := After(run).value;
            && begin < point < end < |s.log|
            && s.log[begin] == Begun(i) && s.log[end] == Ended(i)
            && s.net.calls[i].pc.resp == Opaque("!", true)
            && StoreOf(s.log[..point + 1]) == StoreOf(s.log[..point])[v := x]
  {
    begin, point, end := LinearizableCall(run, i);
  }

  lemma LoggedAt(s: State, e: nat, k: nat, p: nat)
    requires Inv(s) && ServedAt(s.log, e, k, p)
    ensures AnswerLogged(s, e, k, p)
  {
    hide ConnPairing.Inv, StoreOf, LineReply;
    assert HasAnswer(s, e, k);
    var q: nat :| AnswerLogged(s, e, k, q);
  }

  /** The server finds the printed line of a command in the text written for it. */
  lemma TextLine(c: Command)
    ensures LineOf(c.Text()) == c.Line()
  {
    hide Command.Line;
    LineClean(c);
    assert c.Text()[..|c.Text()| - 1] == c.Line();
  }

  /**
   A call, failed or not, takes effect at most once: at most one line of the
   log comes from the main text of a call. It may be after the call has ended.
   */
  lemma EffectAtMostOnce(run: seq<Step>, p: nat, q: nat)
    requires After(run).Some? && p < |After(run).value.log| && q < |After(run).value.log|
    requires After(run).value.log[p].Served? && After(run).value.log[q].Served?
    ensures var s := After(run).value;
            && s.log[p].epoch < |s.net.epochs| && s.log[p].index < |s.net.epochs[s.log[p].epoch].texts|
            && s.log[q].epoch < |s.net.epochs| && s.log[q].index < |s.net.epochs[s.log[q].epoch].texts|
            && var t, u := s.net.epochs[s.log[p].epoch].texts[s.log[p].index],
              s.net.epochs[s.log[q].epoch].texts[s.log[q].index];
               t.call == u.call && t.part == u.part ==> p == q
  {
    StartInv();
    RunInv(START, run);
    var s := After(run).value;
    assert ServedAt(s.log, s.log[p].epoch, s.log[p].index, p) && ServedAt(s.log, s.log[q].epoch, s.log[q].index, q);
    LoggedAt(s, s.log[p].epoch, s.log[p].index, p);
    LoggedAt(s, s.log[q].epoch, s.log[q].index, q);
    var t, u := s.net.epochs[s.log[p].epoch].texts[s.log[p].index], s.net.epochs[s.log[q].epoch].texts[s.log[q].index];
    if t.call == u.call && t.part == u.part {
      assert ConnPairing.IsText(s.net, s.log[p].epoch, s.log[p].index, t.call, t.part);
      assert ConnPairing.IsText(s.net, s.log[q].epoch, s.log[q].index, t.call, t.part);
    }
  }

  /** A text written by a connection, whole or cut: the command it belongs to and how much of it is there. */
  lemma ServedText(s: State, p: nat) returns (c: Command, n: nat)
    requires Inv(s) && p < |s.log| && s.log[p].Served?
    ensures s.log[p].epoch < |s.net.epochs| && s.log[p].index < |s.net.epochs[s.log[p].epoch].texts|
    ensures var t := s.net.epochs[s.log[p].epoch].texts[s.log[p].index];
            && t.call < |s.net.calls| && c == s.net.Sends(t.call, t.part)
            && n == |t.bytes| <= |c.Text()| && (!t.cut ==> n == |c.Text()|) && s.log[p].line == LineOf(c.Text()[..n])
  {
    hide Command.Text, LineOf, StoreOf;
    var e, k := s.log[p].epoch, s.log[p].index;
    assert ServedAt(s.log, e, k, p);
    LoggedAt(s, e, k, p);
    assert ConnPairing.TextOk(s.net, e, k);
    var t := s.net.epochs[e].texts[k];
    c := s.net.Sends(t.call, t.part);
    n := |t.bytes|;
    assert c.Text()[..n] == t.bytes;
  }

  /**
   What a line in the log does to the store. It changes no variable but the one
   its call writes, even when the connection broke in the middle of the text. It
   is read as the command of its call if and only if no more of the text is
   missing than the line feed and, after a zero fraction, the point and the zero;
   and then it does exactly what the command says.
   */
  lemma ServedEffect(run: seq<Step>, p: nat)
    requires After(run).Some? && p < |After(run).value.log| && After(run).value.log[p].Served?
    ensures var s := After(run).value;
            && s.log[p].epoch < |s.net.epochs| && s.log[p].index < |s.net.epochs[s.log[p].epoch].texts|
            && var t := s.net.epochs[s.log[p].epoch].texts[s.log[p].index];
            && t.call < |s.net.calls|
            && DoesNoMore(s.net.Sends(t.call, t.part), |t.bytes|, s.log[p].line, StoreOf(s.log[..p]),
                          StoreOf(s.log[..p + 1]))
  {
    StartInv();
    RunInv(START, run);
    hide After, AfterFrom, Inv;
    EffectAt(After(run).value, p);
  }

  /**
   After n bytes of a command the store changes as the command says if they reach
   its slack, and else at most in the variable it writes.
   */
  ghost predicate DoesNoMore(c: Command, n: nat, line: Bytes, before: Store, after: Store) {
    WellFormed(c) ==>
      && (ParseCommand(TrimSpace(line)) == Ok(c) <==> n + Slack(c) >= |c.Line()|)
      && (n + Slack(c) >= |c.Line()| ==> after == StoreAfter(before, c))
      && (after == before || (c.Write? && c.variable in after && after == before[c.variable := after[c.variable]]))
  }

  lemma EffectAt(s: State, p: nat)
    requires Inv(s) && p < |s.log| && s.log[p].Served?
    ensures s.log[p].epoch < |s.net.epochs| && s.log[p].index < |s.net.epochs[s.log[p].epoch].texts|
    ensures var t := s.net.epochs[s.log[p].epoch].texts[s.log[p].index];
            && t.call < |s.net.calls|
            && DoesNoMore(s.net.Sends(t.call, t.part), |t.bytes|, s.log[p].line, StoreOf(s.log[..p]),
                          StoreOf(s.log[..p + 1]))
  {
    hide Inv, LineStore, Command.Text, LineOf, StoreAfter, WellFormed, StoreOf, Slack, ParseCommand, TrimSpace,
         Command.Line;
    var c, n := ServedText(s, p);
    StoreOfServed(s.log, p);
    if WellFormed(c) { LineEffect(StoreOf(s.log[..p]), c, n); }
  }

  lemma StoreOfServed(log: seq<Event>, p: nat)
    requires p < |log| && log[p].Served?
    ensures StoreOf(log[..p + 1]) == LineStore(StoreOf(log[..p]), log[p].line)
  {
    hide LineStore;
    assert log[..p + 1][..p] == log[..p];
  }

  lemma LineEffect(store: Store, c: Command, n: nat)
    requires WellFormed(c) && n <= |c.Text()|
    ensures var line := LineOf(c.Text()[..n]);
            var after := LineStore(store, line);
            && (ParseCommand(TrimSpace(line)) == Ok(c) <==> n + Slack(c) >= |c.Line()|)
            && (n + Slack(c) >= |c.Line()| ==> after == StoreAfter(store, c))
            && (after == store || (c.Write? && c.variable in after && after == store[c.variable := after[c.variable]]))
  {
    hide ParseCommand, TrimSpace, Command.Line, WellFormed, LineOf, Slack;
    LineTrimmed(c, n);
    CutReparses(c, n);
    if ParseCommand(TrimSpace(c.Text()[..n])).Ok? && ParseCommand(TrimSpace(c.Text()[..n])).value.Write? {
      TruncatedWrite(c, n);
    }
  }

  /** Once trimmed, a text and its line are the same. */
  lemma LineTrimmed(c: Command, n: nat)
    requires n <= |c.Text()|
    ensures TrimSpace(LineOf(c.Text()[..n])) == TrimSpace(c.Text()[..n])
  {
    hide TrimSpace, Command.Line, LineOf;
    LineClean(c);
    if n == |c.Text()| {
      assert c.Text()[..n] == c.Line() + "\n";
      TextLine(c);
      TrimmedText(c);
      TrimTight(c.Line());
    } else {
      assert c.Text()[..n] == c.Line()[..n];
      CutLine(c, n);
    }
  }

  /** A cut text has no line end to remove. */
  lemma CutLine(c: Command, n: nat)
    requires n <= |c.Line()|
    ensures LineOf(c.Line()[..n]) == c.Line()[..n]
  {
    NoCR(c);
    LineClean(c);
    hide Command.Line;
  }

  lemma NoCR(c: Command)
    ensures CR !in c.Line()
  {
    hide Number.FormatD, Number.FormatF;
    match c {
      case Basic(n) => FormatNoCR(n);
      case Query(v) => FormatNoCR(v);
      case Write(v, x) => FormatNoCR(v); FormatNoCR(x);
    }
  }

  lemma FormatNoCR(n: Number)
    ensures CR !in n.FormatD() && CR !in n.FormatF()
  {
    if n.Num? {
      PrintNoCR(n.whole);
      PrintNoCR(n.frac);
    }
  }

  lemma PrintNoCR(n: int)
    ensures CR !in Print(n)
  {
    PrintShape(n);
    var s, m := Print(n), Magnitude(Print(n));
    forall i | 0 <= i < |s| ensures s[i] != CR {
      if n < 0 && i > 0 { assert s[i] == m[i - 1]; }
      if n >= 0 { assert IsDigit(s[i]); }
    }
  }

  /** However the bytes of an epoch are cut into reads, the server finds in them the line of each text, in order. */
  lemma ServerSeesTexts(run: seq<Conn.Step>, e: nat, chunks: seq<Bytes>)
    requires Conn.After(run).Some? && e < |Conn.After(run).value.epochs|
    requires var texts := Conn.After(run).value.epochs[e].texts;
             Concat(chunks) == Concat(seq(|texts|, i requires 0 <= i < |texts| => texts[i].bytes))
    ensures var texts := Conn.After(run).value.epochs[e].texts;
            Drain(Lines, "", chunks) == seq(|texts|, i requires 0 <= i < |texts| => LineOf(texts[i].bytes))
  {
    ConnPairing.StartInv();
    ConnPairing.RunInv(Conn.START, run);
    var s := Conn.After(run).value;
    var texts := s.epochs[e].texts;
    var bytes := seq(|texts|, i requires 0 <= i < |texts| => texts[i].bytes);
    hide Conn.After, Drain, Tokens, Concat, LineOf, Command.Text;
    forall i | 0 <= i < |bytes| ensures OneLine(bytes[i]) && (i < |bytes| - 1 ==> EndsLine(bytes[i])) {
      assert ConnPairing.TextOk(s, e, i);
      var t := texts[i];
      WrittenLine(s.Sends(t.call, t.part), t.bytes);
    }
    LinesOfTexts(bytes);
    ChunkIndependence(Lines, "", chunks);
    assert "" + Concat(chunks) == Concat(chunks);
    assert seq(|bytes|, i requires 0 <= i < |bytes| => LineOf(bytes[i]))
        == seq(|texts|, i requires 0 <= i < |texts| => LineOf(texts[i].bytes));
  }

  /** A beginning of a command's text is one line, and ends it if it is all of the text. */
  lemma WrittenLine(c: Command, bytes: Bytes)
    requires bytes != "" && bytes <= c.Text()
    ensures OneLine(bytes) && (bytes == c.Text() ==> EndsLine(bytes))
  {
    hide Command.Line;
    LineClean(c);
    assert c.Text()[..|c.Line()|] == c.Line();
    assert bytes[..|bytes| - 1] == c.Line()[..|bytes| - 1];
  }

  /** Every text a connection writes is answered by the server: none is mistaken for a blank line. */
  lemma EveryTextIsServed(c: Command, n: nat, store: Store)
    requires 0 < n <= |c.Text()|
    ensures LineReply(store, LineOf(c.Text()[..n])).Some?
  {
    hide ParseCommand, Reply, Command.Line, TrimSpace, LineOf;
    LineClean(c);
    if n == |c.Text()| {
      assert c.Text()[..n] == c.Text();
      TextLine(c);
      StartsTight(c.Line());
    } else {
      assert c.Text()[..n] == c.Line()[..n];
      CutLine(c, n);
      StartsTight(c.Line()[..n]);
    }
  }

  lemma StartsTight(s: Bytes)
    requires s != "" && !IsTrimSpace(s[0])
    ensures TrimSpace(s) != ""
  {
    var m := TrimRightShape(s);
    assert TrimLeft(s) == s;
  }

  lemma TextNotEmpty(c: Command)
    ensures c.Text() != ""
  {
  }
}
