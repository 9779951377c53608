/**
 The shared connection to one machine control, as a system of steps.

 Any number of callers run `RoundTrip`; a mutex serializes them. Each dial opens
 an epoch: a socket, a scanner over it, a one-slot keep-alive channel, and a
 goroutine that waits for a token or a timer. The backend answers the texts it
 has received, in order, at any time. Reads deliver any number of the available
 bytes; a dial, a write or a read may fail at any time, and a timer may fire at
 any time. Code that runs between blocking points under the mutex is one step.
 */
module Conn {
  import opened Wrappers
  import opened Bytes
  import opened Numbers
  import opened Commands
  import opened Responses
  import opened Wire

  /** `CommandMachineSN`, sent first on every new socket. */
  const HANDSHAKE: Command := Basic(Num(100, 0))

  datatype Part = Greeting | Main

  /** What a call wrote to the socket; cut when the write failed part way. */
  datatype Text = Text(call: nat, part: Part, bytes: Bytes, cut: bool)

  /** The goroutine of one epoch: in its select, after the timer arm, or gone. */
  datatype Idler = Selecting | WantsLock | Exited

  datatype Epoch = Epoch(
    texts: seq<Text>,       // written to the socket
    answers: seq<Bytes>,    // payloads the backend has sent back
    read: nat,              // bytes of the backend's stream the scanner has taken
    tokens: nat,            // in the keep-alive channel, which has one slot
    closed: bool,           // that channel
    idler: Idler,
    socketOpen: bool)

  const FRESH := Epoch([], [], 0, 0, false, Selecting, true)

  /** The scanner over the socket of an epoch; its read error is sticky. */
  datatype Scanner = Scanner(epoch: nat, buf: Bytes, fault: bool, taken: nat)

  datatype Pc =
    | Invoked | Waiting | Entered | Dialing
    | AtSend(part: Part)       // about to send on the keep-alive channel
    | Writing(part: Part)
    | Scanning(part: Part)
    | Returned(resp: Response, token: Bytes, epoch: nat, index: nat, held: nat,
               faulted: bool)    // held: bytes in the scanner
    | Failed
  {
    predicate Holding() { Entered? || Dialing? || AtSend? || Writing? || Scanning? }
    predicate Connected() { AtSend? || Writing? || Scanning? }
  }

  predicate Over(pc: Pc) { pc.Returned? || pc.Failed? }

  datatype Call = Call(cmd: Command, pc: Pc)

  datatype State = State(
    conn: Option<nat>,         // the three fields behind the mutex, by epoch
    keepAlive: Option<nat>,
    scanner: Option<Scanner>,
    epochs: seq<Epoch>,
    calls: seq<Call>,
    holder: Option<nat>,       // the call that holds the mutex
    panicked: bool
  ) {
    predicate At(i: nat, pc: Pc) { i < |calls| && calls[i].pc == pc }

    /** The command a call sends for a part of its round trip. */
    function Sends(i: nat, part: Part): Command
      requires i < |calls|
    {
      if part.Greeting? then HANDSHAKE else calls[i].cmd
    }

    function SetPc(i: nat, pc: Pc): State
      requires i < |calls|
    {
      this.(calls := calls[i := calls[i].(pc := pc)])
    }

    function SetEpoch(e: nat, epoch: Epoch): State
      requires e < |epochs|
    {
      this.(epochs := epochs[e := epoch])
    }
  }

  const START := State(None, None, None, [], [], None, false)

  /** Everything the backend of an epoch has sent: the greeting and a frame for each answer. */
  function Stream(e: Epoch): Bytes { Conversation(e.answers) }

  datatype Step =
    | Invoke(cmd: Command)
    | Refuse(i: nat)                    // the context is already done
    | Queue(i: nat)
    | Lock(i: nat)
    | Enter(i: nat)
    | Dial(i: nat, ok: bool)
    | Send(i: nat)
    | WriteOk(i: nat)
    | WriteFail(i: nat, n: nat)         // after n bytes went out
    | Read(i: nat, n: nat)
    | ReadFail(i: nat)
    | Scan(i: nat)
    | Receive(e: nat)
    | ReceiveClosed(e: nat)
    | Timer(e: nat)
    | IdleClose(e: nat)
    | Close
    | Answer(e: nat, payload: Bytes)

  /** `closeLocked`. Closing a closed channel panics. */
  function CloseLocked(s: State): State {
    var s1 :=
      if s.conn.Some? && s.conn.value < |s.epochs| then
        s.SetEpoch(s.conn.value, s.epochs[s.conn.value].(socketOpen := false)).(conn := None)
      else s;
    var s2 :=
      if s1.keepAlive.Some? && s1.keepAlive.value < |s1.epochs| then
        var e := s1.keepAlive.value;
        s1.SetEpoch(e, s1.epochs[e].(closed := true)).(keepAlive := None,
                                                       panicked := s1.panicked || s1.epochs[e].closed)
      else s1;
    s2.(scanner := None)
  }

  /** `dialLocked`, once the socket is there. */
  function DialLocked(s: State): State {
    var e := |s.epochs|;
    s.(conn := Some(e), keepAlive := Some(e), scanner := Some(Scanner(e, "", false, 0)), epochs := s.epochs + [FRESH])
  }

  function Unlock(s: State, i: nat, pc: Pc): State
    requires i < |s.calls|
  {
    s.SetPc(i, pc).(holder := None)
  }

  function Fail(s: State, i: nat): State
    requires i < |s.calls|
  {
    Unlock(CloseLocked(s), i, Failed)
  }

  /** The scanner holds no complete line. */
  predicate NeedsInput(sc: Scanner) { LineEnd(sc.buf) == |sc.buf| && !sc.fault }

  predicate Enabled(s: State, step: Step) {
    match step
    case Invoke(_) => true
    case Refuse(i) => s.At(i, Invoked)
    case Queue(i) => s.At(i, Invoked)
    case Lock(i) => s.At(i, Waiting) && s.holder.None?
    case Enter(i) => s.At(i, Entered)
    case Dial(i, _) => s.At(i, Dialing)
    case Send(i) =>
      && i < |s.calls| && s.calls[i].pc.AtSend?
      && s.keepAlive.Some? && s.keepAlive.value < |s.epochs|
      && (s.epochs[s.keepAlive.value].tokens == 0 || s.epochs[s.keepAlive.value].closed)
    case WriteOk(i) => i < |s.calls| && s.calls[i].pc.Writing? && s.conn.Some? && s.conn.value < |s.epochs|
    case WriteFail(i, n) =>
      && i < |s.calls| && s.calls[i].pc.Writing? && s.conn.Some? && s.conn.value < |s.epochs|
      && n <= |s.Sends(i, s.calls[i].pc.part).Text()|
    case Read(i, n) =>
      && i < |s.calls| && s.calls[i].pc.Scanning? && s.scanner.Some? && NeedsInput(s.scanner.value)
      && s.scanner.value.epoch < |s.epochs|
      && var e := s.epochs[s.scanner.value.epoch]; 0 < n && e.read + n <= |Stream(e)|
    case ReadFail(i) =>
      i < |s.calls| && s.calls[i].pc.Scanning? && s.scanner.Some? && NeedsInput(s.scanner.value)
    case Scan(i) =>
      && i < |s.calls| && s.calls[i].pc.Scanning? && s.scanner.Some? && !NeedsInput(s.scanner.value)
      && s.scanner.value.epoch < |s.epochs|
    case Receive(e) => e < |s.epochs| && s.epochs[e].idler.Selecting? && s.epochs[e].tokens > 0
    case ReceiveClosed(e) =>
      e < |s.epochs| && s.epochs[e].idler.Selecting? && s.epochs[e].tokens == 0 && s.epochs[e].closed
    case Timer(e) => e < |s.epochs| && s.epochs[e].idler.Selecting?
    case IdleClose(e) => e < |s.epochs| && s.epochs[e].idler.WantsLock? && s.holder.None?
    case Close => s.holder.None?
    case Answer(e, payload) =>
      e < |s.epochs| && |s.epochs[e].answers| < |s.epochs[e].texts| && Framable(payload)
  }

  function SendToken(s: State, i: nat): State
    requires Enabled(s, Send(i))
  {
    var e := s.keepAlive.value;
    var epoch := s.epochs[e];
    if epoch.closed then s.(panicked := true)
    else s.SetEpoch(e, epoch.(tokens := epoch.tokens + 1)).SetPc(i, Writing(s.calls[i].pc.part))
  }

  function AddText(s: State, i: nat, bytes: Bytes, cut: bool): State
    requires i < |s.calls| && s.calls[i].pc.Writing? && s.conn.Some? && s.conn.value < |s.epochs|
  {
    var epoch := s.epochs[s.conn.value];
    s.SetEpoch(s.conn.value, epoch.(texts := epoch.texts + [Text(i, s.calls[i].pc.part, bytes, cut)]))
  }

  /** The end of `writeLocked`: take a token from the scanner and interpret it. */
  function ScanToken(s: State, i: nat): State
    requires Enabled(s, Scan(i))
  {
    var sc, part := s.scanner.value, s.calls[i].pc.part;
    var r := PromptSplit(sc.buf, sc.fault);
    if r.token.None? || r.token.value == "" then Fail(s, i)
    else
      var t := r.token.value;
      var s' := s.(scanner := Some(sc.(buf := sc.buf[r.advance..], taken := sc.taken + 1)));
      if part.Greeting? then s'.SetPc(i, AtSend(Main))
      else
        Unlock(s', i, Returned(ParseResponse(s.calls[i].cmd, t), t, sc.epoch, sc.taken, |sc.buf|, sc.fault))
  }

  function Apply(s: State, step: Step): State
    requires Enabled(s, step)
  {
    match step
    case Invoke(cmd) => s.(calls := s.calls + [Call(cmd, Invoked)])
    case Refuse(i) => s.SetPc(i, Failed)
    case Queue(i) => s.SetPc(i, Waiting)
    case Lock(i) => s.SetPc(i, Entered).(holder := Some(i))
    case Enter(i) => s.SetPc(i, if s.conn.None? then Dialing else AtSend(Main))
    case Dial(i, ok) => if ok then DialLocked(s).SetPc(i, AtSend(Greeting)) else Unlock(s, i, Failed)
    case Send(i) => SendToken(s, i)
    case WriteOk(i) =>
      var part := s.calls[i].pc.part;
      AddText(s, i, s.Sends(i, part).Text(), false).SetPc(i, Scanning(part))
    case WriteFail(i, n) =>
      Fail(if n == 0 then s else AddText(s, i, s.Sends(i, s.calls[i].pc.part).Text()[..n], true), i)
    case Read(i, n) =>
      var sc := s.scanner.value;
      var epoch := s.epochs[sc.epoch];
      s.SetEpoch(sc.epoch, epoch.(read := epoch.read + n)).(
        scanner := Some(sc.(buf := sc.buf + Stream(epoch)[epoch.read..epoch.read + n])))
    case ReadFail(i) => s.(scanner := Some(s.scanner.value.(fault := true)))
    case Scan(i) => ScanToken(s, i)
    case Receive(e) => s.SetEpoch(e, s.epochs[e].(tokens := s.epochs[e].tokens - 1))
    case ReceiveClosed(e) => s.SetEpoch(e, s.epochs[e].(idler := Exited))
    case Timer(e) => s.SetEpoch(e, s.epochs[e].(idler := WantsLock))
    case IdleClose(e) =>
      var s' := if s.keepAlive == Some(e) then CloseLocked(s) else s;
      s'.SetEpoch(e, s'.epochs[e].(idler := Exited))
    case Close => CloseLocked(s)
    case Answer(e, payload) => s.SetEpoch(e, s.epochs[e].(answers := s.epochs[e].answers + [payload]))
  }

  /** The state after a list of steps from s; none if some step was not enabled. */
  function AfterFrom(s: State, run: seq<Step>): Option<State>
    decreases |run|
  {
    if run == [] then Some(s)
    else if !Enabled(s, run[0]) then None
    else AfterFrom(Apply(s, run[0]), run[1..])
  }

  function After(run: seq<Step>): Option<State> { AfterFrom(START, run) }
}
