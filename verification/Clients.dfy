/**
 Several connections and direct pokes against one dummy server. The server
 handles one line at a time under its lock, against one store. What each
 connection sees of this is a run of `Registers`, so what is proved there for
 one connection holds for all of them, with one common order.
 */
module Clients {
  import opened Wrappers
  import opened Bytes
  import opened Decimal
  import opened Numbers
  import opened Commands
  import opened Responses
  import opened Dummy
  import Conn
  import ConnPairing
  import R = Registers

  /** An event and the connection it belongs to. */
  datatype Entry = Entry(client: nat, event: R.Event)

  datatype State = State(nets: seq<Conn.State>, store: Store, log: seq<Entry>)

  function Start(clients: nat): State { State(seq(clients, i => Conn.START), map[], []) }

  datatype Step =
    | Net(client: nat, step: Conn.Step)
    | Serve(client: nat, epoch: nat)
    | Poke(variable: Number, value: Number)

  predicate Enabled(s: State, step: Step) {
    match step
    case Net(c, n) => c < |s.nets| && !n.Answer? && Conn.Enabled(s.nets[c], n)
    case Serve(c, e) =>
      && c < |s.nets| && R.HasLine(s.nets[c], e)
      && LineReply(s.store, R.NextLine(R.State(s.nets[c], []), e)).Some?
    case Poke(_, _) => true
  }

  function Tag(c: nat, events: seq<R.Event>): seq<Entry> {
    seq(|events|, i requires 0 <= i < |events| => Entry(c, events[i]))
  }

  function Apply(s: State, step: Step): State
    requires Enabled(s, step)
  {
    match step
    case Net(c, n) =>
      var net := Conn.Apply(s.nets[c], n);
      s.(nets := s.nets[c := net], log := s.log + Tag(c, R.Events(s.nets[c], net, n)))
    case Serve(c, e) =>
      var line := R.NextLine(R.State(s.nets[c], []), e);
      RepliesFramable(s.store, line);
      var net := Conn.Apply(s.nets[c], Conn.Answer(e, LineReply(s.store, line).value));
      State(s.nets[c := net], LineStore(s.store, line),
            s.log + Tag(c, [R.Served(e, |s.nets[c].epochs[e].answers|, line)]))
    case Poke(n, v) => s.(store := s.store[n := v], log := s.log + [Entry(0, R.Poked(n, v))])
  }

  function AfterFrom(s: State, run: seq<Step>): (r: Option<State>)
    ensures r.Some? ==> |r.value.nets| == |s.nets|
    decreases |run|
  {
    if run == [] then Some(s)
    else if !Enabled(s, run[0]) then None
    else AfterFrom(Apply(s, run[0]), run[1..])
  }

  // ----- what one connection sees

  /** An event of another connection: only the line it brings matters. */
  function Outside(event: R.Event): R.Event {
    match event
    case Served(_, _, line) => R.Foreign(line)
    case Begun(_) => R.Foreign("")
    case Ended(_) => R.Foreign("")
    case _ => event
  }

  function ViewEntry(entry: Entry, c: nat): R.Event {
    if entry.client == c then entry.event else Outside(entry.event)
  }

  function View(log: seq<Entry>, c: nat): seq<R.Event> {
    seq(|log|, i requires 0 <= i < |log| => ViewEntry(log[i], c))
  }

  function Local(s: State, c: nat): R.State
    requires c < |s.nets|
  {
    R.State(s.nets[c], View(s.log, c))
  }

  /** The store the whole log leaves. */
  function StoreOf(log: seq<Entry>): Store {
    R.StoreOf(seq(|log|, i requires 0 <= i < |log| => log[i].event))
  }

  lemma ViewJoin(log: seq<Entry>, more: seq<Entry>, c: nat)
    ensures View(log + more, c) == View(log, c) + View(more, c)
  {
  }

  lemma StoreSnoc(log: seq<R.Event>, event: R.Event)
    ensures R.StoreOf(log + [event]) == R.StoreNext(R.StoreOf(log), event)
  {
    hide LineStore;
    assert (log + [event])[..|log|] == log;
  }

  lemma BlankStores(store: Store)
    ensures LineStore(store, "") == store
  {
    EmptyDoesNotParse();
  }

  /** Every connection finds the same store in what it sees. */
  lemma {:induction false} ViewStore(log: seq<Entry>, c: nat)
    ensures R.StoreOf(View(log, c)) == StoreOf(log)
  {
    hide LineStore;
    var events := seq(|log|, i requires 0 <= i < |log| => log[i].event);
    if log == [] {
      assert View(log, c) == events;
    } else {
      var before, last := log[..|log| - 1], log[|log| - 1];
      ViewStore(before, c);
      var was := seq(|before|, i requires 0 <= i < |before| => before[i].event);
      assert events == was + [last.event];
      assert View(log, c) == View(before, c) + [ViewEntry(last, c)];
      StoreSnoc(was, last.event);
      StoreSnoc(View(before, c), ViewEntry(last, c));
      BlankStores(StoreOf(before));
    }
  }

  ghost predicate Inv(s: State) { s.store == StoreOf(s.log) }

  /** What a step looks like to connection c: a step of its own, one outside, or nothing. */
  function Project(s: State, step: Step, c: nat): seq<R.Step>
    requires Enabled(s, step)
  {
    match step
    case Net(c', n) =>
      if c' == c then [R.Net(n)]
      else if R.Events(s.nets[c'], Conn.Apply(s.nets[c'], n), n) == [] then []
      else [R.Elsewhere("")]
    case Serve(c', e) =>
      if c' == c then [R.Serve(e)] else [R.Elsewhere(R.NextLine(R.State(s.nets[c'], []), e))]
    case Poke(n, v) => [R.Poke(n, v)]
  }

  lemma StepProjects(s: State, step: Step, c: nat)
    requires Inv(s) && Enabled(s, step) && c < |s.nets|
    ensures Inv(Apply(s, step))
    ensures R.AfterFrom(Local(s, c), Project(s, step, c)) == Some(Local(Apply(s, step), c))
  {
    ViewStore(s.log, c);
    match step {
      case Net(c', n) => NetProjects(s, c', n, c);
      case Serve(c', e) => ServeProjects(s, c', e, c);
      case Poke(n, v) => PokeProjects(s, n, v, c);
    }
  }

  lemma OneStep(s: R.State, step: R.Step)
    requires R.Enabled(s, step)
    ensures R.AfterFrom(s, [step]) == Some(R.Apply(s, step))
  {
    hide R.Enabled, R.Apply;
    assert [step][1..] == [];
  }

  lemma NetProjects(s: State, c': nat, n: Conn.Step, c: nat)
    requires Inv(s) && Enabled(s, Net(c', n)) && c < |s.nets|
    ensures Inv(Apply(s, Net(c', n)))
    ensures R.AfterFrom(Local(s, c), Project(s, Net(c', n), c)) == Some(Local(Apply(s, Net(c', n)), c))
  {
    hide Conn.Apply, Conn.Enabled, R.StoreOf, LineStore;
    var s' := Apply(s, Net(c', n));
    var events := R.Events(s.nets[c'], Conn.Apply(s.nets[c'], n), n);
    ViewJoin(s.log, Tag(c', events), c);
    LogStore(s.log, Tag(c', events));
    if c' == c {
      assert View(Tag(c', events), c) == events;
      OneStep(Local(s, c), R.Net(n));
    } else if events == [] {
      assert View(Tag(c', events), c) == [];
      assert View(s.log, c) + [] == View(s.log, c);
    } else {
      assert View(Tag(c', events), c) == [R.Foreign("")];
      OneStep(Local(s, c), R.Elsewhere(""));
    }
  }

  /** Entries that neither serve nor poke leave the store alone. */
  lemma LogStore(log: seq<Entry>, more: seq<Entry>)
    requires |more| <= 1 && forall i | 0 <= i < |more| :: more[i].event.Begun? || more[i].event.Ended?
    ensures StoreOf(log + more) == StoreOf(log)
  {
    if more == [] {
      assert log + more == log;
    } else {
      Snoc(log, more[0]);
      assert more == [more[0]];
    }
  }

  lemma Snoc(log: seq<Entry>, entry: Entry)
    ensures StoreOf(log + [entry]) == R.StoreNext(StoreOf(log), entry.event)
  {
    hide LineStore, R.StoreOf;
    var events := seq(|log|, i requires 0 <= i < |log| => log[i].event);
    var all := log + [entry];
    assert seq(|all|, i requires 0 <= i < |all| => all[i].event) == events + [entry.event];
    StoreSnoc(events, entry.event);
  }

  lemma ServeProjects(s: State, c': nat, e: nat, c: nat)
    requires Inv(s) && Enabled(s, Serve(c', e)) && c < |s.nets|
    requires R.StoreOf(View(s.log, c)) == s.store
    ensures Inv(Apply(s, Serve(c', e)))
    ensures R.AfterFrom(Local(s, c), Project(s, Serve(c', e), c)) == Some(Local(Apply(s, Serve(c', e)), c))
  {
    hide Conn.Apply, Conn.Enabled, R.StoreOf, LineStore, LineReply, R.AfterFrom;
    var line := R.NextLine(R.State(s.nets[c'], []), e);
    var event := R.Served(e, |s.nets[c'].epochs[e].answers|, line);
    assert Tag(c', [event]) == [Entry(c', event)];
    Snoc(s.log, Entry(c', event));
    ViewJoin(s.log, [Entry(c', event)], c);
    assert View([Entry(c', event)], c) == [ViewEntry(Entry(c', event), c)];
    if c' == c {
      OneStep(Local(s, c), R.Serve(e));
    } else {
      OneStep(Local(s, c), R.Elsewhere(line));
    }
  }

  lemma PokeProjects(s: State, n: Number, v: Number, c: nat)
    requires Inv(s) && c < |s.nets|
    ensures Inv(Apply(s, Poke(n, v)))
    ensures R.AfterFrom(Local(s, c), Project(s, Poke(n, v), c)) == Some(Local(Apply(s, Poke(n, v)), c))
  {
    hide R.StoreOf, LineStore;
    var entry := Entry(0, R.Poked(n, v));
    Snoc(s.log, entry);
    ViewJoin(s.log, [entry], c);
    assert View([entry], c) == [R.Poked(n, v)];
    OneStep(Local(s, c), R.Poke(n, v));
  }

  lemma {:induction false} Join(s: R.State, a: seq<R.Step>, b: seq<R.Step>)
    requires R.AfterFrom(s, a).Some?
    ensures R.AfterFrom(s, a + b) == R.AfterFrom(R.AfterFrom(s, a).value, b)
    decreases |a|
  {
    hide R.Enabled, R.Apply;
    if a == [] {
      assert a + b == b;
    } else {
      assert (a + b)[1..] == a[1..] + b;
      Join(R.Apply(s, a[0]), a[1..], b);
    }
  }

  /** Refinement: what a connection sees of any run is a run of `Registers`. */
  lemma {:induction false} RunProjects(s: State, run: seq<Step>, c: nat) returns (own: seq<R.Step>)
    requires Inv(s) && AfterFrom(s, run).Some? && c < |s.nets|
    ensures R.AfterFrom(Local(s, c), own) == Some(Local(AfterFrom(s, run).value, c))
    decreases |run|
  {
    hide Enabled, Apply, Inv, Project, R.AfterFrom;
    own := [];
    if run == [] {
      assert R.AfterFrom(Local(s, c), []) == Some(Local(s, c)) by { NoSteps(Local(s, c)); }
    } else {
      StepProjects(s, run[0], c);
      var rest := RunProjects(Apply(s, run[0]), run[1..], c);
      Join(Local(s, c), Project(s, run[0], c), rest);
      own := Project(s, run[0], c) + rest;
    }
  }

  lemma NoSteps(s: R.State)
    ensures R.AfterFrom(s, []) == Some(s)
  {
  }

  // ----- the theorems

  /** A call of this command that has returned with all of its answer. */
  predicate Answered(s: State, c: nat, i: nat, cmd: Command) {
    && c < |s.nets| && i < |s.nets[c].calls|
    && s.nets[c].calls[i].cmd == cmd && ConnPairing.Complete(s.nets[c], i)
  }

  /** What a connection sees of a run from the start is a run of its own. */
  lemma OwnRun(clients: nat, run: seq<Step>, c: nat) returns (own: seq<R.Step>)
    requires AfterFrom(Start(clients), run).Some? && c < clients
    ensures R.After(own) == Some(Local(AfterFrom(Start(clients), run).value, c))
  {
    assert Local(Start(clients), c) == R.START;
    hide AfterFrom, R.AfterFrom;
    own := RunProjects(Start(clients), run, c);
  }

  /** The text that a returned call of a connection was answered for is served here. */
  ghost predicate TakenAt(log: seq<Entry>, c: nat, pc: Conn.Pc, p: nat) {
    && p < |log| && log[p].client == c && log[p].event.Served?
    && pc.Returned? && log[p].event.epoch == pc.epoch && log[p].event.index == pc.index
  }

  /**
   Linearizability. With any number of connections and pokes in any interleaving,
   every well-formed command that returns with all of its answer takes its effect
   and gets its response at one point of the server's one lock order, where its own
   text is served, between the beginning and the end of its call.
   */
  lemma LinearizableCall(clients: nat, run: seq<Step>, c: nat, i: nat, cmd: Command)
    returns (begin: nat, point: nat, end: nat)
    requires AfterFrom(Start(clients), run).Some? && WellFormed(cmd)
             && Answered(AfterFrom(Start(clients), run).value, c, i, cmd)
    ensures var s := AfterFrom(Start(clients), run).value;
            && begin < point < end < |s.log|
            && s.log[begin] == Entry(c, R.Begun(i)) && s.log[end] == Entry(c, R.Ended(i))
            && TakenAt(s.log, c, s.nets[c].calls[i].pc, point)
            && s.nets[c].calls[i].pc.resp == ParseResponse(cmd, Reply(StoreOf(s.log[..point]), cmd))
            && StoreOf(s.log[..point + 1]) == StoreAfter(StoreOf(s.log[..point]), cmd)
  {
    var s := AfterFrom(Start(clients), run).value;
    var own := OwnRun(clients, run, c);
    hide AfterFrom, R.AfterFrom, R.After, R.StoreOf, Outside, WellFormed, Reply, StoreAfter, ParseResponse;
    begin, point, end := R.LinearizableCall(own, i);
    ViewTake(s.log, c, point);
    ViewTake(s.log, c, point + 1);
    OwnEvent(s.log, c, begin);
    OwnEvent(s.log, c, point);
    OwnEvent(s.log, c, end);
  }

  lemma ViewTake(log: seq<Entry>, c: nat, p: nat)
    requires p <= |log|
    ensures R.StoreOf(View(log, c)[..p]) == StoreOf(log[..p])
  {
    hide R.StoreOf;
    ViewStore(log[..p], c);
    assert View(log[..p], c) == View(log, c)[..p];
  }

  /** What an event stores in a variable, if anything: a poke, or a line that is a write of it. */
  function Stores(event: R.Event, v: Number): Option<Number> {
    match event
    case Poked(n, x) => if n == v then Some(x) else None
    case Served(_, _, line) => LineStores(line, v)
    case Foreign(line) => LineStores(line, v)
    case _ => None
  }

  function LineStores(line: Bytes, v: Number): Option<Number> {
    match ParseCommand(TrimSpace(line))
    case Ok(c) => if c.Write? && c.variable == v then Some(c.value) else None
    case Err(_) => None
  }

  /** Before p, nothing is stored in v. */
  ghost predicate NoneBefore(log: seq<Entry>, v: Number, p: nat) {
    p <= |log| && forall r | 0 <= r < p :: Stores(log[r].event, v).None?
  }

  /** Before p, the event at q is the last to store something in v. */
  ghost predicate LastBefore(log: seq<Entry>, v: Number, q: nat, p: nat) {
    && q < p <= |log| && Stores(log[q].event, v).Some?
    && forall r | q < r < p :: Stores(log[r].event, v).None?
  }

  lemma StoresNext(before: Store, event: R.Event, v: Number)
    ensures var after := R.StoreNext(before, event);
            if Stores(event, v).Some? then v in after && after[v] == Stores(event, v).value
            else (v in after <==> v in before) && (v in before ==> after[v] == before[v])
  {
    hide ParseCommand, TrimSpace;
  }

  /** The store holds for each variable what was stored in it last, and nothing for one in which nothing was. */
  lemma {:induction false} StoreIsLast(log: seq<Entry>, v: Number, p: nat)
    requires p <= |log|
    ensures v in StoreOf(log[..p]) <==> exists q: nat :: LastBefore(log, v, q, p)
    ensures v !in StoreOf(log[..p]) <==> NoneBefore(log, v, p)
    ensures forall q: nat | LastBefore(log, v, q, p) :: StoreOf(log[..p])[v] == Stores(log[q].event, v).value
    decreases p
  {
    hide Stores, StoreOf, LastBefore, NoneBefore;
    if p == 0 {
      EmptyStore(log, v);
    } else {
      StoreIsLast(log, v, p - 1);
      StoreStep(log, v, p);
      LastNext(log, v, p);
      if Stores(log[p - 1].event, v).Some? {
        assert LastBefore(log, v, p - 1, p);
      } else if v in StoreOf(log[..p - 1]) {
        var q: nat :| LastBefore(log, v, q, p - 1);
        assert LastBefore(log, v, q, p);
      }
    }
  }

  lemma StoreStep(log: seq<Entry>, v: Number, p: nat)
    requires 0 < p <= |log|
    ensures var was, now := StoreOf(log[..p - 1]), StoreOf(log[..p]);
            if Stores(log[p - 1].event, v).Some? then v in now && now[v] == Stores(log[p - 1].event, v).value
            else (v in now <==> v in was) && (v in was ==> now[v] == was[v])
  {
    assert log[..p] == log[..p - 1] + [log[p - 1]];
    Snoc(log[..p - 1], log[p - 1]);
    StoresNext(StoreOf(log[..p - 1]), log[p - 1].event, v);
    hide Stores, StoreOf, R.StoreNext;
  }

  /** The last event to store something, one event later. */
  lemma LastNext(log: seq<Entry>, v: Number, p: nat)
    requires 0 < p <= |log|
    ensures Stores(log[p - 1].event, v).Some? ==> forall q: nat :: LastBefore(log, v, q, p) <==> q == p - 1
    ensures Stores(log[p - 1].event, v).None?
            ==> forall q: nat :: LastBefore(log, v, q, p) <==> LastBefore(log, v, q, p - 1)
    ensures NoneBefore(log, v, p) <==> NoneBefore(log, v, p - 1) && Stores(log[p - 1].event, v).None?
  {
    hide Stores;
  }

  lemma EmptyStore(log: seq<Entry>, v: Number)
    ensures StoreOf(log[..0]) == map[] && NoneBefore(log, v, 0)
    ensures forall q: nat :: !LastBefore(log, v, q, 0)
  {
  }

  /**
   A query returns the value last stored before the point where it is served, by
   whichever connection or poke; zero if none was, and NaN for variable 0.
   */
  lemma LinearizableRegisters(clients: nat, run: seq<Step>, c: nat, i: nat, n: Int64)
    returns (begin: nat, point: nat, end: nat)
    requires AfterFrom(Start(clients), run).Some? && n >= 0
    requires Answered(AfterFrom(Start(clients), run).value, c, i, Query(Num(n, 0)))
    ensures var s := AfterFrom(Start(clients), run).value;
            && begin < point < end < |s.log|
            && s.log[begin] == Entry(c, R.Begun(i)) && s.log[end] == Entry(c, R.Ended(i))
            && TakenAt(s.log, c, s.nets[c].calls[i].pc, point)
            && var resp, before, v := s.nets[c].calls[i].pc.resp, StoreOf(s.log[..point]), Num(n, 0);
               && (n == 0 ==> resp == Value(NaN))
               && (n > 0 ==> resp == Value(if v in before then before[v] else Num(0, 0)))
               && (n > 0 && NoneBefore(s.log, v, point) ==> resp == Value(Num(0, 0)))
               && (n > 0 ==> forall q: nat | LastBefore(s.log, v, q, point) ::
                     resp == Value(Stores(s.log[q].event, v).value))
  {
    begin, point, end := LinearizableCall(clients, run, c, i, Query(Num(n, 0)));
    hide AfterFrom, StoreOf, Reply, ParseResponse;
    var log := AfterFrom(Start(clients), run).value.log;
    QueryReads(StoreOf(log[..point]), n);
    StoreIsLast(log, Num(n, 0), point);
  }

  /** A write that returns with all of its answer succeeds, and stores its value at such a point. */
  lemma LinearizableWrites(clients: nat, run: seq<Step>, c: nat, i: nat, v: Number, x: Number)
    returns (begin: nat, point: nat, end: nat)
    requires AfterFrom(Start(clients), run).Some? && WellFormed(Write(v, x))
    requires Answered(AfterFrom(Start(clients), run).value, c, i, Write(v, x))
    ensures var s := AfterFrom(Start(clients), run).value;
            && begin < point < end < |s.log|
            && s.log[begin] == Entry(c, R.Begun(i)) && s.log[end] == Entry(c, R.Ended(i))
            && TakenAt(s.log, c, s.nets[c].calls[i].pc, point)
            && s.nets[c].calls[i].pc.resp == Opaque("!", true)
            && StoreOf(s.log[..point + 1]) == StoreOf(s.log[..point])[v := x]
  {
    begin, point, end := LinearizableCall(clients, run, c, i, Write(v, x));
  }

  /** A call has one beginning and at most one end in the common log. */
  lemma MarkedOnce(clients: nat, run: seq<Step>, p: nat, q: nat)
    requires AfterFrom(Start(clients), run).Some?
    requires var log := AfterFrom(Start(clients), run).value.log;
             && p < |log| && q < |log| && log[p] == log[q] && log[p].client < clients
             && (log[p].event.Begun? || log[p].event.Ended?)
    ensures p == q
  {
    var log := AfterFrom(Start(clients), run).value.log;
    var own := OwnRun(clients, run, log[p].client);
    hide AfterFrom, R.After;
    R.MarkedOnce(own, p, q);
  }

  /**
   A call of any connection, failed or not, takes effect at most once: its main text
   is served in one place at most.
   */
  lemma EffectAtMostOnce(clients: nat, run: seq<Step>, c: nat, p: nat, q: nat)
    requires AfterFrom(Start(clients), run).Some? && c < clients
    requires var log := AfterFrom(Start(clients), run).value.log;
             && p < |log| && q < |log| && log[p].client == c && log[q].client == c
             && log[p].event.Served? && log[q].event.Served?
    ensures var s := AfterFrom(Start(clients), run).value;
            var net, a, b := s.nets[c], s.log[p].event, s.log[q].event;
            && a.epoch < |net.epochs| && a.index < |net.epochs[a.epoch].texts|
            && b.epoch < |net.epochs| && b.index < |net.epochs[b.epoch].texts|
            && var t, u := net.epochs[a.epoch].texts[a.index], net.epochs[b.epoch].texts[b.index];
               t.call == u.call && t.part == u.part ==> p == q
  {
    var own := OwnRun(clients, run, c);
    hide AfterFrom, R.After;
    R.EffectAtMostOnce(own, p, q);
  }

  // ----- what a query sees of a write before it

  /** The event at q gives variable v the value y; after it nothing changes v before p. */
  ghost predicate LastStored(log: seq<Entry>, v: Number, y: Number, q: nat, p: nat) {
    && q < p <= |log|
    && v in StoreOf(log[..q + 1]) && StoreOf(log[..q + 1])[v] == y
    && forall r | q < r <= p :: v in StoreOf(log[..r]) && StoreOf(log[..r])[v] == y
  }

  /**
   The write at w gives v the value x, and y, the value at p, is that one or the one
   of a later store: it comes from the last store of v before p, at q.
   */
  ghost predicate FromWrite(log: seq<Entry>, v: Number, x: Number, y: Number, w: nat, q: nat, p: nat) {
    && w <= q < p <= |log| && StoreOf(log[..w + 1]) == StoreOf(log[..w])[v := x]
    && LastStored(log, v, y, q, p)
    && (if q == w then y == x else v !in StoreOf(log[..q]) || StoreOf(log[..q])[v] != y)
  }

  /** From a point where v has a value, the last change of v before p is the one its value at p comes from. */
  lemma {:induction false} FindLast(log: seq<Entry>, v: Number, w: nat, p: nat) returns (q: nat)
    requires w < p <= |log| && v in StoreOf(log[..w + 1])
    ensures w <= q < p && v in StoreOf(log[..p]) && LastStored(log, v, StoreOf(log[..p])[v], q, p)
    ensures q == w || v !in StoreOf(log[..q]) || StoreOf(log[..q])[v] != StoreOf(log[..p])[v]
    decreases p - w
  {
    hide StoreOf;
    if p == w + 1 {
      q := w;
    } else {
      q := FindLast(log, v, w, p - 1);
      StoreGrows(log, p - 1, v);
      if StoreOf(log[..p])[v] != StoreOf(log[..p - 1])[v] { q := p - 1; }
    }
  }

  /** No event removes a variable. */
  lemma StoreGrows(log: seq<Entry>, p: nat, v: Number)
    requires p < |log| && v in StoreOf(log[..p])
    ensures v in StoreOf(log[..p + 1])
  {
    assert log[..p + 1] == log[..p] + [log[p]];
    Snoc(log[..p], log[p]);
    hide StoreOf, ParseCommand;
  }

  /**
   Reads see writes. If a write of a positive integer variable has returned
   with all of its answer before a query of it begins, on whatever connections, the
   query returns the value of that write, at w where it is served, or of a store
   after it: of the last store before p, where the query is served.
   */
  lemma QuerySeesWrite(clients: nat, run: seq<Step>, cw: nat, i: nat, n: Int64, x: Number, cq: nat, j: nat, ended: nat,
                       begun: nat)
    returns (w: nat, q: nat, p: nat)
    requires AfterFrom(Start(clients), run).Some? && n > 0 && x.Num?
    requires var s := AfterFrom(Start(clients), run).value;
             && Answered(s, cw, i, Write(Num(n, 0), x)) && Answered(s, cq, j, Query(Num(n, 0)))
             && ended < begun < |s.log| && s.log[ended] == Entry(cw, R.Ended(i))
               && s.log[begun] == Entry(cq, R.Begun(j))
    ensures var s, v := AfterFrom(Start(clients), run).value, Num(n, 0);
            && w < ended && begun < p
            && TakenAt(s.log, cw, s.nets[cw].calls[i].pc, w) && TakenAt(s.log, cq, s.nets[cq].calls[j].pc, p)
            && s.nets[cq].calls[j].pc.resp.Value?
            && FromWrite(s.log, v, x, s.nets[cq].calls[j].pc.resp.value, w, q, p)
  {
    var s, v := AfterFrom(Start(clients), run).value, Num(n, 0);
    var b1, w1, e1 := LinearizableWrites(clients, run, cw, i, v, x);
    var b2, p2, e2 := LinearizableRegisters(clients, run, cq, j, n);
    hide AfterFrom, StoreOf, Start, LastStored;
    MarkedOnce(clients, run, e1, ended);
    MarkedOnce(clients, run, b2, begun);
    w, p := w1, p2;
    q := FindLast(s.log, v, w, p);
  }

  /** Only a connection's own calls begin, are served and end in what it sees. */
  lemma OwnEvent(log: seq<Entry>, c: nat, p: nat)
    requires p < |log| && (View(log, c)[p].Begun? || View(log, c)[p].Served? || View(log, c)[p].Ended?)
    ensures log[p] == Entry(c, View(log, c)[p])
  {
  }

  /** The server's store is the one its log leaves, so the order of the log is the order of the lock. */
  lemma {:induction false} StoreIsLogged(s: State, run: seq<Step>)
    requires s.store == StoreOf(s.log) && AfterFrom(s, run).Some? && |s.nets| > 0
    ensures var s' := AfterFrom(s, run).value; s'.store == StoreOf(s'.log)
    decreases |run|
  {
    hide Enabled, Apply, StoreOf;
    if run != [] {
      StepProjects(s, run[0], 0);
      StoreIsLogged(Apply(s, run[0]), run[1..]);
    }
  }
}
