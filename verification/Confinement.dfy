/**
 Write confinement, end to end. The whole program as one system of steps: any
 number of clients, a proxy whose routes are refilled by configurations at any
 time, one shared connection per backend object, and behind every host a dummy
 machine that only the proxy writes to.
 */
module Confinement {
  import opened Wrappers
  import opened Bytes
  import opened Numbers
  import opened Commands
  import opened Policies
  import opened Wire
  import opened Dummy
  import opened Truncation
  import Conn
  import ConnPairing
  import R = Registers
  import P = Reconfigure

  /** A configuration: base policies, and a policy map for each target host. */
  datatype Settings = Settings(base: map<Prefix, Policy>, targets: map<string, map<Prefix, Policy>>)

  /**
   One look-up of a client: its listener, the route object found for it, the
   connection read from that object, and the moments of the two reads.
   */
  datatype Visit = Visit(listener: P.Listener, route: nat, backend: nat, found: nat, picked: nat)

  /** How a call came to a connection: the client's line, the look-up, and the policy that let it pass. */
  datatype Gate = Gate(line: Bytes, client: Addr, visit: Visit, list: seq<OrderedPolicy>, policy: Policy)

  /** A connection object, with the gate of each of its calls. */
  datatype Backend = Backend(host: string, net: Conn.State, gates: seq<Gate>)

  /** What a route object holds. */
  datatype Route = Route(backend: nat, list: seq<OrderedPolicy>)

  datatype Pc =
    | Reading
    | Parsed(line: Bytes, cmd: Command)
    | Routed(line: Bytes, cmd: Command, route: nat, found: nat)     // the route object has been found
    | Picked(line: Bytes, cmd: Command, visit: Visit, list: seq<OrderedPolicy>, policy: Policy)
    | Busy(backend: nat, call: nat)
    | Gone

  datatype Client = Client(listener: P.Listener, addr: Addr, pc: Pc)

  /** The routes and the table at some moment. */
  datatype Moment = Moment(routes: seq<Route>, table: map<P.Listener, nat>)

  datatype State = State(
    settings: seq<Settings>,        // the configurations taken up so far
    backends: seq<Backend>,
    stores: map<string, Store>,     // of the machine at each host
    routes: seq<Route>,             // route objects
    table: map<P.Listener, nat>,           // the route object of each listener
    past: seq<Moment>,              // every value these two have had, up to now
    clients: seq<Client>)

  function StoreAt(s: State, h: string): Store { if h in s.stores then s.stores[h] else map[] }

  const START := State([], [], map[], [], map[], [Moment([], map[])], [])

  datatype Step =
    | Configure(settings: Settings)
    | NewBackend(host: string)
    | NewRoute(listener: P.Listener, fill: Route)
    | Refill(route: nat, fill: Route)
    | Publish(table: map<P.Listener, nat>)
    | Accept(listener: P.Listener, addr: Addr)
    | Message(c: nat, line: Bytes)
    | FindRoute(c: nat)
    | Pick(c: nat)
    | Judge(c: nat)
    | Resume(c: nat)
    | Leave(c: nat)
    | Net(b: nat, step: Conn.Step)
    | Serve(b: nat, epoch: nat)

  /** The policy list is that of host h in some configuration taken up. */
  ghost predicate Listed(s: State, h: string, list: seq<OrderedPolicy>) {
    exists k: nat | k < |s.settings| && h in s.settings[k].targets :: ExpandsFor(s.settings[k], h, list)
  }

  ghost predicate ExpandsFor(settings: Settings, h: string, list: seq<OrderedPolicy>)
    requires h in settings.targets
  {
    IsExpansion(settings.base, settings.targets[h], list)
  }

  /** A route is only ever filled with a connection and the policies of the same host. */
  ghost predicate LawfulFill(s: State, fill: Route) {
    fill.backend < |s.backends| && Listed(s, s.backends[fill.backend].host, fill.list)
  }

  ghost predicate Enabled(s: State, step: Step) {
    match step
    case Configure(_) => true
    case NewBackend(_) => true
    case NewRoute(_, fill) => LawfulFill(s, fill)
    case Refill(r, fill) => r < |s.routes| && LawfulFill(s, fill)
    case Publish(table) => forall l | l in table :: table[l] < |s.routes|
    case Accept(_, _) => true
    case Message(c, line) => c < |s.clients| && s.clients[c].pc.Reading? && ParseCommand(line).Ok?
    case FindRoute(c) => s.past != [] && c < |s.clients| && s.clients[c].pc.Parsed? && s.clients[c].listener in s.table
    case Pick(c) =>
      && s.past != [] && c < |s.clients| && s.clients[c].pc.Routed? && s.clients[c].pc.route < |s.routes|
      && Lookup(s.routes[s.clients[c].pc.route].list, s.clients[c].addr).Some?
    case Judge(c) => c < |s.clients| && s.clients[c].pc.Picked? && s.clients[c].pc.visit.backend < |s.backends|
    case Resume(c) =>
      && c < |s.clients| && s.clients[c].pc.Busy? && s.clients[c].pc.backend < |s.backends|
      && s.clients[c].pc.call < |s.backends[s.clients[c].pc.backend].net.calls|
      && Conn.Over(s.backends[s.clients[c].pc.backend].net.calls[s.clients[c].pc.call].pc)
    case Leave(c) => c < |s.clients|
    case Net(b, n) => b < |s.backends| && !n.Answer? && !n.Invoke? && Conn.Enabled(s.backends[b].net, n)
    case Serve(b, e) =>
      && b < |s.backends| && R.HasLine(s.backends[b].net, e)
      && LineReply(StoreAt(s, s.backends[b].host), NextLine(s, b, e)).Some?
  }

  /** The line the machine takes next from an epoch of a connection. */
  function NextLine(s: State, b: nat, e: nat): Bytes
    requires b < |s.backends| && R.HasLine(s.backends[b].net, e)
  {
    R.NextLine(R.State(s.backends[b].net, []), e)
  }

  function SetPc(s: State, c: nat, pc: Pc): State
    requires c < |s.clients|
  {
    s.(clients := s.clients[c := s.clients[c].(pc := pc)])
  }

  function SetNet(s: State, b: nat, net: Conn.State): State
    requires b < |s.backends|
  {
    s.(backends := s.backends[b := s.backends[b].(net := net)])
  }

  function Remember(s: State): State { s.(past := s.past + [Moment(s.routes, s.table)]) }

  /** The gate: a denied command goes nowhere, an allowed one becomes a call of the connection picked. */
  function JudgeStep(s: State, c: nat): State
    requires Enabled(s, Judge(c))
  {
    var Picked(line, cmd, visit, list, policy) := s.clients[c].pc;
    if !Allowed(policy, cmd) then SetPc(s, c, Reading)
    else
      var b := visit.backend;
      var backend := s.backends[b];
      var s' := s.(backends := s.backends[b := backend.(
        net := Conn.Apply(backend.net, Conn.Invoke(cmd)),
        gates := backend.gates + [Gate(line, s.clients[c].addr, visit, list, policy)])]);
      SetPc(s', c, Busy(b, |backend.net.calls|))
  }

  function ServeStep(s: State, b: nat, e: nat): State
    requires Enabled(s, Serve(b, e))
  {
    var h := s.backends[b].host;
    var line := NextLine(s, b, e);
    RepliesFramable(StoreAt(s, h), line);
    SetNet(s, b, Conn.Apply(s.backends[b].net, Conn.Answer(e, LineReply(StoreAt(s, h), line).value))).(
      stores := s.stores[h := LineStore(StoreAt(s, h), line)])
  }

  function Apply(s: State, step: Step): State
    requires Enabled(s, step)
  {
    match step
    case Configure(settings) => s.(settings := s.settings + [settings])
    case NewBackend(h) => s.(backends := s.backends + [Backend(h, Conn.START, [])])
    case NewRoute(l, fill) => Remember(s.(routes := s.routes + [fill], table := s.table[l := |s.routes|]))
    case Refill(r, fill) => Remember(s.(routes := s.routes[r := fill]))
    case Publish(table) => Remember(s.(table := table))
    case Accept(l, a) => s.(clients := s.clients + [Client(l, a, Reading)])
    case Message(c, line) => SetPc(s, c, Parsed(line, ParseCommand(line).value))
    case FindRoute(c) =>
      SetPc(s, c, Routed(s.clients[c].pc.line, s.clients[c].pc.cmd, s.table[s.clients[c].listener], |s.past| - 1))
    case Pick(c) =>
      var pc := s.clients[c].pc;
      var route := s.routes[pc.route];
      var visit := Visit(s.clients[c].listener, pc.route, route.backend, pc.found, |s.past| - 1);
      SetPc(s, c, Picked(pc.line, pc.cmd, visit, route.list, Lookup(route.list, s.clients[c].addr).value))
    case Judge(c) => JudgeStep(s, c)
    case Resume(c) => SetPc(s, c, Reading)
    case Leave(c) => SetPc(s, c, Gone)
    case Net(b, n) => SetNet(s, b, Conn.Apply(s.backends[b].net, n))
    case Serve(b, e) => ServeStep(s, b, e)
  }

  ghost function AfterFrom(s: State, run: seq<Step>): Option<State>
    decreases |run|
  {
    if run == [] then Some(s)
    else if !Enabled(s, run[0]) then None
    else AfterFrom(Apply(s, run[0]), run[1..])
  }

  ghost function After(run: seq<Step>): Option<State> { AfterFrom(START, run) }

  // ----- the invariant

  /**
   A look-up that took place: at one moment the table had this route object for
   the listener, and at a moment not before it the object held this connection
   and this list, together.
   */
  ghost predicate LookedUp(past: seq<Moment>, v: Visit, list: seq<OrderedPolicy>) {
    && v.found <= v.picked < |past|
    && FoundAt(past, v.listener, v.route, v.found)
    && v.route < |past[v.picked].routes| && past[v.picked].routes[v.route] == Route(v.backend, list)
  }

  ghost predicate FoundAt(past: seq<Moment>, listener: P.Listener, route: nat, found: nat) {
    found < |past| && listener in past[found].table && past[found].table[listener] == route
  }

  /**
   A gate that was passed lawfully: the command is the parse of the client's
   line, the list and the connection were looked up together in the route of the
   client's listener, the list is that of the host in some configuration taken
   up, the policy is the one the list selects for the client, and it allows the
   command.
   */
  ghost predicate GateOk(s: State, h: string, gate: Gate, cmd: Command) {
    && ParseCommand(gate.line) == Ok(cmd)
    && LookedUp(s.past, gate.visit, gate.list)
    && Listed(s, h, gate.list) && Lookup(gate.list, gate.client) == Some(gate.policy)
    && Allowed(gate.policy, cmd)
  }

  ghost predicate BackendOk(s: State, b: Backend) {
    && ConnPairing.Inv(b.net) && |b.gates| == |b.net.calls|
    && forall i | 0 <= i < |b.gates| :: GateOk(s, b.host, b.gates[i], b.net.calls[i].cmd)
  }

  ghost predicate ClientOk(s: State, c: Client) {
    match c.pc
    case Parsed(line, cmd) => ParseCommand(line) == Ok(cmd)
    case Routed(line, cmd, route, found) => ParseCommand(line) == Ok(cmd) && FoundAt(s.past, c.listener, route, found)
    case Picked(line, cmd, visit, list, policy) =>
      && ParseCommand(line) == Ok(cmd) && visit.backend < |s.backends| && LookedUp(s.past, visit, list)
      && Listed(s, s.backends[visit.backend].host, list) && Lookup(list, c.addr) == Some(policy)
    case _ => true
  }

  ghost predicate Inv(s: State) {
    && (forall b | 0 <= b < |s.backends| :: BackendOk(s, s.backends[b]))
    && (forall r | 0 <= r < |s.routes| :: LawfulFill(s, s.routes[r]))
    && (forall c | 0 <= c < |s.clients| :: ClientOk(s, s.clients[c]))
    && s.past != [] && s.past[|s.past| - 1] == Moment(s.routes, s.table)
    && Owned(s)
  }

  /** A gate belongs to the connection that was looked up. */
  ghost predicate Owned(s: State) {
    forall b: nat | b < |s.backends| :: OwnedBy(s.backends[b], b)
  }

  ghost predicate OwnedBy(backend: Backend, b: nat) {
    forall i | 0 <= i < |backend.gates| :: backend.gates[i].visit.backend == b
  }

  /** Configurations, moments and hosts of connections are never forgotten. */
  ghost predicate Later(s: State, s': State) {
    && s.settings <= s'.settings && s.past <= s'.past && |s.backends| <= |s'.backends|
    && forall b | 0 <= b < |s.backends| :: s'.backends[b].host == s.backends[b].host
  }

  lemma ListedLater(s: State, s': State, h: string, list: seq<OrderedPolicy>)
    requires Listed(s, h, list) && s.settings <= s'.settings
    ensures Listed(s', h, list)
  {
    hide IsExpansion;
    var k: nat :| k < |s.settings| && h in s.settings[k].targets && ExpandsFor(s.settings[k], h, list);
    assert s'.settings[k] == s.settings[k];
  }

  lemma LookedUpLater(past: seq<Moment>, past': seq<Moment>, v: Visit, list: seq<OrderedPolicy>)
    requires LookedUp(past, v, list) && past <= past'
    ensures LookedUp(past', v, list)
  {
    assert past'[v.found] == past[v.found] && past'[v.picked] == past[v.picked];
  }

  lemma BackendLater(s: State, s': State, b: Backend)
    requires BackendOk(s, b) && s.settings <= s'.settings && s.past <= s'.past
    ensures BackendOk(s', b)
  {
    hide Listed, ConnPairing.Inv, ParseCommand, Allowed, Lookup, LookedUp;
    forall i | 0 <= i < |b.gates| ensures GateOk(s', b.host, b.gates[i], b.net.calls[i].cmd) {
      ListedLater(s, s', b.host, b.gates[i].list);
      LookedUpLater(s.past, s'.past, b.gates[i].visit, b.gates[i].list);
    }
  }

  lemma ClientLater(s: State, s': State, c: Client)
    requires ClientOk(s, c) && Later(s, s')
    ensures ClientOk(s', c)
  {
    hide Listed, ParseCommand, Lookup, LookedUp;
    if c.pc.Picked? {
      ListedLater(s, s', s.backends[c.pc.visit.backend].host, c.pc.list);
      LookedUpLater(s.past, s'.past, c.pc.visit, c.pc.list);
    }
  }

  lemma FillLater(s: State, s': State, fill: Route)
    requires LawfulFill(s, fill) && Later(s, s')
    ensures LawfulFill(s', fill)
  {
    hide Listed;
    ListedLater(s, s', s.backends[fill.backend].host, fill.list);
  }

  /** What is not touched stays lawful. */
  lemma Kept(s: State, s': State)
    requires Inv(s) && Later(s, s')
    ensures forall b | 0 <= b < |s.backends| :: BackendOk(s', s.backends[b])
    ensures forall r | 0 <= r < |s.routes| :: LawfulFill(s', s.routes[r])
    ensures forall c | 0 <= c < |s.clients| :: ClientOk(s', s.clients[c])
  {
    hide BackendOk, LawfulFill, ClientOk;
    forall b | 0 <= b < |s.backends| ensures BackendOk(s', s.backends[b]) { BackendLater(s, s', s.backends[b]); }
    forall r | 0 <= r < |s.routes| ensures LawfulFill(s', s.routes[r]) { FillLater(s, s', s.routes[r]); }
    forall c | 0 <= c < |s.clients| ensures ClientOk(s', s.clients[c]) { ClientLater(s, s', s.clients[c]); }
  }

  lemma StepInv(s: State, step: Step)
    requires Inv(s) && Enabled(s, step)
    ensures Inv(Apply(s, step))
  {
    match step {
      case Net(b, n) => NetInv(s, b, n);
      case Serve(b, e) => ServeInv(s, b, e);
      case Judge(c) => JudgeInv(s, c);
      case _ => OtherInv(s, step);
    }
  }

  lemma OtherInv(s: State, step: Step)
    requires Inv(s) && Enabled(s, step) && !step.Net? && !step.Serve? && !step.Judge?
    ensures Inv(Apply(s, step))
  {
    hide BackendOk, Listed, ParseCommand, Lookup, ConnPairing.Inv;
    var s' := Apply(s, step);
    Kept(s, s');
    if step.NewBackend? { FreshBackend(s', step.host); }
    if step.NewRoute? || step.Refill? { FillLater(s, s', step.fill); }
    if step.Pick? { FillLater(s, s', s.routes[s.clients[step.c].pc.route]); }
  }

  lemma FreshBackend(s: State, h: string)
    ensures BackendOk(s, Backend(h, Conn.START, []))
  {
    ConnPairing.StartInv();
  }

  /** A new state of one connection, with all its gates lawful. */
  lemma BackendStep(s: State, s': State, b: nat, backend: Backend)
    requires Inv(s) && b < |s.backends| && backend.host == s.backends[b].host && BackendOk(s', backend)
    requires s'.backends == s.backends[b := backend] && backend.gates == s.backends[b].gates
             && s'.settings == s.settings
    requires s'.routes == s.routes && s'.table == s.table && s'.past == s.past && s'.clients == s.clients
    ensures Inv(s')
  {
    hide BackendOk, LawfulFill, ClientOk;
    Kept(s, s');
  }

  /** Calls are only added, and keep their commands. */
  ghost predicate CallsKept(net: Conn.State, net': Conn.State) {
    && |net.calls| <= |net'.calls|
    && forall i | 0 <= i < |net.calls| :: net'.calls[i].cmd == net.calls[i].cmd
  }

  lemma StepKeepsCalls(net: Conn.State, n: Conn.Step)
    requires ConnPairing.Inv(net) && Conn.Enabled(net, n)
    ensures CallsKept(net, Conn.Apply(net, n))
  {
    ConnPairing.CallsMonotone(net, n);
    hide Conn.Apply, Conn.Enabled, ConnPairing.Inv;
  }

  /** A connection moves on without a new call: its gates stay lawful. */
  lemma BackendMoves(s: State, s': State, was: Backend, net: Conn.State)
    requires BackendOk(s, was) && s.settings <= s'.settings && s.past <= s'.past
    requires ConnPairing.Inv(net) && CallsKept(was.net, net) && |net.calls| == |was.net.calls|
    ensures BackendOk(s', was.(net := net))
  {
    hide ConnPairing.Inv, GateOk;
    forall i | 0 <= i < |was.gates| ensures GateOk(s', was.host, was.gates[i], net.calls[i].cmd) {
      SameSettings(s, s', was.host, was.gates[i], was.net.calls[i].cmd);
    }
  }

  lemma StepWithoutCall(net: Conn.State, n: Conn.Step)
    requires ConnPairing.Inv(net) && Conn.Enabled(net, n) && !n.Invoke?
    ensures |Conn.Apply(net, n).calls| == |net.calls|
  {
    ConnPairing.CallEffect(net, n);
  }

  lemma NetInv(s: State, b: nat, n: Conn.Step)
    requires Inv(s) && Enabled(s, Net(b, n))
    ensures Inv(Apply(s, Net(b, n)))
  {
    var s', was := Apply(s, Net(b, n)), s.backends[b];
    assert BackendOk(s, was);
    hide Conn.Apply, Conn.Enabled, ConnPairing.Inv, LawfulFill, ClientOk, CallsKept, Inv;
    ConnPairing.StepInv(was.net, n);
    StepWithoutCall(was.net, n);
    StepKeepsCalls(was.net, n);
    BackendMoves(s, s', was, s'.backends[b].net);
    hide BackendOk;
    BackendStep(s, s', b, s'.backends[b]);
  }

  lemma SameSettings(s: State, s': State, h: string, gate: Gate, cmd: Command)
    requires GateOk(s, h, gate, cmd) && s.settings <= s'.settings && s.past <= s'.past
    ensures GateOk(s', h, gate, cmd)
  {
    hide Listed, ParseCommand, Allowed, Lookup, LookedUp;
    ListedLater(s, s', h, gate.list);
    LookedUpLater(s.past, s'.past, gate.visit, gate.list);
  }

  lemma ServeInv(s: State, b: nat, e: nat)
    requires Inv(s) && Enabled(s, Serve(b, e))
    ensures Inv(Apply(s, Serve(b, e)))
  {
    var s', was, h := Apply(s, Serve(b, e)), s.backends[b], s.backends[b].host;
    assert BackendOk(s, was);
    hide Conn.Apply, ConnPairing.Inv, LawfulFill, ClientOk, LineReply, LineStore, StoreAt, CallsKept, Inv, Framable;
    RepliesFramable(StoreAt(s, h), NextLine(s, b, e));
    var answer := Conn.Answer(e, LineReply(StoreAt(s, h), NextLine(s, b, e)).value);
    ConnPairing.StepInv(was.net, answer);
    StepWithoutCall(was.net, answer);
    StepKeepsCalls(was.net, answer);
    BackendMoves(s, s', was, s'.backends[b].net);
    hide BackendOk;
    BackendStep(s, s', b, s'.backends[b]);
  }

  lemma JudgeInv(s: State, c: nat)
    requires Inv(s) && Enabled(s, Judge(c))
    ensures Inv(Apply(s, Judge(c)))
  {
    var s', b := Apply(s, Judge(c)), s.clients[c].pc.visit.backend;
    JudgeEffect(s, c);
    if Allowed(s.clients[c].pc.policy, s.clients[c].pc.cmd) {
      InvokeInv(s, c);
    } else {
      BackendLater(s, s', s.backends[b]);
    }
    assert OwnedBy(s.backends[b], b);
    hide BackendOk, LawfulFill, Inv, Apply, Enabled, Allowed;
    JudgeKeeps(s, s', c, b);
  }

  /** A client is back at reading or waits for a call, and one connection has moved on. */
  lemma JudgeKeeps(s: State, s': State, c: nat, b: nat)
    requires Inv(s) && Later(s, s') && s'.routes == s.routes && c < |s.clients| == |s'.clients|
             && b < |s.backends| == |s'.backends|
    requires s'.clients[c].pc.Reading? || s'.clients[c].pc.Busy?
    requires forall d | 0 <= d < |s.clients| && d != c :: s'.clients[d] == s.clients[d]
    requires forall d | 0 <= d < |s.backends| && d != b :: s'.backends[d] == s.backends[d]
    requires s'.table == s.table && s'.past == s.past
    requires BackendOk(s', s'.backends[b]) && OwnedBy(s'.backends[b], b)
    ensures Inv(s')
  {
    hide BackendOk, LawfulFill, ParseCommand, Lookup, Listed;
    Kept(s, s');
  }

  lemma JudgeEffect(s: State, c: nat)
    requires Enabled(s, Judge(c))
    ensures var s', pc := Apply(s, Judge(c)), s.clients[c].pc;
            && s'.settings == s.settings && s'.routes == s.routes && s'.table == s.table && s'.past == s.past
            && |s'.clients| == |s.clients| && (s'.clients[c].pc.Reading? || s'.clients[c].pc.Busy?)
            && (forall d | 0 <= d < |s.clients| && d != c :: s'.clients[d] == s.clients[d])
            && |s'.backends| == |s.backends|
            && (forall b | 0 <= b < |s.backends| ::
                  if b == pc.visit.backend && Allowed(pc.policy, pc.cmd) then
                    s'.backends[b] == Backend(s.backends[b].host, Conn.Apply(s.backends[b].net, Conn.Invoke(pc.cmd)),
                                              s.backends[b].gates + [Gate(pc.line, s.clients[c].addr, pc.visit, pc.list,
                                                pc.policy)])
                  else s'.backends[b] == s.backends[b])
  {
    hide Conn.Apply, Allowed;
  }

  /** The call made by the gate carries the gate's own record. */
  lemma InvokeInv(s: State, c: nat)
    requires Inv(s) && Enabled(s, Judge(c)) && Allowed(s.clients[c].pc.policy, s.clients[c].pc.cmd)
    ensures BackendOk(Apply(s, Judge(c)), Apply(s, Judge(c)).backends[s.clients[c].pc.visit.backend])
  {
    var s', pc := Apply(s, Judge(c)), s.clients[c].pc;
    var was := s.backends[pc.visit.backend];
    ConnPairing.StepInv(was.net, Conn.Invoke(pc.cmd));
    ConnPairing.CallEffect(was.net, Conn.Invoke(pc.cmd));
    assert ClientOk(s, s.clients[c]);
    var now := s'.backends[pc.visit.backend];
    hide Conn.Apply, Conn.Enabled, ConnPairing.Inv, ParseCommand, Lookup, Allowed, Listed, LawfulFill;
    ListedLater(s, s', was.host, pc.list);
    forall i | 0 <= i < |now.gates| ensures GateOk(s', now.host, now.gates[i], now.net.calls[i].cmd) {
      if i < |was.gates| {
        assert GateOk(s, was.host, was.gates[i], was.net.calls[i].cmd);
        SameSettings(s, s', was.host, was.gates[i], was.net.calls[i].cmd);
      }
    }
  }

  lemma {:induction false} RunInv(s: State, run: seq<Step>)
    requires Inv(s) && AfterFrom(s, run).Some?
    ensures Inv(AfterFrom(s, run).value)
    decreases |run|
  {
    hide Inv, Apply, Enabled;
    if run != [] {
      StepInv(s, run[0]);
      RunInv(Apply(s, run[0]), run[1..]);
    }
  }

  // ----- the theorems

  /**
   A call of a connection to host h that writes variable n, and whose gate, found
   together with this very connection, allowed it by a listed range.
   */
  ghost predicate Justified(s: State, h: string, n: Number, b: nat, i: nat) {
    && b < |s.backends| && s.backends[b].host == h
    && i < |s.backends[b].net.calls| && i < |s.backends[b].gates|
    && var cmd, gate := s.backends[b].net.calls[i].cmd, s.backends[b].gates[i];
       && cmd.Write? && cmd.variable == n && GateOk(s, h, gate, cmd) && gate.visit.backend == b
       && exists r | r in gate.policy.allowWrites :: r.0 <= n.Whole() <= r.1
  }

  /** The text the machine takes next. */
  function NextText(s: State, b: nat, e: nat): Conn.Text
    requires b < |s.backends| && R.HasLine(s.backends[b].net, e)
  {
    s.backends[b].net.epochs[e].texts[|s.backends[b].net.epochs[e].answers|]
  }

  /** The command the text belongs to, and how much of it there is. */
  lemma TextOf(s: State, b: nat, e: nat) returns (c: Command, n: nat)
    requires Inv(s) && b < |s.backends| && R.HasLine(s.backends[b].net, e)
    ensures var t := NextText(s, b, e);
            && t.call < |s.backends[b].net.calls| == |s.backends[b].gates|
              && c == s.backends[b].net.Sends(t.call, t.part)
            && n == |t.bytes| <= |c.Text()| && (!t.cut ==> n == |c.Text()|)
              && NextLine(s, b, e) == LineOf(c.Text()[..n])
    ensures WellFormed(c)
  {
    var net := s.backends[b].net;
    var k := |net.epochs[e].answers|;
    assert BackendOk(s, s.backends[b]) && ConnPairing.TextOk(net, e, k);
    var t := net.epochs[e].texts[k];
    hide Command.Text, LineOf, ConnPairing.Inv, Listed, Lookup, Allowed, ParseCommand;
    c, n := net.Sends(t.call, t.part), |t.bytes|;
    assert c.Text()[..n] == t.bytes;
    if t.part.Main? {
      assert GateOk(s, s.backends[b].host, s.backends[b].gates[t.call], c);
      ParsedIsWellFormed(s.backends[b].gates[t.call].line);
    }
  }

  /** A gated write has a range. */
  lemma GateJustifies(s: State, b: nat, i: nat)
    requires Inv(s) && b < |s.backends| && i < |s.backends[b].net.calls| && s.backends[b].net.calls[i].cmd.Write?
    ensures Justified(s, s.backends[b].host, s.backends[b].net.calls[i].cmd.variable, b, i)
  {
    hide ConnPairing.Inv, Listed, Lookup, Allowed, ParseCommand, LawfulFill, ClientOk;
    var cmd := s.backends[b].net.calls[i].cmd;
    assert BackendOk(s, s.backends[b]) && OwnedBy(s.backends[b], b)
           && GateOk(s, s.backends[b].host, s.backends[b].gates[i], cmd);
    WritesNeedARange(s.backends[b].gates[i].policy, cmd.variable, cmd.value);
  }

  /**
   Write confinement, one step. In any reachable state, when the machine of a
   host takes a line, only its own store can change, and only in the variable of
   the gated write the line comes from: one that a client sent, and that was
   allowed, by one of its ranges, by the policy selected for that client from a
   list of this very host, which the route of the client's listener held together
   with this very connection. The line parses to exactly the command that passed
   the gate if and only if no more of the text is missing than the line feed and,
   after a zero fraction, the point and the zero; and then it has exactly the
   command's effect.
   */
  lemma WriteConfined(run: seq<Step>, b: nat, e: nat)
    requires After(run).Some? && Enabled(After(run).value, Serve(b, e))
    ensures var s := After(run).value;
            var s', t, h := Apply(s, Serve(b, e)), NextText(s, b, e), s.backends[b].host;
            && (forall g | g != h :: StoreAt(s', g) == StoreAt(s, g))
            && t.call < |s.backends[b].net.calls|
            && var c, before, after := s.backends[b].net.Sends(t.call, t.part), StoreAt(s, h), StoreAt(s', h);
            && (after == before
                || (c.Write? && Justified(s, h, c.variable, b, t.call) && ChangesOnly(before, after, c.variable)))
            && (ParseCommand(TrimSpace(NextLine(s, b, e))) == Ok(c) <==> |t.bytes| + Slack(c) >= |c.Line()|)
            && (|t.bytes| + Slack(c) >= |c.Line()| ==> after == StoreAfter(before, c))
  {
    StartInv();
    RunInv(START, run);
    hide After, Inv;
    ServeConfined(After(run).value, b, e);
  }

  ghost predicate ChangesOnly(before: Store, after: Store, n: Number) {
    n in after && after == before[n := after[n]]
  }

  lemma StartInv()
    ensures Inv(START)
  {
  }

  lemma ServeConfined(s: State, b: nat, e: nat)
    requires Inv(s) && Enabled(s, Serve(b, e))
    ensures var s', t, h := Apply(s, Serve(b, e)), NextText(s, b, e), s.backends[b].host;
            && (forall g | g != h :: StoreAt(s', g) == StoreAt(s, g))
            && t.call < |s.backends[b].net.calls|
            && var c, before, after := s.backends[b].net.Sends(t.call, t.part), StoreAt(s, h), StoreAt(s', h);
            && (after == before
                || (c.Write? && Justified(s, h, c.variable, b, t.call) && ChangesOnly(before, after, c.variable)))
            && (ParseCommand(TrimSpace(NextLine(s, b, e))) == Ok(c) <==> |t.bytes| + Slack(c) >= |c.Line()|)
            && (|t.bytes| + Slack(c) >= |c.Line()| ==> after == StoreAfter(before, c))
  {
    var s', t, h := Apply(s, Serve(b, e)), NextText(s, b, e), s.backends[b].host;
    ServedStore(s, b, e);
    hide Inv, Enabled, Apply, LineStore, LineReply, StoreAfter, StoreAt, Justified;
    hide Command.Text, Command.Line, Slack, LineOf, ParseCommand, TrimSpace, WellFormed;
    var c, n := TextOf(s, b, e);
    R.LineEffect(StoreAt(s, h), c, n);
    if c.Write? { GateJustifies(s, b, t.call); }
  }

  lemma ServedStore(s: State, b: nat, e: nat)
    requires Enabled(s, Serve(b, e))
    ensures var s', h := Apply(s, Serve(b, e)), s.backends[b].host;
            && StoreAt(s', h) == LineStore(StoreAt(s, h), NextLine(s, b, e))
            && forall g | g != h :: StoreAt(s', g) == StoreAt(s, g)
  {
    hide Conn.Apply, LineStore, LineReply;
  }

  /** No other step touches any machine. */
  lemma OnlyServeWrites(s: State, step: Step)
    requires Enabled(s, step) && !step.Serve?
    ensures Apply(s, step).stores == s.stores
  {
    hide Conn.Apply, Conn.Enabled, ParseCommand, Lookup, Allowed;
  }

  /** Every variable a machine has is there because of a justified write to it. */
  ghost predicate AllJustified(s: State) {
    forall h, n | n in StoreAt(s, h) :: HasReason(s, h, n)
  }

  ghost predicate HasReason(s: State, h: string, n: Number) { exists b: nat, i: nat :: Justified(s, h, n, b, i) }

  /** A reason stays: gates and commands of calls are never changed. */
  ghost predicate GatesKept(s: State, s': State) {
    && Later(s, s')
    && forall b | 0 <= b < |s.backends| ::
         && s.backends[b].gates <= s'.backends[b].gates
         && CallsKept(s.backends[b].net, s'.backends[b].net)
  }

  lemma ReasonKept(s: State, s': State, h: string, n: Number)
    requires HasReason(s, h, n) && GatesKept(s, s')
    ensures HasReason(s', h, n)
  {
    hide ParseCommand, Lookup, Allowed, Listed, GateOk;
    var b: nat, i: nat :| Justified(s, h, n, b, i);
    SameSettings(s, s', h, s.backends[b].gates[i], s.backends[b].net.calls[i].cmd);
    assert s'.backends[b].gates[i] == s.backends[b].gates[i];
    assert Justified(s', h, n, b, i);
  }

  lemma GatesMonotone(s: State, step: Step)
    requires Inv(s) && Enabled(s, step)
    ensures GatesKept(s, Apply(s, step))
  {
    hide Inv, Apply, Enabled, GatesKept;
    match step {
      case Net(b, n) => NetKeepsGates(s, b, n);
      case Serve(b, e) => ServeKeepsGates(s, b, e);
      case Judge(c) => JudgeKeepsGates(s, c);
      case _ => OtherKeepsGates(s, step);
    }
  }

  lemma OtherKeepsGates(s: State, step: Step)
    requires Enabled(s, step) && !step.Net? && !step.Serve? && !step.Judge?
    ensures GatesKept(s, Apply(s, step))
  {
    hide LawfulFill, ParseCommand, Lookup;
  }

  lemma SetNetKeepsGates(s: State, b: nat, net: Conn.State, stores: map<string, Store>)
    requires b < |s.backends| && CallsKept(s.backends[b].net, net)
    ensures GatesKept(s, SetNet(s, b, net).(stores := stores))
  {
  }

  lemma NetKeepsGates(s: State, b: nat, n: Conn.Step)
    requires Inv(s) && Enabled(s, Net(b, n))
    ensures GatesKept(s, Apply(s, Net(b, n)))
  {
    assert BackendOk(s, s.backends[b]);
    hide Conn.Apply, ConnPairing.Inv, LawfulFill, ClientOk, GatesKept, CallsKept, GateOk, Conn.Enabled;
    StepKeepsCalls(s.backends[b].net, n);
    SetNetKeepsGates(s, b, Conn.Apply(s.backends[b].net, n), s.stores);
  }

  lemma ServeKeepsGates(s: State, b: nat, e: nat)
    requires Inv(s) && Enabled(s, Serve(b, e))
    ensures GatesKept(s, Apply(s, Serve(b, e)))
  {
    assert BackendOk(s, s.backends[b]);
    hide Conn.Apply, ConnPairing.Inv, LawfulFill, ClientOk, GatesKept, CallsKept, GateOk, LineReply, LineStore,
         Framable, BackendOk;
    var h, line := s.backends[b].host, NextLine(s, b, e);
    RepliesFramable(StoreAt(s, h), line);
    var answer := Conn.Answer(e, LineReply(StoreAt(s, h), line).value);
    StepKeepsCalls(s.backends[b].net, answer);
    SetNetKeepsGates(s, b, Conn.Apply(s.backends[b].net, answer), s.stores[h := LineStore(StoreAt(s, h), line)]);
  }

  lemma JudgeKeepsGates(s: State, c: nat)
    requires Inv(s) && Enabled(s, Judge(c))
    ensures GatesKept(s, Apply(s, Judge(c)))
  {
    hide BackendOk, LawfulFill, ClientOk, Allowed;
  }

  lemma StepJustified(s: State, step: Step)
    requires Inv(s) && AllJustified(s) && Enabled(s, step)
    ensures AllJustified(Apply(s, step))
  {
    hide Inv, Apply, Enabled, AllJustified;
    GatesMonotone(s, step);
    if step.Serve? {
      ServeJustified(s, step.b, step.epoch);
    } else {
      OnlyServeWrites(s, step);
      StillJustified(s, Apply(s, step));
    }
  }

  /** Without a change of any store the reasons of before are enough. */
  lemma StillJustified(s: State, s': State)
    requires AllJustified(s) && GatesKept(s, s') && s'.stores == s.stores
    ensures AllJustified(s')
  {
    hide GatesKept, Justified, HasReason;
    forall h, n | n in StoreAt(s', h) ensures HasReason(s', h, n) {
      assert n in StoreAt(s, h);
      ReasonKept(s, s', h, n);
    }
  }

  /** A variable that a served line adds is the one its gated write names. */
  lemma ServeJustified(s: State, b: nat, e: nat)
    requires Inv(s) && AllJustified(s) && Enabled(s, Serve(b, e)) && GatesKept(s, Apply(s, Serve(b, e)))
    ensures AllJustified(Apply(s, Serve(b, e)))
  {
    var s', t, h := Apply(s, Serve(b, e)), NextText(s, b, e), s.backends[b].host;
    ServeConfined(s, b, e);
    hide Inv, Apply, Enabled, GatesKept, Justified, StoreAfter, ParseCommand, TrimSpace, NextLine, NextText, StoreAt,
         R.HasLine;
    var c := s.backends[b].net.Sends(t.call, t.part);
    forall g, n | n in StoreAt(s', g) ensures HasReason(s', g, n) {
      if n !in StoreAt(s, g) {
        assert g == h && n == c.variable;
        assert Justified(s, h, n, b, t.call);
      }
      ReasonKept(s, s', g, n);
    }
  }

  lemma {:induction false} RunJustified(s: State, run: seq<Step>)
    requires Inv(s) && AllJustified(s) && AfterFrom(s, run).Some?
    ensures AllJustified(AfterFrom(s, run).value)
    decreases |run|
  {
    hide Inv, Apply, Enabled, AllJustified;
    if run != [] {
      StepInv(s, run[0]);
      StepJustified(s, run[0]);
      RunJustified(Apply(s, run[0]), run[1..]);
    }
  }

  /**
   Write confinement, over whole runs. A machine starts without variables; after
   any run, every variable it has was written by some client whose command was
   gated by a policy of this host, selected for this client, with a range that
   holds the variable's number.
   */
  lemma Confined(run: seq<Step>, h: string, n: Number)
    requires After(run).Some? && n in StoreAt(After(run).value, h)
    ensures exists b: nat, i: nat :: Justified(After(run).value, h, n, b, i)
  {
    hide Justified, Inv;
    StartInv();
    RunJustified(START, run);
    assert HasReason(After(run).value, h, n);
  }
}
