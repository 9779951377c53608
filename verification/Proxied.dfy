/**
 Registers behind the proxy: all connections of the whole program to one host, and
 the machine there, make a run of `Clients`. So macro variables are linearizable
 registers for the clients of the proxy as well, whatever is reconfigured, denied,
 cut or lost meanwhile.
 */
module Proxied {
  import opened Wrappers
  import opened Decimal
  import opened Numbers
  import opened Commands
  import opened Policies
  import opened Responses
  import opened Dummy
  import Conn
  import ConnPairing
  import L = LateEffects
  import C = Confinement
  import K = Clients
  import R = Registers

  /** The connection of a number, if it is one to this host; else one that does nothing. */
  function NetAt(s: C.State, h: string, b: nat): Conn.State {
    if b < |s.backends| && s.backends[b].host == h then s.backends[b].net else Conn.START
  }

  /** The state of `Clients` has the connections to the host and the store of its machine. */
  ghost predicate Shows(s: C.State, h: string, k: K.State) {
    && |s.backends| <= |k.nets| && k.store == C.StoreAt(s, h)
    && forall b | 0 <= b < |k.nets| :: k.nets[b] == NetAt(s, h, b)
  }

  // ----- the projection of a step

  /** What a step of the program is for the host: a step of a connection to it, of its machine, or nothing. */
  function Project(s: C.State, step: C.Step, h: string): Option<K.Step>
    requires C.Enabled(s, step)
  {
    match step
    case Net(b, n) => if s.backends[b].host == h then Some(K.Net(b, n)) else None
    case Serve(b, e) => if s.backends[b].host == h then Some(K.Serve(b, e)) else None
    case Judge(c) =>
      var Picked(_, cmd, visit, _, policy) := s.clients[c].pc;
      if Allowed(policy, cmd) && s.backends[visit.backend].host == h then Some(K.Net(visit.backend, Conn.Invoke(cmd)))
        else None
    case _ => None
  }

  /**
   What a step of the program adds to the log of the host: where a call of one of
   its connections begins or ends, and where its machine takes a line.
   */
  function Entries(s: C.State, step: C.Step, h: string): seq<K.Entry>
    requires C.Enabled(s, step)
  {
    match step
    case Net(b, n) =>
      var net := s.backends[b].net;
      if s.backends[b].host == h then K.Tag(b, R.Events(net, Conn.Apply(net, n), n)) else []
    case Serve(b, e) =>
      if s.backends[b].host == h then
        [K.Entry(b, R.Served(e, |s.backends[b].net.epochs[e].answers|, C.NextLine(s, b, e)))]
      else []
    case Judge(c) =>
      var Picked(_, cmd, visit, _, policy) := s.clients[c].pc;
      var b := visit.backend;
      if Allowed(policy, cmd) && s.backends[b].host == h then [K.Entry(b, R.Begun(|s.backends[b].net.calls|))] else []
    case _ => []
  }

  /** The step of the host, if any, leads to a state that shows what the program's step leads to, and logs the same. */
  ghost predicate Projects(s: C.State, step: C.Step, h: string, k: K.State)
    requires C.Enabled(s, step)
  {
    match Project(s, step, h)
    case None => Shows(C.Apply(s, step), h, k) && Entries(s, step, h) == []
    case Some(own) =>
      && K.Enabled(k, own) && Shows(C.Apply(s, step), h, K.Apply(k, own))
      && K.Apply(k, own).log == k.log + Entries(s, step, h)
  }

  lemma StepProjects(s: C.State, step: C.Step, h: string, k: K.State)
    requires C.Enabled(s, step) && Shows(s, h, k) && |C.Apply(s, step).backends| <= |k.nets|
    ensures Projects(s, step, h, k)
  {
    match step {
      case Net(b, n) => NetProjects(s, b, n, h, k);
      case Serve(b, e) => ServeProjects(s, b, e, h, k);
      case Judge(c) => JudgeProjects(s, c, h, k);
      case _ => OtherProjects(s, step, h, k);
    }
  }

  lemma NetProjects(s: C.State, b: nat, n: Conn.Step, h: string, k: K.State)
    requires C.Enabled(s, C.Net(b, n)) && Shows(s, h, k)
    ensures Projects(s, C.Net(b, n), h, k)
  {
    hide Conn.Apply, Conn.Enabled, R.Events;
    assert k.nets[b] == NetAt(s, h, b);
  }

  lemma ServeProjects(s: C.State, b: nat, e: nat, h: string, k: K.State)
    requires C.Enabled(s, C.Serve(b, e)) && Shows(s, h, k)
    ensures Projects(s, C.Serve(b, e), h, k)
  {
    hide Conn.Apply, Conn.Enabled, LineReply, LineStore, R.NextLine;
    assert k.nets[b] == NetAt(s, h, b);
  }

  lemma JudgeProjects(s: C.State, c: nat, h: string, k: K.State)
    requires C.Enabled(s, C.Judge(c)) && Shows(s, h, k)
    ensures Projects(s, C.Judge(c), h, k)
  {
    var pc, s' := s.clients[c].pc, C.Apply(s, C.Judge(c));
    C.JudgeEffect(s, c);
    JudgeStores(s, c);
    assert Conn.Enabled(k.nets[pc.visit.backend], Conn.Invoke(pc.cmd));
    hide Conn.Apply, Conn.Enabled, R.Events, Allowed, C.Apply;
    assert k.nets[pc.visit.backend] == NetAt(s, h, pc.visit.backend);
  }

  lemma JudgeStores(s: C.State, c: nat)
    requires C.Enabled(s, C.Judge(c))
    ensures C.Apply(s, C.Judge(c)).stores == s.stores
  {
    hide Conn.Apply, Allowed;
  }

  lemma OtherProjects(s: C.State, step: C.Step, h: string, k: K.State)
    requires C.Enabled(s, step) && !step.Net? && !step.Serve? && !step.Judge?
    requires Shows(s, h, k) && |C.Apply(s, step).backends| <= |k.nets|
    ensures Projects(s, step, h, k)
  {
    hide C.LawfulFill, ParseCommand, Lookup;
  }

  // ----- the projection of a run

  lemma {:induction false} Grows(s: C.State, run: seq<C.Step>)
    requires C.AfterFrom(s, run).Some?
    ensures |s.backends| <= |C.AfterFrom(s, run).value.backends|
    decreases |run|
  {
    hide C.Enabled, C.Apply;
    if run != [] {
      StepGrows(s, run[0]);
      Grows(C.Apply(s, run[0]), run[1..]);
    }
  }

  lemma StepGrows(s: C.State, step: C.Step)
    requires C.Enabled(s, step)
    ensures |s.backends| <= |C.Apply(s, step).backends|
  {
    hide Conn.Apply, Conn.Enabled, Allowed, C.LawfulFill;
  }

  /** The steps of the host in a run, in order: those of its connections and of its machine, and no pokes. */
  ghost function OwnOf(s: C.State, run: seq<C.Step>, h: string): seq<K.Step>
    requires C.AfterFrom(s, run).Some?
    decreases |run|
  {
    if run == [] then []
    else
      var rest := OwnOf(C.Apply(s, run[0]), run[1..], h);
      match Project(s, run[0], h)
      case None => rest
      case Some(own) => [own] + rest
  }

  /** The log of the host in a run: the beginnings and ends of its calls, and the lines its machine takes, in order. */
  ghost function LogFrom(s: C.State, run: seq<C.Step>, h: string): seq<K.Entry>
    requires C.AfterFrom(s, run).Some?
    decreases |run|
  {
    if run == [] then [] else Entries(s, run[0], h) + LogFrom(C.Apply(s, run[0]), run[1..], h)
  }

  ghost function LogOf(run: seq<C.Step>, h: string): seq<K.Entry>
    requires C.After(run).Some?
  {
    LogFrom(C.START, run, h)
  }

  /**
   Refinement: what a run of the whole program does at a host, step by step, is a
   run of `Clients`, with the log of the host.
   */
  lemma {:induction false} RunProjects(s: C.State, run: seq<C.Step>, h: string, k: K.State)
    requires C.AfterFrom(s, run).Some? && Shows(s, h, k) && |C.AfterFrom(s, run).value.backends| <= |k.nets|
    ensures var own := OwnOf(s, run, h);
            && K.AfterFrom(k, own).Some? && Shows(C.AfterFrom(s, run).value, h, K.AfterFrom(k, own).value)
            && K.AfterFrom(k, own).value.log == k.log + LogFrom(s, run, h)
    decreases |run|
  {
    hide C.Enabled, C.Apply, K.Enabled, K.Apply, Project, Entries, Shows;
    if run == [] {
      assert k.log + [] == k.log;
    } else {
      var s1, rest := C.Apply(s, run[0]), run[1..];
      Grows(s1, rest);
      StepProjects(s, run[0], h, k);
      if Project(s, run[0], h).None? {
        RunProjects(s1, rest, h, k);
        assert [] + LogFrom(s1, rest, h) == LogFrom(s1, rest, h);
      } else {
        var step := Project(s, run[0], h).value;
        SameNets(k, step);
        RunProjects(s1, rest, h, K.Apply(k, step));
        assert OwnOf(s, run, h)[1..] == OwnOf(s1, rest, h);
      }
    }
  }

  lemma {:induction false} RunsJoin(s: C.State, a: seq<C.Step>, b: seq<C.Step>, h: string)
    requires C.AfterFrom(s, a).Some? && C.AfterFrom(C.AfterFrom(s, a).value, b).Some?
    ensures C.AfterFrom(s, a + b) == C.AfterFrom(C.AfterFrom(s, a).value, b)
    ensures LogFrom(s, a + b, h) == LogFrom(s, a, h) + LogFrom(C.AfterFrom(s, a).value, b, h)
    ensures OwnOf(s, a + b, h) == OwnOf(s, a, h) + OwnOf(C.AfterFrom(s, a).value, b, h)
    decreases |a|
  {
    hide C.Enabled, C.Apply, Project, Entries;
    if a == [] {
      assert a + b == b;
    } else {
      assert (a + b)[1..] == a[1..] + b;
      RunsJoin(C.Apply(s, a[0]), a[1..], b, h);
    }
  }

  lemma StartShows(h: string, n: nat)
    ensures Shows(C.START, h, K.Start(n))
  {
  }

  lemma SameNets(k: K.State, step: K.Step)
    requires K.Enabled(k, step)
    ensures |K.Apply(k, step).nets| == |k.nets| && k.log <= K.Apply(k, step).log
  {
    hide Conn.Apply, Conn.Enabled, LineReply, LineStore, R.Events, R.NextLine;
  }

  // ----- the theorems

  /** The call of a connection to the host has returned with all of its answer. */
  predicate Answered(s: C.State, h: string, b: nat, i: nat, cmd: Command) {
    && b < |s.backends| && s.backends[b].host == h && i < |s.backends[b].net.calls|
    && s.backends[b].net.calls[i].cmd == cmd && ConnPairing.Complete(s.backends[b].net, i)
  }

  /** The run of `Clients` that a run of the program makes at a host. */
  lemma HostRun(run: seq<C.Step>, h: string) returns (n: nat, own: seq<K.Step>)
    requires C.After(run).Some?
    ensures n == |C.After(run).value.backends| && own == OwnOf(C.START, run, h) && K.AfterFrom(K.Start(n), own).Some?
    ensures Shows(C.After(run).value, h, K.AfterFrom(K.Start(n), own).value)
    ensures K.AfterFrom(K.Start(n), own).value.log == LogOf(run, h)
  {
    n, own := |C.After(run).value.backends|, OwnOf(C.START, run, h);
    StartShows(h, n);
    hide C.AfterFrom, K.AfterFrom, OwnOf, LogFrom;
    RunProjects(C.START, run, h, K.Start(n));
    assert [] + LogOf(run, h) == LogOf(run, h);
  }

  lemma CommandFormed(run: seq<C.Step>, b: nat, i: nat)
    requires C.After(run).Some? && b < |C.After(run).value.backends| && i < |C.After(run).value.backends[b].net.calls|
    ensures WellFormed(C.After(run).value.backends[b].net.calls[i].cmd)
  {
    C.StartInv();
    C.RunInv(C.START, run);
    var s := C.After(run).value;
    hide C.After, C.AfterFrom, ParseCommand, ConnPairing.Inv, C.Listed, Allowed, Lookup, WellFormed;
    assert C.BackendOk(s, s.backends[b]);
    assert C.GateOk(s, s.backends[b].host, s.backends[b].gates[i], s.backends[b].net.calls[i].cmd);
    ParsedIsWellFormed(s.backends[b].gates[i].line);
  }

  /**
   Linearizability through the proxy. In every run of the whole program, every
   command forwarded to a host whose answer was returned whole takes its effect and
   gets its response at one point of the host's log, where the machine takes its own
   text, between the beginning and the end of its call; and the log leaves the store
   of the host's machine.
   */
  lemma ProxiedCall(run: seq<C.Step>, h: string, b: nat, i: nat, cmd: Command)
    returns (begin: nat, point: nat, end: nat)
    requires C.After(run).Some? && Answered(C.After(run).value, h, b, i, cmd)
    ensures var s, log := C.After(run).value, LogOf(run, h);
            && begin < point < end < |log|
            && log[begin] == K.Entry(b, R.Begun(i)) && log[end] == K.Entry(b, R.Ended(i))
            && K.TakenAt(log, b, s.backends[b].net.calls[i].pc, point)
            && var before := K.StoreOf(log[..point]);
               && s.backends[b].net.calls[i].pc.resp == ParseResponse(cmd, Reply(before, cmd))
               && K.StoreOf(log[..point + 1]) == StoreAfter(before, cmd)
               && C.StoreAt(s, h) == K.StoreOf(log)
  {
    CommandFormed(run, b, i);
    var n, own := HostRun(run, h);
    hide C.After, K.AfterFrom, K.StoreOf, ParseResponse, Reply, StoreAfter, WellFormed, C.StoreAt, LogOf, OwnOf;
    var k := K.AfterFrom(K.Start(n), own).value;
    assert k.nets[b] == NetAt(C.After(run).value, h, b);
    begin, point, end := K.LinearizableCall(n, own, b, i, cmd);
    Logged(n, own);
  }

  lemma Logged(n: nat, own: seq<K.Step>)
    requires n > 0 && K.AfterFrom(K.Start(n), own).Some?
    ensures K.Inv(K.AfterFrom(K.Start(n), own).value)
  {
    hide K.Enabled, K.Apply;
    assert K.StoreOf([]) == map[];
    K.StoreIsLogged(K.Start(n), own);
  }

  lemma {:induction false} Join(k: K.State, a: seq<K.Step>, b: seq<K.Step>)
    requires K.AfterFrom(k, a).Some?
    ensures K.AfterFrom(k, a + b) == K.AfterFrom(K.AfterFrom(k, a).value, b)
    decreases |a|
  {
    hide K.Enabled, K.Apply;
    if a == [] {
      assert a + b == b;
    } else {
      assert (a + b)[1..] == a[1..] + b;
      Join(K.Apply(k, a[0]), a[1..], b);
    }
  }

  /** Only calls that exist have begun. */
  lemma BegunExists(n: nat, own: seq<K.Step>, c: nat, j: nat, p: nat)
    requires K.AfterFrom(K.Start(n), own).Some? && c < n
    requires var log := K.AfterFrom(K.Start(n), own).value.log; p < |log| && log[p] == K.Entry(c, R.Begun(j))
    ensures j < |K.AfterFrom(K.Start(n), own).value.nets[c].calls|
  {
    var r := K.OwnRun(n, own, c);
    hide K.AfterFrom, R.After, R.Inv;
    R.StartInv();
    RunMarked(r);
    var view := K.View(K.AfterFrom(K.Start(n), own).value.log, c);
    assert view[p] == R.Begun(j);
  }

  lemma RunMarked(r: seq<R.Step>)
    requires R.After(r).Some?
    ensures R.Inv(R.After(r).value) && R.Marks(R.After(r).value)
  {
    hide R.Inv, R.AfterFrom;
    R.StartInv();
    R.RunMarks(R.START, r);
  }

  /** A call that has returned with all of its answer stays so. */
  lemma CompleteStays(n: nat, own: seq<K.Step>, more: seq<K.Step>, c: nat, i: nat, cmd: Command)
    requires K.AfterFrom(K.Start(n), own).Some? && c < n && K.Answered(K.AfterFrom(K.Start(n), own).value, c, i, cmd)
    requires K.AfterFrom(K.AfterFrom(K.Start(n), own).value, more).Some?
    ensures K.Answered(K.AfterFrom(K.AfterFrom(K.Start(n), own).value, more).value, c, i, cmd)
  {
    Logged(n, own);
    var r := K.OwnRun(n, own, c);
    RunMarked(r);
    hide K.AfterFrom, R.After, R.AfterFrom, R.Inv, R.Marks, K.Inv;
    var k := K.AfterFrom(K.Start(n), own).value;
    var rest := K.RunProjects(k, more, c);
    L.RunSettled(K.Local(k, c), rest, i);
    Extended(k.nets[c], K.AfterFrom(k, more).value.nets[c], i);
  }

  lemma Extended(net: Conn.State, net': Conn.State, i: nat)
    requires ConnPairing.Complete(net, i) && R.NetGrows(net, net') && i < |net'.calls| && net'.calls[i] == net.calls[i]
    ensures ConnPairing.Complete(net', i)
  {
  }

  /** The call is not there yet. */
  predicate Absent(s: C.State, b: nat, j: nat) { b < |s.backends| ==> |s.backends[b].net.calls| <= j }

  /**
   Reads see writes, through the proxy. If a client's write has come back with all of
   its answer before another client's query is forwarded, over whatever connections
   to the host, then in the host's log the write is taken, at w, and has ended before
   the query begins, and the query, taken at p, returns the value of that write or of
   a later store: of the last one in the log before p.
   */
  lemma ProxiedQuerySeesWrite(before: seq<C.Step>, after: seq<C.Step>, h: string, bw: nat, i: nat, n: Int64, x: Number,
                              bq: nat, j: nat)
    returns (w: nat, ended: nat, begun: nat, q: nat, p: nat)
    requires C.After(before).Some? && C.AfterFrom(C.After(before).value, after).Some? && n > 0 && x.Num?
    requires Answered(C.After(before).value, h, bw, i, Write(Num(n, 0), x)) && Absent(C.After(before).value, bq, j)
    requires Answered(C.AfterFrom(C.After(before).value, after).value, h, bq, j, Query(Num(n, 0)))
    ensures C.After(before + after) == C.AfterFrom(C.After(before).value, after)
    ensures LogOf(before + after, h) == LogOf(before, h) + LogFrom(C.After(before).value, after, h)
    ensures Answered(C.After(before + after).value, h, bw, i, Write(Num(n, 0), x))
    ensures var s, log := C.After(before + after).value, LogOf(before + after, h);
            && w < ended < |LogOf(before, h)| <= begun < p < |log|
            && K.TakenAt(log, bw, s.backends[bw].net.calls[i].pc, w) && log[ended] == K.Entry(bw, R.Ended(i))
            && log[begun] == K.Entry(bq, R.Begun(j)) && K.TakenAt(log, bq, s.backends[bq].net.calls[j].pc, p)
            && C.StoreAt(s, h) == K.StoreOf(log) && s.backends[bq].net.calls[j].pc.resp.Value?
            && K.FromWrite(log, Num(n, 0), x, s.backends[bq].net.calls[j].pc.resp.value, w, q, p)
  {
    hide C.AfterFrom, K.AfterFrom, K.StoreOf, K.FromWrite, C.StoreAt, K.Inv, OwnOf, LogFrom;
    RunsJoin(C.START, before, after, h);
    var s1 := C.After(before).value;
    var s2 := C.AfterFrom(s1, after).value;
    var c := |s2.backends|;
    var own1, own2 := OwnOf(C.START, before, h), OwnOf(s1, after, h);
    Grows(s1, after);
    StartShows(h, c);
    RunProjects(C.START, before, h, K.Start(c));
    var k1 := K.AfterFrom(K.Start(c), own1).value;
    RunProjects(s1, after, h, k1);
    var k2 := K.AfterFrom(k1, own2).value;
    Join(K.Start(c), own1, own2);
    assert k1.log == LogOf(before, h) && k2.log == LogOf(before + after, h);
    assert k1.nets[bw] == NetAt(s1, h, bw) && k1.nets[bq] == NetAt(s1, h, bq);
    assert k2.nets[bw] == NetAt(s2, h, bw) && k2.nets[bq] == NetAt(s2, h, bq);
    CompleteStays(c, own1, own2, bw, i, Write(Num(n, 0), x));
    var b1, p1, p2, e2;
    b1, p1, ended := K.LinearizableWrites(c, own1, bw, i, Num(n, 0), x);
    begun, p2, e2 := K.LinearizableRegisters(c, own1 + own2, bq, j, n);
    if begun < |k1.log| { BegunExists(c, own1, bq, j, begun); }
    w, q, p := K.QuerySeesWrite(c, own1 + own2, bw, i, n, x, bq, j, ended, begun);
    Logged(c, own1 + own2);
    StoreLogged(k2);
  }

  lemma StoreLogged(k: K.State)
    requires K.Inv(k)
    ensures k.store == K.StoreOf(k.log)
  {
  }
}
