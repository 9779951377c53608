/**
 Runs of reconfiguration passes. A run is the list of what the proxy and its
 listeners were before and after each pass, and each pass is related to its
 neighbours by what `Proxy.Reconfigure` promises.
 */
module Generations {
  import opened Wrappers
  import opened Policies
  import opened Reconfigure

  /** Tables that agree with the listeners and routes there are. */
  ghost predicate InOrder(w: World) {
    && Consistent(w.tables) && w.filled.Keys == w.tables.routes.Keys
    && w.tables.listeners.Values <= w.open <= w.created
  }

  ghost predicate Step(was: World, r: Record, now: World) {
    InOrder(was) && InOrder(now) && Turned(was, r, now) && Expands(r.cfg, r.lists)
  }

  /** A run: one world more than passes. */
  ghost predicate History(worlds: seq<World>, passes: seq<Record>) {
    && |worlds| == |passes| + 1
    && forall i | 0 <= i < |passes| :: Step(worlds[i], passes[i], worlds[i + 1])
  }

  /** A proxy in order, as the methods keep it. */
  lemma NowInOrder(p: Proxy, net: Network)
    requires p.Valid() && Live(p.mu, net)
    ensures InOrder(p.Now(net))
  {
    hide Consistent;
  }

  // ----- objects that stay

  lemma StepConserves(was: World, r: Record, now: World)
    requires Step(was, r, now)
    ensures Conserves(was.tables, now.tables)
  {
    hide Expands, Placeable, AllServe, Refilled, Consistent, Unplaceable;
  }

  ghost predicate HostThroughout(worlds: seq<World>, i: nat, j: nat, h: string) {
    forall k | i <= k <= j && k < |worlds| :: h in worlds[k].tables.connByHostname
  }

  ghost predicate AddressThroughout(worlds: seq<World>, i: nat, j: nat, a: AddrPort) {
    forall k | i <= k <= j && k < |worlds| :: a in worlds[k].tables.listeners
  }

  /** The listener of an address and its route. */
  ghost function RouteOf(w: World, a: AddrPort): Option<Route> {
    if a in w.tables.listeners && w.tables.listeners[a] in w.tables.routes
      then Some(w.tables.routes[w.tables.listeners[a]])
    else None
  }

  /**
   Over any run, a host or an address that no pass in between has dropped keeps
   its connection, its listener and its route object.
   */
  lemma {:induction false} SameObjects(worlds: seq<World>, passes: seq<Record>, i: nat, j: nat)
    requires History(worlds, passes) && i <= j < |worlds|
    ensures forall h | HostThroughout(worlds, i, j, h) ::
              worlds[j].tables.connByHostname[h] == worlds[i].tables.connByHostname[h]
    ensures forall a | AddressThroughout(worlds, i, j, a) ::
              && worlds[j].tables.listeners[a] == worlds[i].tables.listeners[a]
              && RouteOf(worlds[j], a) == RouteOf(worlds[i], a)
    decreases j
  {
    hide Turned, Expands, Apart, InOrder;
    if i < j {
      SameObjects(worlds, passes, i, j - 1);
      StepConserves(worlds[j - 1], passes[j - 1], worlds[j]);
      assert Listed(worlds[j - 1].tables) && Listed(worlds[j].tables) by {
        OrderListed(worlds[j - 1]);
        OrderListed(worlds[j]);
      }
      forall h | HostThroughout(worlds, i, j, h) ensures HostThroughout(worlds, i, j - 1, h) { }
      forall a | AddressThroughout(worlds, i, j, a) ensures AddressThroughout(worlds, i, j - 1, a) { }
    }
  }

  lemma OrderListed(w: World)
    requires InOrder(w)
    ensures Listed(w.tables) && Keyed(w.tables)
  {
  }

  // ----- what is open

  /** The open listeners are exactly those of the tables. */
  ghost predicate Settled(w: World) { w.open == w.tables.listeners.Values }

  /** A pass that succeeds leaves exactly the configured addresses open, if nothing had leaked before. */
  lemma SettledStays(was: World, r: Record, now: World)
    requires Step(was, r, now) && r.ok && Settled(was)
    ensures Settled(now) && now.tables.listeners.Keys == Ats(r.cfg, r.cfg.targets.Keys) == Taken(now)
  {
    hide Expands, Placeable, AllServe, Refilled, Unplaceable, Apart, Ats, Addresses;
    forall l | l in now.open ensures l in now.tables.listeners.Values {
      if l in was.open {
        var a :| a in was.tables.listeners && was.tables.listeners[a] == l;
        assert a in now.tables.listeners;
      }
    }
    TakenOf(now);
  }

  lemma TakenOf(w: World)
    requires InOrder(w) && Settled(w)
    ensures Taken(w) == w.tables.listeners.Keys
  {
    forall a | a in w.tables.listeners ensures a in Taken(w) {
      assert w.tables.listeners[a] in w.open && w.tables.listeners[a].addr == a;
    }
  }

  /**
   Over a run of passes that all succeed, from a settled start, the open listeners
   are always exactly those configured.
   */
  lemma {:induction false} AlwaysSettled(worlds: seq<World>, passes: seq<Record>, j: nat)
    requires History(worlds, passes) && j <= |passes| && Settled(worlds[0]) && forall i | 0 <= i < j :: passes[i].ok
    ensures Settled(worlds[j])
    ensures j > 0 ==>
              && Taken(worlds[j]) == worlds[j].tables.listeners.Keys
              && worlds[j].tables.listeners.Keys == Ats(passes[j - 1].cfg, passes[j - 1].cfg.targets.Keys)
  {
    hide Step, Ats, Taken, Settled;
    if j > 0 {
      AlwaysSettled(worlds, passes, j - 1);
      SettledStays(worlds[j - 1], passes[j - 1], worlds[j]);
    }
  }

  // ----- what a failed pass leaves behind

  /** An open listener without a place in the tables. */
  ghost predicate Stranded(w: World, l: Listener) { l in w.open && l.addr !in w.tables.listeners }

  /**
   A failed pass strands a listener on each address it visited that was not held
   before, and refills every other route it visited.
   */
  lemma FailureStrands(was: World, r: Record, now: World, h: string)
    requires Step(was, r, now) && !r.ok && h in r.done
    ensures At(r.cfg, h) in was.tables.listeners ==>
              var l := was.tables.listeners[At(r.cfg, h)];
              l in now.filled && FromTarget(r.cfg, r.lists, l, now.filled[l], r.done)
    ensures At(r.cfg, h) !in was.tables.listeners ==> exists l ::
            l !in was.created && l.addr == At(r.cfg, h) && Stranded(now, l)
  {
    hide Expands, Placeable, AllServe, Unplaceable, Apart, FromTarget;
    if At(r.cfg, h) in was.tables.listeners {
      var l := was.tables.listeners[At(r.cfg, h)];
      assert l in now.tables.routes && l.addr in Ats(r.cfg, r.done);
    } else {
      assert At(r.cfg, h) in Addresses(now.created - was.created);
      var l :| l in now.created - was.created && l.addr == At(r.cfg, h);
      assert Stranded(now, l);
    }
  }

  /** A stranded listener stays stranded, and no pass that wants its address succeeds. */
  lemma StillStranded(was: World, r: Record, now: World, l: Listener)
    requires Step(was, r, now) && Stranded(was, l)
    ensures Stranded(now, l)
    ensures l.addr in Ats(r.cfg, r.cfg.targets.Keys) ==> !r.ok
  {
    hide Expands, AllServe, Refilled, Unplaceable, Apart, Conserves;
    if l.addr in Ats(r.cfg, r.cfg.targets.Keys) {
      var h :| h in r.cfg.targets && At(r.cfg, h) == l.addr;
      assert l.addr in Taken(was);
    }
    assert l !in Dropped(was.tables, now.tables);
  }

  /**
   A listener that a failed pass has left behind stays open and outside the
   tables over every later run, and every later pass with a target on its address
   fails, whatever is refused or not.
   */
  lemma {:induction false} StrandedForever(worlds: seq<World>, passes: seq<Record>, i: nat, j: nat, l: Listener)
    requires History(worlds, passes) && i <= j <= |passes| && Stranded(worlds[i], l)
    ensures Stranded(worlds[j], l)
    ensures forall k | i <= k < j && l.addr in Ats(passes[k].cfg, passes[k].cfg.targets.Keys) :: !passes[k].ok
    decreases j
  {
    hide Step, Ats, Stranded;
    if i < j {
      StrandedForever(worlds, passes, i, j - 1, l);
      StillStranded(worlds[j - 1], passes[j - 1], worlds[j], l);
    }
  }

  // ----- what routes hold

  /** The pair comes from one target of some pass of the run: its connection and its expanded policies. */
  ghost predicate Lawful(passes: seq<Record>, n: nat, l: Listener, fill: Fill) {
    exists k: nat | k < n && k < |passes| :: FromPass(passes[k], l, fill)
  }

  ghost predicate AllLawful(w: World, passes: seq<Record>, n: nat) {
    forall l | l in w.tables.routes :: l in w.filled && Lawful(passes, n, l, w.filled[l])
  }

  ghost predicate FromPass(r: Record, l: Listener, fill: Fill) {
    && r.done <= r.cfg.targets.Keys
    && exists h | h in r.done && h in r.lists ::
         && fill.0 != null && fill.0.hostname == h && fill.1 == r.lists[h] && At(r.cfg, h) == l.addr
         && IsExpansion(r.cfg.policy, r.cfg.targets[h].policy, fill.1)
  }

  lemma TargetIsFromPass(r: Record, l: Listener, fill: Fill)
    requires r.done <= r.cfg.targets.Keys && FromTarget(r.cfg, r.lists, l, fill, r.done) && Expands(r.cfg, r.lists)
    ensures FromPass(r, l, fill)
  {
    hide IsExpansion;
    var h :| h in r.done && h in r.lists && fill.0 != null && fill.0.hostname == h && fill.1 == r.lists[h]
      && At(r.cfg, h) == l.addr;
    assert IsExpansion(r.cfg.policy, r.cfg.targets[h].policy, fill.1);
  }

  /** A pass fills routes from its own targets only, whether it succeeds or not. */
  lemma StepFills(was: World, r: Record, now: World, l: Listener)
    requires Step(was, r, now) && l in now.tables.routes
    ensures l in now.filled && (FromPass(r, l, now.filled[l]) || (!r.ok && Same(now.filled, was.filled, l)))
  {
    hide Placeable, Unplaceable, FromTarget, Apart, Expands, FromPass, AllServe;
    if r.ok {
      ServingIsFrom(now.tables, r.cfg, r.lists, now.filled, l, r.done);
      TargetIsFromPass(r, l, now.filled[l]);
    } else if l.addr in Ats(r.cfg, r.done) {
      TargetIsFromPass(r, l, now.filled[l]);
    }
  }

  /**
   Over any run of a proxy that starts with nothing, passes that fail included,
   every route always holds the connection to one host together with the expanded
   policies of that same host, from some pass of the run.
   */
  lemma {:induction false} RoutesLawful(worlds: seq<World>, passes: seq<Record>, j: nat)
    requires History(worlds, passes) && j <= |passes| && worlds[0].tables == Tables(map[], map[], map[])
    ensures AllLawful(worlds[j], passes, j)
  {
    hide FromPass;
    if j > 0 {
      RoutesLawful(worlds, passes, j - 1);
      forall l | l in worlds[j].tables.routes
        ensures l in worlds[j].filled && Lawful(passes, j, l, worlds[j].filled[l]) {
        RouteLawful(worlds, passes, j, l);
      }
    }
  }

  lemma RouteLawful(worlds: seq<World>, passes: seq<Record>, j: nat, l: Listener)
    requires History(worlds, passes) && 0 < j <= |passes| && l in worlds[j].tables.routes
    requires AllLawful(worlds[j - 1], passes, j - 1)
    ensures l in worlds[j].filled && Lawful(passes, j, l, worlds[j].filled[l])
  {
    var was, r, now := worlds[j - 1], passes[j - 1], worlds[j];
    StepFills(was, r, now, l);
    if !FromPass(r, l, now.filled[l]) {
      FailedTables(was, r, now);
      var k: nat :| k < j - 1 && k < |passes| && FromPass(passes[k], l, was.filled[l]);
    }
  }

  lemma FailedTables(was: World, r: Record, now: World)
    requires Step(was, r, now) && !r.ok
    ensures now.tables == was.tables
  {
    hide Placeable, Unplaceable, FromTarget, Consistent, Expands, AllServe, Refilled;
  }

  /**
   After a pass that succeeds with distinct ports, the listener of a target serves
   that target: its route holds the target's own connection and policies.
   */
  lemma TargetServed(was: World, r: Record, now: World, h: string)
    requires Step(was, r, now) && r.ok && DistinctPorts(r.cfg) && h in r.cfg.targets
    ensures At(r.cfg, h) in now.tables.listeners && h in now.tables.connByHostname
            && now.tables.connByHostname[h].hostname == h
    ensures var l := now.tables.listeners[At(r.cfg, h)];
            l in now.filled && l in now.tables.routes && now.filled[l] == (now.tables.connByHostname[h], r.lists[h])
  {
    hide IsExpansion, Conserves, Apart, Placeable, Unplaceable, Refilled;
    assert At(r.cfg, h) in Ats(r.cfg, r.cfg.targets.Keys);
    var l := now.tables.listeners[At(r.cfg, h)];
    assert Serving(now.tables, r.cfg, r.lists, l, now.filled[l], r.cfg.targets.Keys);
  }

  /**
   Who is served what. After a pass that succeeds with distinct ports, the look-up
   for a client of a target's listener gives the connection to that very host with
   the policy of the least entry, among the base policies and the target's own, that
   contains the client; and nothing if there are entries but none contains it.
   */
  method ServeClient(p: Proxy, net: Network, cfg: Config, refused: set<AddrPort>, h: string, client: Addr)
    returns (ok: bool, r: Option<(Backend?, Policy)>)
    requires p.Valid() && Live(p.mu, net) && h in cfg.targets && DistinctPorts(cfg)
    modifies p, net, cfg, cfg.targets.Values, p.mu.routes.Values, p.mu.listeners.Values
    ensures ok ==> h in p.mu.connByHostname && p.mu.connByHostname[h].hostname == h
    ensures ok ==> (cfg.bind, cfg.targets[h].proxyPort) in p.mu.listeners
    ensures ok ==> forall e | Least(e, AllEntries(cfg.policy, cfg.targets[h].policy), client) ::
              r == Some((p.mu.connByHostname[h], e.policy))
    ensures ok && AllEntries(cfg.policy, cfg.targets[h].policy) != {} ==>
              (r.Some? <==> exists e | e in AllEntries(cfg.policy, cfg.targets[h].policy) :: e.prefix.Contains(client))
  {
    hide Turned, InOrder, Proxy.Now, Consistent, Live, IsExpansion, AllEntries, Least, Expands, DistinctPorts, Step;
    hide Lookup;
    ghost var was, record := p.Now(net), Record(cfg, map[], {}, false, {}, "");
    ok, record := Pass(p, net, cfg, refused);
    r := None;
    if ok {
      Routed(p, net, cfg, was, record, h);
      r := p.PolicyFor(p.mu.listeners[At(cfg, h)], client);
      ListSelects(cfg, record, h, client);
    }
  }

  /** The route of a target's listener, after such a pass. */
  lemma Routed(p: Proxy, net: Network, cfg: Config, was: World, record: Record, h: string)
    requires Step(was, record, p.Now(net)) && record.ok && record.cfg == cfg && DistinctPorts(cfg) && h in cfg.targets
    ensures At(cfg, h) in p.mu.listeners && h in p.mu.connByHostname && p.mu.connByHostname[h].hostname == h
    ensures Expands(cfg, record.lists) && h in record.lists
    ensures var l := p.mu.listeners[At(cfg, h)];
            && l in p.mu.routes && p.mu.routes[l].mdc == p.mu.connByHostname[h]
            && p.mu.routes[l].policies == record.lists[h]
  {
    TargetServed(was, record, p.Now(net), h);
    ServedRoute(p, net, cfg, h);
    hide Turned, InOrder, Proxy.Now, DistinctPorts, IsExpansion;
  }

  /** What the tables and the routes are, in the world and in the proxy. */
  lemma ServedRoute(p: Proxy, net: Network, cfg: Config, h: string)
    requires h in cfg.targets
    ensures var now := p.Now(net);
            && now.tables == p.mu && now.filled.Keys == p.mu.routes.Keys
            && forall l | l in p.mu.routes :: now.filled[l] == (p.mu.routes[l].mdc, p.mu.routes[l].policies)
  {
  }

  lemma ListSelects(cfg: Config, r: Record, h: string, client: Addr)
    requires r.cfg == cfg && r.lists == Lists(cfg) && Expands(cfg, r.lists) && h in cfg.targets
    ensures h in r.lists
    ensures var all := AllEntries(cfg.policy, cfg.targets[h].policy);
            && (forall e | Least(e, all, client) :: Lookup(r.lists[h], client) == Some(e.policy))
            && (all != {} ==> (Lookup(r.lists[h], client).Some? <==> exists e | e in all :: e.prefix.Contains(client)))
  {
    hide IsExpansion, AllEntries;
    assert IsExpansion(cfg.policy, cfg.targets[h].policy, r.lists[h]);
    if AllEntries(cfg.policy, cfg.targets[h].policy) != {} {
      PolicySelection(cfg.policy, cfg.targets[h].policy, r.lists[h], client);
    }
  }

  // ----- a configuration that leaks

  /**
   A pass that fails at an address it could have had, neither refused nor taken,
   loses its own listener for that address.
   */
  lemma FreeAddressLost(was: World, r: Record, now: World) returns (lost: Listener)
    requires Step(was, r, now) && !r.ok
    requires r.failed in r.cfg.targets && At(r.cfg, r.failed) !in r.refused + Taken(was)
    ensures lost !in was.created && lost.addr == At(r.cfg, r.failed) && Stranded(now, lost)
  {
    FailedAt(was, r, now);
    var h :| h in r.done && At(r.cfg, h) == At(r.cfg, r.failed);
    FailureStrands(was, r, now, h);
    lost :| lost !in was.created && lost.addr == At(r.cfg, h) && Stranded(now, lost);
  }

  lemma FailedAt(was: World, r: Record, now: World)
    requires Step(was, r, now) && !r.ok
    ensures r.done <= r.cfg.targets.Keys && r.failed in r.cfg.targets
    ensures Unplaceable(was.tables, r.cfg, r.refused + Taken(was), r.done, r.failed)
  {
    hide Expands, Placeable, Unplaceable, Apart, Refilled, Adopted, Consistent;
  }

  /** Two targets with one port fail the pass of a new proxy. */
  lemma SharedPortFails(was: World, r: Record, now: World, g: string, h: string)
    requires Step(was, r, now) && was.tables.listeners == map[]
    requires g in r.cfg.targets && h in r.cfg.targets && g != h && At(r.cfg, g) == At(r.cfg, h)
    ensures !r.ok
  {
    hide Expands, Unplaceable, Apart, Refilled, Adopted, Consistent;
  }

  const PORT := 5051

  lemma Fresh(p: Proxy, net: Network)
    requires p.mu == Tables(map[], map[], map[]) && net.created == {}
    ensures p.Valid() && Live(p.mu, net) && Taken(p.Now(net)) == {} && p.Now(net).tables == p.mu
  {
  }

  /** A pass, with its record. */
  method Pass(p: Proxy, net: Network, cfg: Config, refused: set<AddrPort>) returns (ok: bool, ghost r: Record)
    requires p.Valid() && Live(p.mu, net)
    modifies p, net, cfg, cfg.targets.Values, p.mu.routes.Values, p.mu.listeners.Values
    ensures p.Valid() && Live(p.mu, net) && Step(old(p.Now(net)), r, p.Now(net))
    ensures r.cfg == cfg && r.refused == refused && r.ok == ok && r.lists == Lists(cfg)
  {
    hide Turned, InOrder, Expands, Proxy.Now, Consistent, Live;
    NowInOrder(p, net);
    ghost var done, failed;
    ok, done, failed := p.Reconfigure(net, cfg, refused);
    NowInOrder(p, net);
    r := Record(cfg, Lists(cfg), refused, ok, done, failed);
  }

  /**
   Two targets on one port: whichever is visited first gets the listener, the other
   fails the pass, and the listener is lost.
   */
  method LoseListener(p: Proxy, net: Network) returns (ok: bool, ghost r: Record, ghost lost: Listener)
    requires p.mu == Tables(map[], map[], map[]) && net.created == {}
    modifies p, net
    ensures p.Valid() && Live(p.mu, net) && p.mu == old(p.mu) && Step(old(p.Now(net)), r, p.Now(net))
    ensures !ok && !r.ok && r.refused == {} && lost.addr == ([], PORT) && Stranded(p.Now(net), lost)
  {
    hide Step, Taken, Stranded, Proxy.Now;
    Fresh(p, net);
    ghost var was := p.Now(net);
    var one := new Target(map[], PORT);
    var two := new Target(map[], PORT);
    var shared := new Config([], 0, map[], map["one" := one, "two" := two]);
    ok, r := Pass(p, net, shared, {});
    SharedPortFails(was, r, p.Now(net), "one", "two");
    FailedAt(was, r, p.Now(net));
    lost := FreeAddressLost(was, r, p.Now(net));
    FailedTables(was, r, p.Now(net));
    NowTables(p, net);
  }

  lemma NowTables(p: Proxy, net: Network)
    ensures p.Now(net).tables == p.mu
  {
  }

  /**
   The corrected configuration, with one of the two targets alone, fails after
   that too, and so does every later one with a target on that port.
   */
  method LeakedForGood()
    returns (first: bool, second: bool, ghost lost: Listener, ghost worlds: seq<World>, ghost passes: seq<Record>)
    ensures !first && !second && |passes| == 2 && History(worlds, passes)
    ensures passes[0].refused == passes[1].refused == {} && passes[1].cfg.targets.Keys == {"one"}
    ensures lost.addr == ([], PORT) && Stranded(worlds[2], lost)
  {
    hide Step, Stranded, Proxy.Now;
    var net := new Network();
    var p := new Proxy();
    ghost var r0, r1;
    ghost var w0 := p.Now(net);
    first, r0, lost := LoseListener(p, net);
    ghost var w1 := p.Now(net);
    var only := new Target(map[], PORT);
    var alone := new Config([], 0, map[], map["one" := only]);
    assert p.Now(net) == w1;
    second, r1 := Pass(p, net, alone, {});
    assert lost.addr == At(alone, "one");
    StillStranded(w1, r1, p.Now(net), lost);
    worlds, passes := [w0, w1, p.Now(net)], [r0, r1];
  }
}
