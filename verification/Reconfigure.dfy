/**
 The proxy's tables and the callback that rebuilds them for a new configuration,
 with connections, listeners and routes as objects that outlive a generation.
 */
module Reconfigure {
  import opened Wrappers
  import opened Policies

  type AddrPort = (Addr, nat)

  /** `conn.Conn`, known here by its host. */
  class Backend {
    const hostname: string

    constructor (hostname: string)
      ensures this.hostname == hostname
    {
      this.hostname := hostname;
    }
  }

  class Listener {
    const addr: AddrPort
    var open: bool

    constructor (addr: AddrPort)
      ensures this.addr == addr && open
    {
      this.addr, open := addr, true;
    }

    method Close()
      modifies this
      ensures !open
    {
      open := false;
    }
  }

  /** `listenerRoute`. */
  class Route {
    var mdc: Backend?
    var policies: seq<OrderedPolicy>

    constructor ()
      ensures mdc == null && policies == []
    {
      mdc, policies := null, [];
    }

    method Get(client: Addr) returns (r: Option<(Backend?, Policy)>)
      ensures r.Some? <==> exists i | 0 <= i < |policies| :: policies[i].prefix.Contains(client)
      ensures Lookup(policies, client) == (if r.Some? then Some(r.value.1) else None) && (r.Some? ==> r.value.0 == mdc)
      ensures forall i | 0 <= i < |policies| && policies[i].prefix.Contains(client) ::
                (forall j | 0 <= j < i :: !policies[j].prefix.Contains(client)) ==> r == Some((mdc, policies[i].policy))
    {
      for i := 0 to |policies|
        invariant forall j | 0 <= j < i :: !policies[j].prefix.Contains(client)
      {
        if policies[i].prefix.Contains(client) {
          LookupAt(policies, client, i);
          return Some((mdc, policies[i].policy));
        }
      }
      LookupNone(policies, client);
      return None;
    }
  }

  /** Every listener this process has opened. A listen fails when it is refused or the address is taken. */
  class Network {
    var created: set<Listener>

    constructor ()
      ensures created == {}
    {
      created := {};
    }

    /** The addresses taken. */
    function Busy(): set<AddrPort>
      reads this, created
    {
      set l | l in created && l.open :: l.addr
    }

    /** The listeners that are open. */
    ghost function Open(): set<Listener>
      reads this, created
    {
      set l | l in created && l.open
    }

    method Listen(addr: AddrPort, refused: set<AddrPort>) returns (l: Listener?)
      modifies this
      ensures l == null <==> addr in refused + old(Busy())
      ensures l == null ==> created == old(created)
      ensures l != null ==> fresh(l) && l.open && l.addr == addr && created == old(created) + {l}
    {
      if addr in refused + Busy() { return null; }
      l := new Listener(addr);
      created := created + {l};
    }
  }

  datatype Tables = Tables(
    connByHostname: map<string, Backend>,
    listeners: map<AddrPort, Listener>,
    routes: map<Listener, Route>)

  /** Each object is held under its own key. */
  ghost predicate Keyed(t: Tables) {
    && (forall h | h in t.connByHostname :: t.connByHostname[h].hostname == h)
    && (forall a | a in t.listeners :: t.listeners[a].addr == a)
  }

  /** The routes are those of the listeners. */
  ghost predicate Listed(t: Tables) {
    && (forall a | a in t.listeners :: t.listeners[a] in t.routes)
    && (forall l | l in t.routes :: l.addr in t.listeners && t.listeners[l.addr] == l)
  }

  /** No two listeners share a route. */
  ghost predicate Apart(t: Tables) {
    forall l, m | l in t.routes && m in t.routes && l != m :: t.routes[l] != t.routes[m]
  }

  ghost predicate Consistent(t: Tables) { Keyed(t) && Listed(t) && Apart(t) }

  /** What two generations both have is the same objects. */
  ghost predicate Conserves(was: Tables, now: Tables) {
    && (forall h | h in was.connByHostname && h in now.connByHostname :: now.connByHostname[h] == was.connByHostname[h])
    && (forall a | a in was.listeners && a in now.listeners :: now.listeners[a] == was.listeners[a])
    && (forall l | l in was.routes && l in now.routes :: now.routes[l] == was.routes[l])
  }

  function At(cfg: Config, h: string): AddrPort
    requires h in cfg.targets
  {
    (cfg.bind, cfg.targets[h].proxyPort)
  }

  /** The addresses of some targets. */
  ghost function Ats(cfg: Config, hosts: set<string>): set<AddrPort>
    requires hosts <= cfg.targets.Keys
  {
    set h | h in hosts :: At(cfg, h)
  }

  type Fill = (Backend?, seq<OrderedPolicy>)

  /** What some routes hold. */
  ghost function Filled(routes: map<Listener, Route>): (m: map<Listener, Fill>)
    reads routes.Values
    ensures m.Keys == routes.Keys
  {
    map l | l in routes :: (routes[l].mdc, routes[l].policies)
  }

  /** The routes of the last generation and those of the next. */
  function Both(was: Tables, next: Tables): (m: map<Listener, Route>)
    ensures m.Keys == was.routes.Keys + next.routes.Keys
  {
    was.routes + next.routes
  }

  ghost predicate Same(a: map<Listener, Fill>, b: map<Listener, Fill>, l: Listener) {
    l in a && l in b && a[l] == b[l]
  }

  /** What a pass starts from. */
  datatype Pass = Pass(
    lists: map<string, seq<OrderedPolicy>>, before: map<Listener, Fill>, busy: set<AddrPort>, created: set<Listener>,
    open: set<Listener>, refused: set<AddrPort>)

  /** Routes the next tables do not have hold what they held. */
  ghost predicate Untouched(was: Tables, next: Tables, filled: map<Listener, Fill>, before: map<Listener, Fill>) {
    forall l | l in was.routes && l !in next.routes :: Same(filled, before, l)
  }

  lemma UntouchedStill(was: Tables, next: Tables, next': Tables, filled: map<Listener, Fill>,
                       filled': map<Listener, Fill>, before: map<Listener, Fill>)
    requires Untouched(was, next, filled, before) && Untouched(was, next', filled', filled)
             && next.routes.Keys <= next'.routes.Keys
    ensures Untouched(was, next', filled', before)
  {
  }

  /** The ordered policies of the targets. */
  ghost function Lists(cfg: Config): (m: map<string, seq<OrderedPolicy>>)
    reads cfg.targets.Values
    ensures m.Keys == cfg.targets.Keys
  {
    map h | h in cfg.targets :: cfg.targets[h].ordered
  }

  /** The connection the tables have for target h, with the policies of that same target. */
  ghost predicate Carries(t: Tables, lists: map<string, seq<OrderedPolicy>>, fill: Fill, h: string) {
    h in lists && h in t.connByHostname && fill == (t.connByHostname[h], lists[h])
  }

  /** Each of these routes carries a target of its listener's address. */
  ghost predicate AllServe(t: Tables, cfg: Config, lists: map<string, seq<OrderedPolicy>>, filled: map<Listener, Fill>,
                           done: set<string>)
    requires done <= cfg.targets.Keys
  {
    forall l | l in t.routes :: l in filled && Serving(t, cfg, lists, l, filled[l], done)
  }

  ghost predicate Serving(t: Tables, cfg: Config, lists: map<string, seq<OrderedPolicy>>, l: Listener, fill: Fill,
                          done: set<string>)
    requires done <= cfg.targets.Keys
  {
    exists h | h in done :: Carries(t, lists, fill, h) && At(cfg, h) == l.addr
  }

  /** A connection to one of these targets, of the listener's address, with the policies of that same target. */
  ghost predicate FromTarget(cfg: Config, lists: map<string, seq<OrderedPolicy>>, l: Listener, fill: Fill,
                             hosts: set<string>)
    requires hosts <= cfg.targets.Keys
  {
    exists h | h in hosts && h in lists ::
           fill.0 != null && fill.0.hostname == h && fill.1 == lists[h] && At(cfg, h) == l.addr
  }

  /** The routes of the addresses of these targets have been refilled by one of them; the others hold what they held. */
  ghost predicate Refilled(t: Tables, cfg: Config, lists: map<string, seq<OrderedPolicy>>, filled: map<Listener, Fill>,
                           before: map<Listener, Fill>, done: set<string>)
    requires done <= cfg.targets.Keys
  {
    forall l | l in t.routes ::
      if l.addr in Ats(cfg, done) then l in filled && FromTarget(cfg, lists, l, filled[l], done)
        else Same(filled, before, l)
  }

  /** No two targets want one address. */
  ghost predicate DistinctPorts(cfg: Config) {
    forall g, h | g in cfg.targets && h in cfg.targets && g != h :: At(cfg, g) != At(cfg, h)
  }

  /** What the loop over the targets has built for those in `done`. */
  ghost predicate Built(was: Tables, next: Tables, cfg: Config, done: set<string>)
    requires done <= cfg.targets.Keys
  {
    && Consistent(next) && Conserves(was, next)
    && next.connByHostname.Keys == done
    && next.listeners.Keys == Ats(cfg, done)
    && (forall l | l in next.routes && l !in was.routes :: next.routes[l] !in was.routes.Values)
  }

  /** What the loop finds for one target: the objects of the last generation, or new ones. */
  ghost predicate Fits(was: Tables, next: Tables, cfg: Config, h: string, c: Backend, l: Listener, r: Route)
    requires h in cfg.targets
  {
    && c.hostname == h && (h in was.connByHostname ==> c == was.connByHostname[h])
    && l.addr == At(cfg, h)
    && if l.addr in was.listeners then l == was.listeners[l.addr] && l in was.routes && r == was.routes[l]
       else l.addr !in next.listeners && r !in was.routes.Values && r !in next.routes.Values
  }

  function Add(next: Tables, h: string, c: Backend, l: Listener, r: Route): Tables {
    Tables(next.connByHostname[h := c], next.listeners[l.addr := l], next.routes[l := r])
  }

  lemma BuiltOneMore(was: Tables, next: Tables, cfg: Config, done: set<string>, h: string, c: Backend, l: Listener,
                     r: Route)
    requires Consistent(was) && done <= cfg.targets.Keys && h in cfg.targets && Built(was, next, cfg, done)
    requires Fits(was, next, cfg, h, c, l, r)
    ensures Built(was, Add(next, h, c, l, r), cfg, done + {h})
    ensures Consistent(Add(next, h, c, l, r)) && Conserves(was, Add(next, h, c, l, r))
    ensures Add(next, h, c, l, r).listeners == next.listeners[At(cfg, h) := l]
  {
    hide Consistent, Conserves, Ats, At;
    var next' := Add(next, h, c, l, r);
    ConsistentOneMore(was, next, h, c, l, r);
    ConservesOneMore(was, next, h, c, l, r);
    AtsOneMore(cfg, done, h);
    hide Fits;
    assert next'.connByHostname.Keys == done + {h};
    assert next'.listeners.Keys == next.listeners.Keys + {l.addr};
  }

  lemma AtsOneMore(cfg: Config, done: set<string>, h: string)
    requires done <= cfg.targets.Keys && h in cfg.targets
    ensures Ats(cfg, done + {h}) == Ats(cfg, done) + {At(cfg, h)}
  {
  }

  lemma ConservesOneMore(was: Tables, next: Tables, h: string, c: Backend, l: Listener, r: Route)
    requires Consistent(was) && Conserves(was, next)
    requires h in was.connByHostname ==> c == was.connByHostname[h]
    requires l.addr in was.listeners ==> l == was.listeners[l.addr] && r == was.routes[l]
    requires forall l | l in next.routes && l !in was.routes :: next.routes[l] !in was.routes.Values
    requires l.addr !in was.listeners ==> r !in was.routes.Values
    ensures var next' := Add(next, h, c, l, r);
            && Conserves(was, next')
            && forall m | m in next'.routes && m !in was.routes :: next'.routes[m] !in was.routes.Values
  {
  }

  lemma ConsistentOneMore(was: Tables, next: Tables, h: string, c: Backend, l: Listener, r: Route)
    requires Consistent(was) && Consistent(next) && Conserves(was, next) && c.hostname == h
    requires forall l | l in next.routes && l !in was.routes :: next.routes[l] !in was.routes.Values
    requires if l.addr in was.listeners then l == was.listeners[l.addr] && r == was.routes[l]
             else l.addr !in next.listeners && r !in was.routes.Values && r !in next.routes.Values
    ensures Consistent(Add(next, h, c, l, r))
  {
    hide Apart;
    assert Keyed(Add(next, h, c, l, r));
    assert Listed(Add(next, h, c, l, r)) by {
      if l.addr in next.listeners { assert next.listeners[l.addr] == l; }
    }
    ApartOneMore(was, next, h, c, l, r);
  }

  lemma ApartOneMore(was: Tables, next: Tables, h: string, c: Backend, l: Listener, r: Route)
    requires Apart(was) && Apart(next) && Conserves(was, next)
    requires forall l | l in next.routes && l !in was.routes :: next.routes[l] !in was.routes.Values
    requires if l in was.routes then r == was.routes[l] else r !in next.routes.Values
    ensures Apart(Add(next, h, c, l, r))
  {
    forall m | m in next.routes && m != l ensures next.routes[m] != r {
      if m in was.routes { assert next.routes[m] == was.routes[m]; }
    }
  }

  /** The listeners of the tables are open. */
  ghost predicate Live(t: Tables, net: Network)
    reads net, t.listeners.Values
  {
    forall a | a in t.listeners :: t.listeners[a].open && t.listeners[a] in net.created && t.listeners[a].addr == a
  }

  /** The address of every target is one the tables have, or is free and wanted by that target only. */
  ghost predicate Placeable(was: Tables, cfg: Config, taken: set<AddrPort>, hosts: set<string>)
    requires hosts <= cfg.targets.Keys
  {
    forall h | h in hosts && At(cfg, h) !in was.listeners ::
      At(cfg, h) !in taken && forall g | g in hosts && g != h :: At(cfg, g) != At(cfg, h)
  }

  /** Nothing can listen for this target, with the addresses of the others taken too. */
  ghost predicate Unplaceable(was: Tables, cfg: Config, taken: set<AddrPort>, done: set<string>, h: string)
    requires done <= cfg.targets.Keys && h in cfg.targets
  {
    At(cfg, h) !in was.listeners && At(cfg, h) in taken + Ats(cfg, done)
  }

  /** The new tables' listeners for addresses the old ones do not have are the listeners created since. */
  ghost predicate Novel(was: Tables, next: Tables, before: set<Listener>, created: set<Listener>) {
    && created == before + next.listeners.Values
    && forall a | a in next.listeners && a !in was.listeners :: next.listeners[a] !in before
  }

  /** One more address has its listener: the old tables' own, or one just created. */
  ghost predicate Opened(was: Tables, next: Tables, next': Tables, addr: AddrPort, created: set<Listener>,
                         created': set<Listener>) {
    && addr in next'.listeners && next'.listeners == next.listeners[addr := next'.listeners[addr]]
    && next'.listeners.Values == next.listeners.Values + {next'.listeners[addr]}
    && created' == created + {next'.listeners[addr]}
    && (addr !in was.listeners ==> next'.listeners[addr] !in created)
  }

  lemma NovelOneMore(was: Tables, next: Tables, next': Tables, addr: AddrPort, before: set<Listener>,
                     created: set<Listener>, created': set<Listener>)
    requires Novel(was, next, before, created) && Opened(was, next, next', addr, created, created')
    ensures Novel(was, next', before, created')
  {
  }

  function Addresses(ls: set<Listener>): set<AddrPort> { set l | l in ls :: l.addr }

  /** The addresses of the listeners created are those of the new tables that the old ones lack. */
  lemma NewAddresses(was: Tables, next: Tables, before: set<Listener>, created: set<Listener>)
    requires Novel(was, next, before, created) && Keyed(next) && Conserves(was, next) && was.listeners.Values <= before
    ensures before <= created && Addresses(created - before) == next.listeners.Keys - was.listeners.Keys
  {
    forall l | l in created - before ensures l.addr in next.listeners.Keys - was.listeners.Keys {
      var a :| a in next.listeners && next.listeners[a] == l;
    }
    forall a | a in next.listeners.Keys - was.listeners.Keys ensures a in Addresses(created - before) {
      assert next.listeners[a] in created - before && next.listeners[a].addr == a;
    }
  }

  lemma PlaceableOneMore(was: Tables, cfg: Config, taken: set<AddrPort>, done: set<string>, h: string)
    requires done <= cfg.targets.Keys && h in cfg.targets && h !in done && Placeable(was, cfg, taken, done)
    ensures Placeable(was, cfg, taken, done + {h}) <==>
            At(cfg, h) in was.listeners || At(cfg, h) !in taken + Ats(cfg, done)
    ensures Ats(cfg, done + {h}) == Ats(cfg, done) + {At(cfg, h)}
  {
    if At(cfg, h) !in was.listeners && At(cfg, h) in Ats(cfg, done) {
      var g :| g in done && At(cfg, g) == At(cfg, h);
    }
  }

  lemma PlaceableMore(was: Tables, cfg: Config, taken: set<AddrPort>, hosts: set<string>, more: set<string>)
    requires hosts <= more <= cfg.targets.Keys && Placeable(was, cfg, taken, more)
    ensures Placeable(was, cfg, taken, hosts)
  {
  }

  lemma NothingBuilt(was: Tables, net: Network, cfg: Config, taken: set<AddrPort>)
    ensures Built(was, Tables(map[], map[], map[]), cfg, {}) && Live(Tables(map[], map[], map[]), net)
    ensures Placeable(was, cfg, taken, {})
            && AllServe(Tables(map[], map[], map[]), cfg, Lists(cfg), Filled(was.routes), {})
  {
  }

  /** Filling the route of one more target disturbs no other. */
  lemma ServeOneMore(was: Tables, next: Tables, cfg: Config, lists: map<string, seq<OrderedPolicy>>,
                     filled: map<Listener, Fill>, done: set<string>, h: string, c: Backend, l: Listener, r: Route)
    requires h in cfg.targets && h in lists && done <= cfg.targets.Keys && h !in done
    requires AllServe(next, cfg, lists, filled, done) && Fits(was, next, cfg, h, c, l, r)
    ensures AllServe(Add(next, h, c, l, r), cfg, lists, filled[l := (c, lists[h])], done + {h})
  {
    var next' := Add(next, h, c, l, r);
    var filled' := filled[l := (c, lists[h])];
    forall m | m in next'.routes ensures m in filled' && Serving(next', cfg, lists, m, filled'[m], done + {h}) {
      if m == l {
        assert Carries(next', lists, filled'[m], h);
      } else {
        assert Serving(next, cfg, lists, m, filled[m], done);
        var g :| g in done && Carries(next, lists, filled[m], g) && At(cfg, g) == m.addr;
        assert Carries(next', lists, filled'[m], g);
      }
    }
  }

  lemma FitsRoute(was: Tables, next: Tables, cfg: Config, h: string, c: Backend, l: Listener, r: Route)
    requires Consistent(was) && h in cfg.targets && Fits(was, next, cfg, h, c, l, r)
    ensures l.addr == At(cfg, h) && Add(next, h, c, l, r).routes == next.routes[l := r] && Apart(was)
    ensures if l in was.routes then was.routes[l] == r else r !in was.routes.Values && r !in next.routes.Values
  {
  }

  lemma ValuesOneMore(was: Tables, next: Tables, cfg: Config, h: string, c: Backend, l: Listener, r: Route)
    requires Conserves(was, next) && h in cfg.targets && Fits(was, next, cfg, h, c, l, r)
    ensures Add(next, h, c, l, r).listeners.Values == next.listeners.Values + {l}
  {
    var next' := Add(next, h, c, l, r);
    assert next'.listeners == next.listeners[l.addr := l];
    if l.addr in next.listeners { assert next.listeners[l.addr] == l; }
    forall m | m in next.listeners.Values + {l} ensures m in next'.listeners.Values {
      if m != l {
        var a :| a in next.listeners && next.listeners[a] == m;
        assert next'.listeners[a] == m;
      } else {
        assert next'.listeners[l.addr] == l;
      }
    }
  }

  lemma BuiltConserves(was: Tables, next: Tables, cfg: Config, done: set<string>)
    requires done <= cfg.targets.Keys && Built(was, next, cfg, done)
    ensures Consistent(next) && Conserves(was, next)
    ensures forall l | l in next.routes && l !in was.routes :: next.routes[l] !in was.routes.Values
  {
  }

  lemma LiveCreated(t: Tables, net: Network)
    requires Live(t, net)
    ensures t.listeners.Values <= net.created
  {
  }

  lemma TakenByLive(t: Tables, net: Network, addr: AddrPort)
    requires Live(t, net)
    ensures addr in t.listeners ==> addr in net.Busy()
  {
  }

  lemma RouteKnown(t: Tables, l: Listener)
    requires Consistent(t)
    ensures l in t.routes <==> l.addr in t.listeners && t.listeners[l.addr] == l
  {
  }

  lemma LiveOneMore(t: Tables, t': Tables, net: Network, l: Listener)
    requires Live(t, net) && l.open && l in net.created && t'.listeners == t.listeners[l.addr := l]
    ensures Live(t', net)
  {
  }

  /** Both generations' routes are apart from the route of one more target. */
  lemma BothOneMore(was: Tables, next: Tables, l: Listener, r: Route)
    requires Apart(was) && Conserves(was, next)
    requires forall l | l in next.routes && l !in was.routes :: next.routes[l] !in was.routes.Values
    requires if l in was.routes then r == was.routes[l] else r !in was.routes.Values && r !in next.routes.Values
    ensures forall m | m in Both(was, next) && m != l :: Both(was, next)[m] != r
  {
    forall m | m in Both(was, next) && m != l ensures Both(was, next)[m] != r {
      if m in was.routes { assert Both(was, next)[m] == was.routes[m]; }
    }
  }

  /** Writing r as the route of l, then filling it. */
  lemma FillOneMore(routes: map<Listener, Route>, l: Listener, r: Route, fill: Fill)
    ensures Filled(routes[l := r])[l := fill] == Filled(routes)[l := fill]
  {
  }

  /** Everything the loop keeps, after one more target. */
  lemma OneMore(was: Tables, net: Network, next: Tables, cfg: Config, lists: map<string, seq<OrderedPolicy>>,
                filled: map<Listener, Fill>, done: set<string>, h: string, c: Backend, l: Listener, r: Route)
    requires Consistent(was) && h in cfg.targets && h in lists && done <= cfg.targets.Keys && h !in done
    requires Built(was, next, cfg, done) && Fits(was, next, cfg, h, c, l, r) && AllServe(next, cfg, lists, filled, done)
    requires Live(next, net) && l.open && l in net.created
    ensures var next' := Add(next, h, c, l, r);
            && Built(was, next', cfg, done + {h}) && Live(next', net)
            && l in next'.routes && next'.listeners == next.listeners[At(cfg, h) := l]
            && next'.listeners.Values == next.listeners.Values + {l}
            && Both(was, next') == Both(was, next)[l := r]
            && AllServe(next', cfg, lists, filled[l := (c, lists[h])], done + {h})
  {
    hide Built, Consistent, Live, Conserves, Fits, AllServe, Add, Apart;
    BuiltOneMore(was, next, cfg, done, h, c, l, r);
    BuiltConserves(was, next, cfg, done);
    ValuesOneMore(was, next, cfg, h, c, l, r);
    FitsRoute(was, next, cfg, h, c, l, r);
    LiveOneMore(next, Add(next, h, c, l, r), net, l);
    ServeOneMore(was, next, cfg, lists, filled, done, h, c, l, r);
  }

  // ----- passes, as relations between what was and what is

  /** The tables, what the routes hold, and the listeners of the process, all and open. */
  datatype World = World(tables: Tables, filled: map<Listener, Fill>, created: set<Listener>, open: set<Listener>)

  /** A pass: its configuration with the policy lists, the addresses refused, and how it went. */
  datatype Record = Record(
    cfg: Config, lists: map<string, seq<OrderedPolicy>>, refused: set<AddrPort>,
    ok: bool, done: set<string>, failed: string)

  ghost function Taken(w: World): set<AddrPort> { set l | l in w.open :: l.addr }

  function Dropped(was: Tables, now: Tables): set<Listener> {
    set a | a in was.listeners && a !in now.listeners :: was.listeners[a]
  }

  lemma ServeSame(t: Tables, cfg: Config, lists: map<string, seq<OrderedPolicy>>, filled: map<Listener, Fill>,
                  filled': map<Listener, Fill>, done: set<string>)
    requires done <= cfg.targets.Keys && AllServe(t, cfg, lists, filled, done)
    requires forall l | l in t.routes :: l in filled' && l in filled && filled'[l] == filled[l]
    ensures AllServe(t, cfg, lists, filled', done)
  {
  }

  /** What the loop has made of the old tables' routes. */
  lemma RefilledByLoop(was: Tables, next: Tables, cfg: Config, lists: map<string, seq<OrderedPolicy>>,
                       filled: map<Listener, Fill>,
                       filledWas: map<Listener, Fill>, before: map<Listener, Fill>, done: set<string>)
    requires Consistent(was) && Consistent(next) && Conserves(was, next) && done <= cfg.targets.Keys
    requires next.listeners.Keys == Ats(cfg, done) && AllServe(next, cfg, lists, filled, done)
             && Untouched(was, next, filled, before)
    requires forall l | l in was.routes :: l in filledWas && l in filled && filledWas[l] == filled[l]
    ensures Refilled(was, cfg, lists, filledWas, before, done)
  {
    hide Apart, Ats;
    forall l | l in was.routes
      ensures if l.addr in Ats(cfg, done) then FromTarget(cfg, lists, l, filledWas[l], done)
              else Same(filledWas, before, l)
    {
      if l.addr in Ats(cfg, done) {
        assert next.listeners[l.addr] == l;
        ServingIsFrom(next, cfg, lists, filled, l, done);
      } else {
        assert l !in next.routes;
      }
    }
  }

  lemma ServingIsFrom(t: Tables, cfg: Config, lists: map<string, seq<OrderedPolicy>>, filled: map<Listener, Fill>,
                      l: Listener, done: set<string>)
    requires Consistent(t) && done <= cfg.targets.Keys && AllServe(t, cfg, lists, filled, done) && l in t.routes
    ensures l in filled && FromTarget(cfg, lists, l, filled[l], done)
  {
    assert Serving(t, cfg, lists, l, filled[l], done);
  }

  /** Each list of a pass is the expansion of its target's policies. */
  ghost predicate Expands(cfg: Config, lists: map<string, seq<OrderedPolicy>>) {
    lists.Keys == cfg.targets.Keys && forall h | h in lists :: IsExpansion(cfg.policy, cfg.targets[h].policy, lists[h])
  }

  /** What a pass leaves behind when it succeeds. */
  ghost predicate Adopted(was: Tables, cfg: Config, lists: map<string, seq<OrderedPolicy>>, now: Tables,
                          filled: map<Listener, Fill>) {
    && Conserves(was, now)
    && now.connByHostname.Keys == cfg.targets.Keys && now.listeners.Keys == Ats(cfg, cfg.targets.Keys)
    && AllServe(now, cfg, lists, filled, cfg.targets.Keys)
  }

  /**
   What a pass does. It succeeds exactly when every target can be placed. It
   listens on the addresses of the targets visited that were not held before, and
   on success closes what the new tables drop. When it fails, at a target whose
   address cannot be had, the tables stay, the routes of the addresses visited
   have been refilled, and the new listeners stay open.
   */
  ghost predicate Turned(was: World, r: Record, now: World) {
    && r.done <= r.cfg.targets.Keys && r.lists.Keys == r.cfg.targets.Keys
    && (r.ok <==> Placeable(was.tables, r.cfg, r.refused + Taken(was), r.cfg.targets.Keys))
    && was.created <= now.created
    && Addresses(now.created - was.created) == Ats(r.cfg, r.done) - was.tables.listeners.Keys
    && now.open == was.open + (now.created - was.created) - (if r.ok then Dropped(was.tables, now.tables) else {})
    && if r.ok then
         && r.done == r.cfg.targets.Keys && Adopted(was.tables, r.cfg, r.lists, now.tables, now.filled)
         && now.created == was.created + now.tables.listeners.Values
       else
         && r.failed in r.cfg.targets && r.failed !in r.done
         && Unplaceable(was.tables, r.cfg, r.refused + Taken(was), r.done, r.failed)
         && now.tables == was.tables && Refilled(now.tables, r.cfg, r.lists, now.filled, was.filled, r.done)
  }

  lemma ListsExpand(cfg: Config)
    requires cfg.Expanded()
    ensures Expands(cfg, Lists(cfg))
  {
    hide IsExpansion;
  }

  class Proxy {
    var mu: Tables

    constructor ()
      ensures mu == Tables(map[], map[], map[])
    {
      mu := Tables(map[], map[], map[]);
    }

    ghost predicate Valid()
      reads this
    {
      Consistent(mu)
    }

    method FindConn(h: string) returns (c: Backend)
      requires Valid()
      ensures c.hostname == h && if h in mu.connByHostname then c == mu.connByHostname[h] else fresh(c)
    {
      if h in mu.connByHostname {
        c := mu.connByHostname[h];
      } else {
        c := new Backend(h);
      }
    }

    method FindListener(net: Network, addr: AddrPort, refused: set<AddrPort>, ghost next: Tables) returns (l: Listener?)
      requires Valid() && Live(mu, net) && Live(next, net)
      modifies net
      ensures l == null <==> addr !in mu.listeners && addr in refused + old(net.Busy())
      ensures l != null ==> l.addr == addr && l.open && net.created == old(net.created) + {l}
      ensures l != null ==> if addr in mu.listeners then l == mu.listeners[addr] else fresh(l)
      ensures l == null ==> net.created == old(net.created)
      ensures Live(mu, net) && Live(next, net)
      ensures net.Busy() == old(net.Busy()) + if l == null then {} else {addr}
      ensures l != null && addr !in mu.listeners ==> addr !in next.listeners
    {
      TakenByLive(next, net, addr);
      TakenByLive(mu, net, addr);
      if addr in mu.listeners {
        l := mu.listeners[addr];
      } else {
        l := net.Listen(addr, refused);
      }
    }

    method FindRoute(l: Listener) returns (r: Route)
      ensures if l in mu.routes then r == mu.routes[l] else fresh(r)
    {
      if l in mu.routes {
        r := mu.routes[l];
      } else {
        r := new Route();
      }
    }

    /** The existing route of an address, if there is one. */
    ghost function RouteAt(addr: AddrPort): (r: set<Route>)
      requires Valid()
      reads this
      ensures r <= mu.routes.Values
    {
      if addr in mu.listeners then {mu.routes[mu.listeners[addr]]} else {}
    }

    /** The objects for one target: its connection, its listener, its route. */
    method Find(net: Network, cfg: Config, refused: set<AddrPort>, ghost next: Tables, h: string)
      returns (c: Backend, l: Listener?, r: Route?)
      requires Valid() && Live(mu, net) && Live(next, net) && h in cfg.targets
      modifies net
      ensures l == null <==> At(cfg, h) !in mu.listeners && At(cfg, h) in refused + old(net.Busy())
      ensures l == null ==> net.created == old(net.created)
      ensures Live(mu, net) && Live(next, net)
      ensures net.Busy() == old(net.Busy()) + if l == null then {} else {At(cfg, h)}
      ensures l != null ==> l.open && net.created == old(net.created) + {l}
      ensures l != null && At(cfg, h) !in mu.listeners ==> l !in old(net.created)
      ensures l != null ==> r != null && Fits(mu, next, cfg, h, c, l, r)
      ensures l != null ==> if At(cfg, h) in mu.listeners then RouteAt(At(cfg, h)) == {r} else fresh(r)
    {
      hide Consistent, Live;
      c := FindConn(h);
      l := FindListener(net, At(cfg, h), refused, next);
      if l == null { return c, null, null; }
      RouteKnown(mu, l);
      r := FindRoute(l);
    }

    /** Put a connection and a policy list into one of some routes. */
    static method Fill(ghost routes: map<Listener, Route>, ghost l: Listener, r: Route, c: Backend,
                       policies: seq<OrderedPolicy>)
      requires l in routes && routes[l] == r && forall m | m in routes && m != l :: routes[m] != r
      modifies r
      ensures Filled(routes) == old(Filled(routes))[l := (c, policies)]
    {
      r.mdc := c;
      r.policies := policies;
    }

    /** Where the loop stands after the targets in `done`, given the policy lists and what the routes hold. */
    ghost predicate Progress(net: Network, cfg: Config, lists: map<string, seq<OrderedPolicy>>, next: Tables,
                             filled: map<Listener, Fill>, done: set<string>)
      reads this, net, mu.listeners.Values, next.listeners.Values
    {
      && Live(mu, net) && Live(next, net) && done <= cfg.targets.Keys
      && Built(mu, next, cfg, done) && AllServe(next, cfg, lists, filled, done)
    }

    /** Enter the objects of one target into the next tables and fill its route. */
    method Install(net: Network, cfg: Config, next: Tables, h: string, c: Backend, l: Listener, r: Route,
                   ghost lists: map<string, seq<OrderedPolicy>>, ghost filled: map<Listener, Fill>,
                     ghost done: set<string>)
      returns (next': Tables, ghost filled': map<Listener, Fill>)
      requires Valid() && Progress(net, cfg, lists, next, filled, done) && h in cfg.targets && h !in done
      requires h in lists && lists[h] == cfg.targets[h].ordered && filled == Filled(Both(mu, next))
      requires Fits(mu, next, cfg, h, c, l, r) && l.open && l in net.created
      modifies r
      ensures Progress(net, cfg, lists, next', filled', done + {h}) && filled' == Filled(Both(mu, next'))
      ensures next'.listeners.Values == next.listeners.Values + {l}
              && next'.listeners == next.listeners[At(cfg, h) := l]
      ensures Untouched(mu, next', filled', filled) && next.routes.Keys <= next'.routes.Keys
    {
      hide Built, Consistent, Live, Conserves, Fits, AllServe, At, Add, Filled;
      FillOneMore(Both(mu, next), l, r, (c, lists[h]));
      Separate(next, cfg, done, h, c, l, r);
      Fill(Both(mu, next)[l := r], l, r, c, cfg.targets[h].ordered);
      OneMore(mu, net, next, cfg, lists, filled, done, h, c, l, r);
      next', filled' := Add(next, h, c, l, r), filled[l := (c, lists[h])];
      assert next.routes.Keys <= next'.routes.Keys by { FitsRoute(mu, next, cfg, h, c, l, r); }
    }

    /** The loop body. */
    method Advance(net: Network, cfg: Config, refused: set<AddrPort>, next: Tables, h: string,
                   ghost lists: map<string, seq<OrderedPolicy>>, ghost filled: map<Listener, Fill>,
                     ghost done: set<string>)
      returns (ok: bool, next': Tables, ghost filled': map<Listener, Fill>)
      requires Valid() && Progress(net, cfg, lists, next, filled, done) && h in cfg.targets && h !in done
      requires h in lists && lists[h] == cfg.targets[h].ordered && filled == Filled(Both(mu, next))
      modifies net, RouteAt(At(cfg, h))
      ensures ok <==> At(cfg, h) in mu.listeners || At(cfg, h) !in refused + old(net.Busy())
      ensures Progress(net, cfg, lists, next', filled', if ok then done + {h} else done)
              && filled' == Filled(Both(mu, next'))
      ensures net.Busy() == old(net.Busy()) + if ok then {At(cfg, h)} else {}
      ensures !ok ==> next' == next && net.created == old(net.created)
      ensures ok ==> Opened(mu, next, next', At(cfg, h), old(net.created), net.created)
      ensures Untouched(mu, next', filled', filled) && next.routes.Keys <= next'.routes.Keys
    {
      hide Built, Consistent, Conserves, Fits, AllServe, At, Filled, Live, Network.Busy;
      var c, l, r := Find(net, cfg, refused, next, h);
      if l == null { return false, next, filled; }
      assert filled == Filled(Both(mu, next));
      ok := true;
      next', filled' := Install(net, cfg, next, h, c, l, r, lists, filled, done);
    }

    lemma Separate(next: Tables, cfg: Config, done: set<string>, h: string, c: Backend, l: Listener, r: Route)
      requires Valid() && done <= cfg.targets.Keys && h in cfg.targets
      requires Built(mu, next, cfg, done) && Fits(mu, next, cfg, h, c, l, r)
      ensures forall m | m in Both(mu, next) && m != l :: Both(mu, next)[m] != r
    {
      hide Built, Fits, Both, Consistent, Conserves, Apart;
      BuiltConserves(mu, next, cfg, done);
      FitsRoute(mu, next, cfg, h, c, l, r);
      BothOneMore(mu, next, l, r);
    }

    /** The whole of the loop invariant: also, that the targets so far could be placed, and nothing else was touched. */
    ghost predicate Loop(net: Network, cfg: Config, pass: Pass, next: Tables, filled: map<Listener, Fill>,
                         done: set<string>)
      reads this, net, net.created, mu.listeners.Values, next.listeners.Values
    {
      && Progress(net, cfg, pass.lists, next, filled, done)
      && net.Busy() == pass.busy + Ats(cfg, done) && Placeable(mu, cfg, pass.refused + pass.busy, done)
      && Novel(mu, next, pass.created, net.created)
      && Untouched(mu, next, filled, pass.before)
    }

    method TryTarget(net: Network, cfg: Config, refused: set<AddrPort>, next: Tables, h: string,
                     ghost pass: Pass, ghost filled: map<Listener, Fill>, ghost done: set<string>)
      returns (ok: bool, next': Tables, ghost filled': map<Listener, Fill>)
      requires Valid() && Loop(net, cfg, pass, next, filled, done) && h in cfg.targets && h !in done
               && pass.refused == refused
      requires h in pass.lists && pass.lists[h] == cfg.targets[h].ordered && filled == Filled(Both(mu, next))
      modifies net, mu.routes.Values
      ensures done + {h} <= cfg.targets.Keys && (ok <==> Placeable(mu, cfg, refused + pass.busy, done + {h}))
      ensures Loop(net, cfg, pass, next', filled', if ok then done + {h} else done)
              && filled' == Filled(Both(mu, next'))
      ensures !ok ==> Unplaceable(mu, cfg, refused + pass.busy, done, h)
    {
      hide Progress, Placeable, Network.Busy, At, Ats, Untouched, Filled, Both, Novel, Opened;
      ProgressDone(net, cfg, pass.lists, next, filled, done);
      PlaceableOneMore(mu, cfg, refused + pass.busy, done, h);
      ghost var created := net.created;
      ok, next', filled' := Advance(net, cfg, refused, next, h, pass.lists, filled, done);
      UntouchedStill(mu, next, next', filled, filled', pass.before);
      if ok { NovelOneMore(mu, next, next', At(cfg, h), pass.created, created, net.created); }
    }

    lemma ProgressDone(net: Network, cfg: Config, lists: map<string, seq<OrderedPolicy>>, next: Tables,
                       filled: map<Listener, Fill>, done: set<string>)
      requires Progress(net, cfg, lists, next, filled, done)
      ensures done <= cfg.targets.Keys
    {
    }

    /** The loop over the targets, visited in any order. */
    method Rebuild(net: Network, cfg: Config, refused: set<AddrPort>, ghost pass: Pass)
      returns (ok: bool, next: Tables, ghost filled: map<Listener, Fill>, ghost done: set<string>, ghost failed: string)
      requires Valid() && Live(mu, net)
      requires pass == Pass(Lists(cfg), Filled(mu.routes), net.Busy(), net.created, net.Open(), refused)
      modifies net, mu.routes.Values
      ensures Loop(net, cfg, pass, next, filled, done) && filled == Filled(Both(mu, next)) && done <= cfg.targets.Keys
      ensures ok <==> Placeable(mu, cfg, refused + pass.busy, cfg.targets.Keys)
      ensures ok ==> done == cfg.targets.Keys
      ensures !ok ==>
                failed in cfg.targets && failed !in done && Unplaceable(mu, cfg, refused + pass.busy, done, failed)
    {
      hide Progress, Loop, Placeable, Filled, Network.Busy, Untouched, Unplaceable;
      next, done, filled, failed := Tables(map[], map[], map[]), {}, pass.before, "";
      var todo := cfg.targets.Keys;
      StartLoop(net, cfg, pass);
      while todo != {}
        invariant todo <= cfg.targets.Keys && done == cfg.targets.Keys - todo
        invariant Loop(net, cfg, pass, next, filled, done) && filled == Filled(Both(mu, next))
      {
        var h :| h in todo;
        ok, next, filled := TryTarget(net, cfg, refused, next, h, pass, filled, done);
        if !ok {
          failed := h;
          if Placeable(mu, cfg, refused + pass.busy, cfg.targets.Keys) {
            PlaceableMore(mu, cfg, refused + pass.busy, done + {h}, cfg.targets.Keys);
          }
          return;
        }
        todo, done := todo - {h}, done + {h};
      }
      assert done == cfg.targets.Keys;
      LoopEnds(net, cfg, pass, next, filled, done);
      ok := true;
    }

    lemma LoopEnds(net: Network, cfg: Config, pass: Pass, next: Tables, filled: map<Listener, Fill>, done: set<string>)
      requires Loop(net, cfg, pass, next, filled, done)
      ensures Progress(net, cfg, pass.lists, next, filled, done) && Untouched(mu, next, filled, pass.before)
      ensures Novel(mu, next, pass.created, net.created) && Placeable(mu, cfg, pass.refused + pass.busy, done)
    {
      hide Progress, Untouched, Placeable, Novel;
    }

    lemma StartLoop(net: Network, cfg: Config, pass: Pass)
      requires Live(mu, net) && pass.lists == Lists(cfg) && pass.before == Filled(mu.routes)
      requires pass.busy == net.Busy() && pass.created == net.created
      ensures Loop(net, cfg, pass, Tables(map[], map[], map[]), pass.before, {})
      ensures Filled(Both(mu, Tables(map[], map[], map[]))) == pass.before
    {
      NothingBuilt(mu, net, cfg, pass.refused + pass.busy);
      assert Both(mu, Tables(map[], map[], map[])) == mu.routes;
    }

    /** Close the listeners the next tables do not have. */
    method CloseDropped(next: Tables, ghost net: Network)
      requires Valid() && Live(mu, net) && Live(next, net) && Conserves(mu, next) && Keyed(next)
      modifies mu.listeners.Values
      ensures forall a | a in mu.listeners :: mu.listeners[a].open == (a in next.listeners)
      ensures Live(next, net)
    {
      var todo := mu.listeners.Keys;
      while todo != {}
        invariant todo <= mu.listeners.Keys
        invariant forall a | a in mu.listeners :: mu.listeners[a].open == (a in todo || a in next.listeners)
        invariant Live(next, net)
      {
        var a :| a in todo;
        if a !in next.listeners { mu.listeners[a].Close(); }
        todo := todo - {a};
      }
    }

    /** The end of the callback: close what was dropped and take the new tables. */
    method Adopt(next: Tables, ghost net: Network)
      requires Valid() && Live(mu, net) && Live(next, net) && Conserves(mu, next) && Consistent(next)
      modifies this, mu.listeners.Values
      ensures mu == next && Valid() && Live(mu, net)
      ensures net.Open() == old(net.Open()) - Dropped(old(mu), mu)
    {
      hide Apart;
      CloseDropped(next, net);
      mu := next;
    }

    /** The proxy and the network as they are now. */
    ghost function Now(net: Network): World
      reads this, net, net.created, mu.routes.Values
    {
      World(mu, Filled(mu.routes), net.created, net.Open())
    }

    /** The callback under the lock. */
    method Update(net: Network, cfg: Config, refused: set<AddrPort>, ghost pass: Pass)
      returns (ok: bool, ghost done: set<string>, ghost failed: string)
      requires Valid() && Live(mu, net)
      requires pass == Pass(Lists(cfg), Filled(mu.routes), net.Busy(), net.created, net.Open(), refused)
      modifies this, net, mu.routes.Values, mu.listeners.Values
      ensures Valid() && Live(mu, net)
      ensures Turned(old(Now(net)), Record(cfg, pass.lists, refused, ok, done, failed), Now(net))
    {
      hide Consistent, Live, Placeable, Loop, Conserves, Network.Busy, Filled, Both, AllServe, Refilled, Unplaceable,
           Ats, Addresses;
      LiveCreated(mu, net);
      BusyIsTaken(net);
      ghost var was, filled := Now(net), map[];
      var next;
      ok, next, filled, done, failed := Rebuild(net, cfg, refused, pass);
      RebuildEnds(net, cfg, pass, next, filled, done);
      assert net.Open() == pass.open + (net.created - pass.created) by { OpenedSince(net, pass, next); }
      if !ok { return; }
      ghost var held := Filled(next.routes);
      Adopt(next, net);
      assert Filled(mu.routes) == held;
    }

    lemma BusyIsTaken(net: Network)
      ensures net.Busy() == Taken(Now(net))
    {
    }

    lemma OpenedSince(net: Network, pass: Pass, next: Tables)
      requires Live(next, net) && pass.created <= net.created <= pass.created + next.listeners.Values
      requires pass.open <= pass.created && forall l | l in pass.created :: l.open <==> l in pass.open
      ensures net.Open() == pass.open + (net.created - pass.created)
    {
    }

    /** What the loop has built, for the old tables and for the next. */
    lemma RebuildEnds(net: Network, cfg: Config, pass: Pass, next: Tables, filled: map<Listener, Fill>,
                      done: set<string>)
      requires Valid() && Loop(net, cfg, pass, next, filled, done) && filled == Filled(Both(mu, next))
               && done <= cfg.targets.Keys
      requires mu.listeners.Values <= pass.created
      ensures Live(mu, net) && Live(next, net) && Consistent(next) && Conserves(mu, next)
      ensures next.connByHostname.Keys == done && next.listeners.Keys == Ats(cfg, done)
      ensures AllServe(next, cfg, pass.lists, Filled(next.routes), done)
      ensures Refilled(mu, cfg, pass.lists, Filled(mu.routes), pass.before, done)
      ensures pass.created <= net.created && Addresses(net.created - pass.created) == Ats(cfg, done) - mu.listeners.Keys
      ensures net.created == pass.created + next.listeners.Values
    {
      LoopEnds(net, cfg, pass, next, filled, done);
      BuiltEnds(net, cfg, pass.lists, next, filled, pass.before, done);
      hide Consistent, Conserves, Loop, Progress, Refilled, AllServe, Addresses;
      assert Keyed(next) by { ConsistentKeyed(next); }
      NewAddresses(mu, next, pass.created, net.created);
    }

    lemma BuiltEnds(net: Network, cfg: Config, lists: map<string, seq<OrderedPolicy>>, next: Tables,
                    filled: map<Listener, Fill>, before: map<Listener, Fill>, done: set<string>)
      requires Valid() && Progress(net, cfg, lists, next, filled, done) && filled == Filled(Both(mu, next))
      requires Untouched(mu, next, filled, before)
      ensures Live(mu, net) && Live(next, net) && Consistent(next) && Conserves(mu, next) && done <= cfg.targets.Keys
      ensures next.connByHostname.Keys == done && next.listeners.Keys == Ats(cfg, done)
      ensures AllServe(next, cfg, lists, Filled(next.routes), done)
      ensures Refilled(mu, cfg, lists, Filled(mu.routes), before, done)
    {
      hide Live, Apart, Ats, AllServe, Refilled, Untouched;
      forall l | l in next.routes ensures Filled(next.routes)[l] == filled[l] { }
      forall l | l in mu.routes ensures Filled(mu.routes)[l] == filled[l] { }
      ServeSame(next, cfg, lists, filled, Filled(next.routes), done);
      RefilledByLoop(mu, next, cfg, lists, filled, Filled(mu.routes), before, done);
    }

    /** The policy lists stay what they are. */
    method UpdateExpanded(net: Network, cfg: Config, refused: set<AddrPort>, ghost pass: Pass)
      returns (ok: bool, ghost done: set<string>, ghost failed: string)
      requires Valid() && Live(mu, net) && cfg.Expanded()
      requires pass == Pass(Lists(cfg), Filled(mu.routes), net.Busy(), net.created, net.Open(), refused)
      modifies this, net, mu.routes.Values, mu.listeners.Values
      ensures Valid() && Live(mu, net) && cfg.Expanded()
      ensures Turned(old(Now(net)), Record(cfg, Lists(cfg), refused, ok, done, failed), Now(net))
    {
      hide Consistent, Live, Network.Busy, Network.Open, Filled, Turned, Now, IsExpansion;
      ok, done, failed := Update(net, cfg, refused, pass);
      assert forall h | h in cfg.targets :: cfg.targets[h].ordered == pass.lists[h];
      assert Lists(cfg) == pass.lists;
    }

    /** The callback. */
    method Reconfigure(net: Network, cfg: Config, refused: set<AddrPort>)
      returns (ok: bool, ghost done: set<string>, ghost failed: string)
      requires Valid() && Live(mu, net)
      modifies this, net, cfg, cfg.targets.Values, mu.routes.Values, mu.listeners.Values
      ensures Valid() && Live(mu, net) && Expands(cfg, Lists(cfg))
      ensures Turned(old(Now(net)), Record(cfg, Lists(cfg), refused, ok, done, failed), Now(net))
    {
      hide Consistent, Live, Network.Busy, Network.Open, Filled, Turned, Lists, IsExpansion, Expands;
      ghost var was := Now(net);
      cfg.ExpandPolicy();
      assert Now(net) == was;
      hide Now;
      ok, done, failed := UpdateExpanded(net, cfg, refused,
                                         Pass(Lists(cfg), Filled(mu.routes), net.Busy(), net.created, net.Open(),
                                              refused));
      ListsExpand(cfg);
    }

    /** The context is stopping: close every listener of the tables. */
    method Stop(net: Network)
      requires Valid() && Live(mu, net)
      modifies mu.listeners.Values
      ensures forall l | l in mu.listeners.Values :: !l.open
      ensures net.Open() == old(net.Open()) - mu.listeners.Values
    {
      var todo := mu.listeners.Keys;
      while todo != {}
        invariant todo <= mu.listeners.Keys
        invariant forall a | a in mu.listeners :: mu.listeners[a].open ==> a in todo
      {
        var a :| a in todo;
        mu.listeners[a].Close();
        todo := todo - {a};
      }
    }

    /** The connection and the policy for a client of a listener. */
    method PolicyFor(l: Listener, client: Addr) returns (r: Option<(Backend?, Policy)>)
      ensures l !in mu.routes ==> r == None
      ensures l in mu.routes ==>
                var mdc, policies := mu.routes[l].mdc, mu.routes[l].policies;
                && (r.Some? <==> exists i | 0 <= i < |policies| :: policies[i].prefix.Contains(client))
                && Lookup(policies, client) == (if r.Some? then Some(r.value.1) else None)
                && (r.Some? ==> r.value.0 == mdc)
                && forall i | 0 <= i < |policies| && policies[i].prefix.Contains(client) ::
                     (forall j | 0 <= j < i :: !policies[j].prefix.Contains(client)) ==>
                     r == Some((mdc, policies[i].policy))
    {
      if l !in mu.routes { return None; }
      r := mu.routes[l].Get(client);
    }
  }

  lemma ConsistentKeyed(t: Tables)
    requires Consistent(t)
    ensures Keyed(t)
  {
  }
}
