/**
 The passes of the proxy as steps of the whole program: whatever list of passes
 the proxy makes, the program of `Confinement` can make it step by step, so that
 what is proved of every run of that program holds of the proxy's own tables.
 */
module PassSteps {
  import opened Wrappers
  import opened Policies
  import P = Reconfigure
  import G = Generations
  import C = Confinement

  /** The numbers of the objects of the proxy in a state of the program. */
  datatype Names = Names(backends: map<P.Backend, nat>, routes: map<P.Route, nat>)

  ghost predicate Named(s: C.State, m: Names) {
    && (forall c | c in m.backends :: m.backends[c] < |s.backends| && s.backends[m.backends[c]].host == c.hostname)
    && (forall r | r in m.routes :: m.routes[r] < |s.routes|)
    && (forall c, d | c in m.backends && d in m.backends && c != d :: m.backends[c] != m.backends[d])
    && (forall q, r | q in m.routes && r in m.routes && q != r :: m.routes[q] != m.routes[r])
  }

  /** Names given are kept. */
  ghost predicate Extends(m: Names, m': Names) {
    && (forall c | c in m.backends :: c in m'.backends && m'.backends[c] == m.backends[c])
    && (forall r | r in m.routes :: r in m'.routes && m'.routes[r] == m.routes[r])
  }

  ghost predicate Holds(s: C.State, m: Names, r: P.Route, fill: P.Fill) {
    && r in m.routes && m.routes[r] < |s.routes| && fill.0 != null && fill.0 in m.backends
    && s.routes[m.routes[r]] == C.Route(m.backends[fill.0], fill.1)
  }

  /** The state has the tables and the routes of the world. */
  ghost predicate Shows(s: C.State, w: P.World, m: Names) {
    && Named(s, m) && s.table.Keys == w.tables.routes.Keys
    && forall l | l in w.tables.routes :: ShowsRoute(s, w, m, l)
  }

  ghost predicate ShowsRoute(s: C.State, w: P.World, m: Names, l: P.Listener)
    requires l in w.tables.routes
  {
    && l in w.filled && Holds(s, m, w.tables.routes[l], w.filled[l])
    && l in s.table && s.table[l] == m.routes[w.tables.routes[l]]
  }

  /** The steps a pass takes. */
  predicate OfPass(step: C.Step) {
    step.Configure? || step.NewBackend? || step.NewRoute? || step.Refill? || step.Publish?
  }

  predicate AllOfPass(steps: seq<C.Step>) { forall k | 0 <= k < |steps| :: OfPass(steps[k]) }

  lemma {:induction false} AfterJoin(s: C.State, a: seq<C.Step>, b: seq<C.Step>)
    requires C.AfterFrom(s, a).Some?
    ensures C.AfterFrom(s, a + b) == C.AfterFrom(C.AfterFrom(s, a).value, b)
    decreases |a|
  {
    hide C.Apply, C.Enabled;
    if a == [] {
      assert a + b == b;
    } else {
      assert (a + b)[1..] == a[1..] + b;
      AfterJoin(C.Apply(s, a[0]), a[1..], b);
    }
  }

  lemma AfterOne(s: C.State, step: C.Step)
    requires C.Enabled(s, step)
    ensures C.AfterFrom(s, [step]) == Some(C.Apply(s, step))
  {
    hide C.Apply, C.Enabled;
    assert [step][1..] == [];
  }

  /** Every step of anyone else leaves the tables and routes as they are shown. */
  lemma OthersKeep(s: C.State, step: C.Step, w: P.World, m: Names)
    requires Shows(s, w, m) && C.Enabled(s, step) && !OfPass(step)
    ensures Shows(C.Apply(s, step), w, m)
  {
    OtherEffect(s, step);
    hide C.Apply, C.Enabled;
    forall l | l in w.tables.routes ensures ShowsRoute(C.Apply(s, step), w, m, l) {
      assert ShowsRoute(s, w, m, l);
    }
  }

  lemma OtherEffect(s: C.State, step: C.Step)
    requires C.Enabled(s, step) && !OfPass(step)
    ensures var s' := C.Apply(s, step);
            && s'.routes == s.routes && s'.table == s.table && |s'.backends| == |s.backends|
            && forall b | 0 <= b < |s.backends| :: s'.backends[b].host == s.backends[b].host
  {
    hide C.LawfulFill;
    if step.Judge? { C.JudgeEffect(s, step.c); }
  }

  // ----- one pass

  function SettingsOf(cfg: Config): C.Settings {
    C.Settings(cfg.policy, map h | h in cfg.targets :: cfg.targets[h].policy)
  }

  /** A fill from a target of the configuration just taken up is lawful. */
  lemma FillListed(s: C.State, r: P.Record, l: P.Listener, fill: P.Fill)
    requires s.settings != [] && s.settings[|s.settings| - 1] == SettingsOf(r.cfg) && G.FromPass(r, l, fill)
    ensures fill.0 != null && C.Listed(s, fill.0.hostname, fill.1)
  {
    hide IsExpansion;
    var k := |s.settings| - 1;
    assert fill.0.hostname in s.settings[k].targets && C.ExpandsFor(s.settings[k], fill.0.hostname, fill.1);
  }

  /** Only connections have been added. */
  ghost predicate OnlyBackends(s: C.State, s': C.State) {
    s' == s.(backends := s'.backends) && s.backends <= s'.backends
  }

  lemma NameOne(s: C.State, m: Names, c: P.Backend)
    requires Named(s, m) && c !in m.backends
    ensures var step, m' := C.NewBackend(c.hostname), m.(backends := m.backends[c := |s.backends|]);
            && C.Enabled(s, step) && OnlyBackends(s, C.Apply(s, step))
            && Named(C.Apply(s, step), m') && Extends(m, m')
  {
  }

  /** Connections for the hosts that have none yet. */
  lemma {:induction false} NameBackends(s: C.State, m: Names, todo: set<P.Backend>)
    returns (steps: seq<C.Step>, m': Names, s': C.State)
    requires Named(s, m)
    ensures C.AfterFrom(s, steps) == Some(s') && AllOfPass(steps) && Named(s', m') && Extends(m, m')
    ensures m'.routes == m.routes && todo <= m'.backends.Keys && OnlyBackends(s, s')
    decreases todo
  {
    hide C.Apply, C.Enabled, Named;
    if todo == {} {
      steps, m', s' := [], m, s;
    } else {
      var c :| c in todo;
      if c in m.backends {
        steps, m', s' := NameBackends(s, m, todo - {c});
      } else {
        var step := C.NewBackend(c.hostname);
        NameOne(s, m, c);
        var rest;
        rest, m', s' := NameBackends(C.Apply(s, step), m.(backends := m.backends[c := |s.backends|]), todo - {c});
        steps := [step] + rest;
        AfterOne(s, step);
        AfterJoin(s, [step], rest);
      }
    }
  }

  /** These routes can be filled. */
  ghost predicate Fillable(s: C.State, m: Names, todo: set<P.Listener>, routes: map<P.Listener, P.Route>,
                           filled: map<P.Listener, P.Fill>) {
    forall l | l in todo ::
      l in routes && l in filled && filled[l].0 != null && filled[l].0 in m.backends
        && C.Listed(s, filled[l].0.hostname, filled[l].1)
  }

  ghost predicate Distinct(routes: map<P.Listener, P.Route>) {
    forall l, k | l in routes && k in routes && l != k :: routes[l] != routes[k]
  }

  /** Routes outside the list stay as they are. */
  ghost predicate Elsewhere(s: C.State, s': C.State, m: Names, todo: set<P.Listener>, routes: map<P.Listener, P.Route>)
    requires todo <= routes.Keys && Named(s, m)
  {
    |s.routes| <= |s'.routes|
    && forall r | r in m.routes && forall l | l in todo :: routes[l] != r ::
      s'.routes[m.routes[r]] == s.routes[m.routes[r]]
  }

  function FillStep(m: Names, l: P.Listener, r: P.Route, fill: C.Route): C.Step {
    if r in m.routes then C.Refill(m.routes[r], fill) else C.NewRoute(l, fill)
  }

  function NameRoute(s: C.State, m: Names, r: P.Route): Names {
    if r in m.routes then m else m.(routes := m.routes[r := |s.routes|])
  }

  lemma FillOne(s: C.State, m: Names, l: P.Listener, r: P.Route, fill: P.Fill)
    requires Named(s, m) && fill.0 != null && fill.0 in m.backends && C.Listed(s, fill.0.hostname, fill.1)
    ensures var step, m' := FillStep(m, l, r, C.Route(m.backends[fill.0], fill.1)), NameRoute(s, m, r);
            && C.Enabled(s, step) && OfPass(step)
            && var s' := C.Apply(s, step);
               && Named(s', m') && Extends(m, m') && Holds(s', m', r, fill) && |s.routes| <= |s'.routes|
               && s'.backends == s.backends && s'.settings == s.settings && s'.clients == s.clients
                 && s'.stores == s.stores
               && forall q | q in m.routes && q != r :: s'.routes[m.routes[q]] == s.routes[m.routes[q]]
  {
    var step := FillStep(m, l, r, C.Route(m.backends[fill.0], fill.1));
    FillEffect(s, m, l, r, C.Route(m.backends[fill.0], fill.1));
    hide C.Apply, C.Enabled, C.Listed, FillStep;
    RouteNamed(s, C.Apply(s, step), m, r, C.Route(m.backends[fill.0], fill.1));
    hide Named, Extends;
  }

  lemma RouteNamed(s: C.State, s': C.State, m: Names, r: P.Route, fill: C.Route)
    requires Named(s, m) && s'.backends == s.backends
    requires s'.routes == if r in m.routes then s.routes[m.routes[r] := fill] else s.routes + [fill]
    ensures var m' := NameRoute(s, m, r);
            && Named(s', m') && Extends(m, m') && m'.backends == m.backends && r in m'.routes
              && s'.routes[m'.routes[r]] == fill
            && forall q | q in m.routes && q != r :: s'.routes[m.routes[q]] == s.routes[m.routes[q]]
  {
  }

  lemma FillEffect(s: C.State, m: Names, l: P.Listener, r: P.Route, fill: C.Route)
    requires (r in m.routes ==> m.routes[r] < |s.routes|) && C.LawfulFill(s, fill)
    ensures var step := FillStep(m, l, r, fill);
            && C.Enabled(s, step) && OfPass(step)
            && var s' := C.Apply(s, step);
               && s'.backends == s.backends && s'.settings == s.settings && s'.clients == s.clients
                 && s'.stores == s.stores
               && s'.routes == if r in m.routes then s.routes[m.routes[r] := fill] else s.routes + [fill]
  {
    hide C.LawfulFill;
  }

  /** Some routes, each refilled, or made and filled. */
  lemma {:induction false} FillRoutes(s: C.State, m: Names, todo: set<P.Listener>, routes: map<P.Listener, P.Route>,
                                      filled: map<P.Listener, P.Fill>)
    returns (steps: seq<C.Step>, m': Names, s': C.State)
    requires Named(s, m) && todo <= routes.Keys && Distinct(routes) && Fillable(s, m, todo, routes, filled)
    ensures C.AfterFrom(s, steps) == Some(s') && AllOfPass(steps) && Named(s', m') && Extends(m, m')
    ensures forall l | l in todo :: Holds(s', m', routes[l], filled[l])
    ensures Elsewhere(s, s', m, todo, routes)
    ensures s'.backends == s.backends && s'.settings == s.settings && s'.clients == s.clients && s'.stores == s.stores
    decreases todo
  {
    hide C.Apply, C.Enabled, C.Listed, Named, Holds, Fillable, Elsewhere, FillStep, Extends;
    if todo == {} {
      steps, m', s' := [], m, s;
      NothingFilled(s, m, routes);
    } else {
      var l :| l in todo;
      assert l in filled && filled[l].0 != null && filled[l].0 in m.backends
             && C.Listed(s, filled[l].0.hostname, filled[l].1) by {
        FillableAt(s, m, todo, routes, filled, l);
      }
      var r, fill := routes[l], filled[l];
      var step := FillStep(m, l, r, C.Route(m.backends[fill.0], fill.1));
      FillOne(s, m, l, r, fill);
      var s1, m1 := C.Apply(s, step), NameRoute(s, m, r);
      StillFillable(s, s1, m, m1, todo, todo - {l}, routes, filled);
      var rest;
      rest, m', s' := FillRoutes(s1, m1, todo - {l}, routes, filled);
      steps := [step] + rest;
      AfterOne(s, step);
      AfterJoin(s, [step], rest);
      RouteHeld(s1, s', m1, m', todo - {l}, routes, l, fill);
      ElsewhereMore(s, s1, s', m, m1, todo, routes, l);
      ExtendsFurther(m, m1, m');
    }
  }

  // ----- fills that the pass itself overwrites

  /** A fill of one listener's route. */
  type Filling = (P.Listener, P.Fill)

  /** Fills of routes that the pass fills, each by one of its targets. */
  ghost predicate FillsOf(r: P.Record, now: P.World, fills: seq<Filling>) {
    && now.filled.Keys == now.tables.routes.Keys
    && forall i | 0 <= i < |fills| :: fills[i].0 in FilledBy(r, now) && G.FromPass(r, fills[i].0, fills[i].1)
  }

  ghost predicate Ready(s: C.State, m: Names, fills: seq<Filling>) {
    forall i | 0 <= i < |fills| :: ReadyFill(s, m, fills[i].1)
  }

  ghost predicate ReadyFill(s: C.State, m: Names, fill: P.Fill) {
    fill.0 != null && fill.0 in m.backends && C.Listed(s, fill.0.hostname, fill.1)
  }

  lemma StillReady(s: C.State, s': C.State, m: Names, m': Names, fills: seq<Filling>)
    requires Ready(s, m, fills) && Extends(m, m') && s'.settings == s.settings
    ensures Ready(s', m', fills)
  {
    hide C.Listed;
    forall i | 0 <= i < |fills| ensures ReadyFill(s', m', fills[i].1) {
      assert ReadyFill(s, m, fills[i].1);
      C.ListedLater(s, s', fills[i].1.0.hostname, fills[i].1.1);
    }
  }

  /** One fill after the other, as the loop over the targets makes them. */
  lemma {:induction false} FillInOrder(s: C.State, m: Names, fills: seq<Filling>, todo: set<P.Listener>,
                                       routes: map<P.Listener, P.Route>)
    returns (steps: seq<C.Step>, m': Names, s': C.State)
    requires Named(s, m) && todo <= routes.Keys && Distinct(routes) && Ready(s, m, fills)
    requires forall i | 0 <= i < |fills| :: fills[i].0 in todo
    ensures C.AfterFrom(s, steps) == Some(s') && AllOfPass(steps) && Named(s', m') && Extends(m, m')
    ensures Elsewhere(s, s', m, todo, routes)
    ensures s'.backends == s.backends && s'.settings == s.settings && s'.clients == s.clients && s'.stores == s.stores
    decreases |fills|
  {
    hide C.Apply, C.Enabled, C.Listed, Named, Holds, Ready, Elsewhere, FillStep, Extends, NameRoute;
    if fills == [] {
      steps, m', s' := [], m, s;
      NothingFilled(s, m, routes);
      ElsewhereWider(s, s, m, {}, todo, routes);
    } else {
      var (l, fill) := fills[0];
      FirstReady(s, m, fills);
      var r := routes[l];
      var step := FillStep(m, l, r, C.Route(m.backends[fill.0], fill.1));
      FillOne(s, m, l, r, fill);
      var s1, m1 := C.Apply(s, step), NameRoute(s, m, r);
      StillReady(s, s1, m, m1, fills[1..]);
      var rest;
      rest, m', s' := FillInOrder(s1, m1, fills[1..], todo, routes);
      steps := [step] + rest;
      AfterOne(s, step);
      AfterJoin(s, [step], rest);
      ElsewhereFirst(s, s1, s', m, m1, todo, routes, l);
      ExtendsFurther(m, m1, m');
    }
  }

  lemma FirstReady(s: C.State, m: Names, fills: seq<Filling>)
    requires Ready(s, m, fills) && fills != []
    ensures ReadyFill(s, m, fills[0].1) && Ready(s, m, fills[1..])
  {
    hide ReadyFill;
  }

  lemma ElsewhereWider(s: C.State, s': C.State, m: Names, less: set<P.Listener>, todo: set<P.Listener>,
                       routes: map<P.Listener, P.Route>)
    requires Named(s, m) && less <= todo <= routes.Keys && Elsewhere(s, s', m, less, routes)
    ensures Elsewhere(s, s', m, todo, routes)
  {
  }

  /** One route of a set filled, and then others of the set. */
  lemma ElsewhereFirst(s: C.State, s1: C.State, s': C.State, m: Names, m1: Names, todo: set<P.Listener>,
                       routes: map<P.Listener, P.Route>, l: P.Listener)
    requires Named(s, m) && Named(s1, m1) && l in todo && todo <= routes.Keys && Extends(m, m1)
    requires |s.routes| <= |s1.routes| && Elsewhere(s1, s', m1, todo, routes)
    requires forall q | q in m.routes && q != routes[l] :: s1.routes[m.routes[q]] == s.routes[m.routes[q]]
    ensures Elsewhere(s, s', m, todo, routes)
  {
  }

  lemma ElsewhereFurther(s: C.State, s1: C.State, s': C.State, m: Names, m1: Names, todo: set<P.Listener>,
                         routes: map<P.Listener, P.Route>)
    requires Named(s, m) && Named(s1, m1) && todo <= routes.Keys && Extends(m, m1)
    requires Elsewhere(s, s1, m, todo, routes) && Elsewhere(s1, s', m1, todo, routes)
    ensures Elsewhere(s, s', m, todo, routes)
  {
  }

  lemma FillableAt(s: C.State, m: Names, todo: set<P.Listener>, routes: map<P.Listener, P.Route>,
                   filled: map<P.Listener, P.Fill>, l: P.Listener)
    requires Fillable(s, m, todo, routes, filled) && l in todo
    ensures l in filled && filled[l].0 != null && filled[l].0 in m.backends
            && C.Listed(s, filled[l].0.hostname, filled[l].1)
  {
    hide C.Listed;
  }

  lemma NothingFilled(s: C.State, m: Names, routes: map<P.Listener, P.Route>)
    requires Named(s, m)
    ensures Elsewhere(s, s, m, {}, routes) && Extends(m, m)
  {
  }

  /** One route filled, and then others. */
  lemma ElsewhereMore(s: C.State, s1: C.State, s': C.State, m: Names, m1: Names, todo: set<P.Listener>,
                      routes: map<P.Listener, P.Route>, l: P.Listener)
    requires Named(s, m) && Named(s1, m1) && l in todo && todo <= routes.Keys && Extends(m, m1)
    requires |s.routes| <= |s1.routes| && Elsewhere(s1, s', m1, todo - {l}, routes)
    requires forall q | q in m.routes && q != routes[l] :: s1.routes[m.routes[q]] == s.routes[m.routes[q]]
    ensures Elsewhere(s, s', m, todo, routes)
  {
  }

  lemma StillFillable(s: C.State, s': C.State, m: Names, m': Names, todo: set<P.Listener>, less: set<P.Listener>,
                      routes: map<P.Listener, P.Route>, filled: map<P.Listener, P.Fill>)
    requires Fillable(s, m, todo, routes, filled) && less <= todo && Extends(m, m') && s.settings <= s'.settings
    ensures Fillable(s', m', less, routes, filled)
  {
    hide C.Listed;
    forall l | l in less ensures C.Listed(s', filled[l].0.hostname, filled[l].1) {
      C.ListedLater(s, s', filled[l].0.hostname, filled[l].1);
    }
  }

  /** A route that is not among those filled still holds what it held. */
  lemma RouteHeld(s: C.State, s': C.State, m: Names, m': Names, todo: set<P.Listener>, routes: map<P.Listener, P.Route>,
                  l: P.Listener, fill: P.Fill)
    requires Named(s, m) && todo <= routes.Keys && Distinct(routes) && l in routes && l !in todo
    requires Holds(s, m, routes[l], fill) && Extends(m, m') && Elsewhere(s, s', m, todo, routes)
    ensures Holds(s', m', routes[l], fill)
  {
  }

  /** The routes that a pass has filled. */
  ghost function FilledBy(r: P.Record, now: P.World): (ls: set<P.Listener>)
    requires now.filled.Keys == now.tables.routes.Keys
    ensures ls <= now.tables.routes.Keys
  {
    set l | l in now.tables.routes && G.FromPass(r, l, now.filled[l])
  }

  function TableOf(m: Names, routes: map<P.Listener, P.Route>): (t: map<P.Listener, nat>)
    requires forall l | l in routes :: routes[l] in m.routes
    ensures t.Keys == routes.Keys
  {
    map l | l in routes :: m.routes[routes[l]]
  }

  /** Publishing the table of routes that all hold what they should shows the world. */
  lemma PassEnds(s: C.State, m: Names, w: P.World) returns (steps: seq<C.Step>, s': C.State)
    requires Named(s, m) && w.filled.Keys == w.tables.routes.Keys
    requires forall l | l in w.tables.routes :: Holds(s, m, w.tables.routes[l], w.filled[l])
    ensures C.AfterFrom(s, steps) == Some(s') && AllOfPass(steps) && Shows(s', w, m)
    ensures s'.clients == s.clients && s'.stores == s.stores && s'.backends == s.backends
  {
    var step := C.Publish(TableOf(m, w.tables.routes));
    AfterOne(s, step);
    steps, s' := [step], C.Apply(s, step);
    forall l | l in w.tables.routes ensures ShowsRoute(s', w, m, l) {
      assert Holds(s, m, w.tables.routes[l], w.filled[l]);
    }
  }

  /** What the fills of a pass need. */
  lemma PassFillable(s: C.State, m: Names, r: P.Record, now: P.World)
    requires now.filled.Keys == now.tables.routes.Keys
    requires s.settings != [] && s.settings[|s.settings| - 1] == SettingsOf(r.cfg)
    requires forall l | l in FilledBy(r, now) :: now.filled[l].0 != null ==> now.filled[l].0 in m.backends
    ensures Fillable(s, m, FilledBy(r, now), now.tables.routes, now.filled)
  {
    hide G.FromPass, C.Listed;
    forall l | l in FilledBy(r, now)
      ensures now.filled[l].0 != null && C.Listed(s, now.filled[l].0.hostname, now.filled[l].1)
    {
      FillListed(s, r, l, now.filled[l]);
    }
  }

  ghost function Connections(r: P.Record, now: P.World): set<P.Backend>
    requires now.filled.Keys == now.tables.routes.Keys
  {
    set l | l in FilledBy(r, now) && now.filled[l].0 != null :: now.filled[l].0
  }

  ghost function ConnectionsIn(fills: seq<Filling>): set<P.Backend> {
    set i | 0 <= i < |fills| && fills[i].1.0 != null :: fills[i].1.0
  }

  lemma PassReady(s: C.State, m: Names, r: P.Record, now: P.World, fills: seq<Filling>)
    requires FillsOf(r, now, fills) && ConnectionsIn(fills) <= m.backends.Keys
    requires s.settings != [] && s.settings[|s.settings| - 1] == SettingsOf(r.cfg)
    ensures Ready(s, m, fills)
  {
    hide G.FromPass, C.Listed;
    forall i | 0 <= i < |fills| ensures ReadyFill(s, m, fills[i].1) {
      FillListed(s, r, fills[i].0, fills[i].1);
      assert fills[i].1.0 in ConnectionsIn(fills);
    }
  }

  /** Routes the pass has not filled are those of a failed pass, which changed nothing else. */
  lemma Unfilled(was: P.World, r: P.Record, now: P.World, l: P.Listener)
    requires G.Step(was, r, now) && l in now.tables.routes && l !in FilledBy(r, now)
    ensures now.tables == was.tables && l in was.filled && now.filled[l] == was.filled[l]
  {
    hide G.FromPass, P.Turned, P.Consistent;
    G.StepFills(was, r, now, l);
    if !r.ok { G.FailedTables(was, r, now); }
  }

  /** Taking up the configuration, and a connection for each new host. */
  lemma PassBegins(s: C.State, m: Names, r: P.Record, now: P.World, fills: seq<Filling>)
    returns (steps: seq<C.Step>, m': Names, s': C.State)
    requires Named(s, m) && FillsOf(r, now, fills)
    ensures C.AfterFrom(s, steps) == Some(s') && AllOfPass(steps) && Named(s', m') && Extends(m, m')
    ensures Fillable(s', m', FilledBy(r, now), now.tables.routes, now.filled) && Ready(s', m', fills)
    ensures s.backends <= s'.backends && s'.clients == s.clients && s'.stores == s.stores && s'.routes == s.routes
  {
    hide C.Apply, C.Enabled, G.FromPass, Named, FilledBy, Fillable, SettingsOf, Ready;
    var configure := C.Configure(SettingsOf(r.cfg));
    ConfigureEffect(s, SettingsOf(r.cfg), m);
    AfterOne(s, configure);
    var naming;
    naming, m', s' := NameBackends(C.Apply(s, configure), m, Connections(r, now) + ConnectionsIn(fills));
    PassFillable(s', m', r, now);
    PassReady(s', m', r, now, fills);
    AfterJoin(s, [configure], naming);
    steps := [configure] + naming;
  }

  /** What the routes hold once those of the pass are filled. */
  lemma PassHolds(s: C.State, m: Names, was: P.World, r: P.Record, now: P.World, s2: C.State, m2: Names, s3: C.State,
                  m3: Names)
    requires Shows(s, was, m) && G.Step(was, r, now)
    requires Extends(m, m2) && Named(s2, m2) && s2.routes == s.routes && s.backends <= s2.backends
    requires Extends(m2, m3) && Elsewhere(s2, s3, m2, FilledBy(r, now), now.tables.routes)
    requires forall l | l in FilledBy(r, now) :: Holds(s3, m3, now.tables.routes[l], now.filled[l])
    ensures forall l | l in now.tables.routes :: Holds(s3, m3, now.tables.routes[l], now.filled[l])
  {
    hide G.Step, Named, Elsewhere, FilledBy;
    ApartDistinct(was, r, now);
    forall l | l in now.tables.routes ensures Holds(s3, m3, now.tables.routes[l], now.filled[l]) {
      if l !in FilledBy(r, now) {
        Unfilled(was, r, now, l);
        assert ShowsRoute(s, was, m, l);
        RouteHeld(s2, s3, m2, m3, FilledBy(r, now), now.tables.routes, l, now.filled[l]);
      }
    }
  }

  lemma ApartDistinct(was: P.World, r: P.Record, now: P.World)
    requires G.Step(was, r, now)
    ensures Distinct(now.tables.routes) && now.filled.Keys == now.tables.routes.Keys
  {
    hide P.Turned, P.Expands, P.Listed, P.Keyed;
  }

  /**
   From any state of the program that shows the proxy before a pass, the program
   has steps of its own, of the kind a pass takes, to a state that shows the proxy
   after the pass, whether the pass succeeds or fails. On the way it can make any
   fills that targets of the pass make and later ones of the same address overwrite,
   in any order. No client, call or store changes.
   */
  lemma PassIsSteps(s: C.State, m: Names, was: P.World, r: P.Record, now: P.World, fills: seq<Filling>)
    returns (steps: seq<C.Step>, m': Names, s': C.State)
    requires Shows(s, was, m) && G.Step(was, r, now) && FillsOf(r, now, fills)
    ensures C.AfterFrom(s, steps) == Some(s') && AllOfPass(steps) && Shows(s', now, m') && Extends(m, m')
    ensures s.backends <= s'.backends && s'.clients == s.clients && s'.stores == s.stores
  {
    ApartDistinct(was, r, now);
    assert Named(s, m) && forall i | 0 <= i < |fills| :: fills[i].0 in FilledBy(r, now);
    hide C.AfterFrom, C.Apply, C.Enabled, G.Step, FilledBy, Fillable, Named, Shows, Elsewhere, Distinct, Holds, Extends,
         AllOfPass;
    hide FillsOf, Ready;
    var begin, m2, s2 := PassBegins(s, m, r, now, fills);
    var filling, s3;
    filling, m', s3 := PassFills(s2, m2, r, now, fills);
    PassHolds(s, m, was, r, now, s2, m2, s3, m');
    var end;
    end, s' := PassEnds(s3, m', now);
    JoinThree(s, begin, s2, filling, s3, end, s');
    ExtendsFurther(m, m2, m');
    steps := begin + filling + end;
  }

  /** The fills of a pass: first those overwritten, then the ones that stay. */
  lemma PassFills(s: C.State, m: Names, r: P.Record, now: P.World, fills: seq<Filling>)
    returns (steps: seq<C.Step>, m': Names, s': C.State)
    requires Named(s, m) && now.filled.Keys == now.tables.routes.Keys && Distinct(now.tables.routes)
             && Ready(s, m, fills)
    requires forall i | 0 <= i < |fills| :: fills[i].0 in FilledBy(r, now)
    requires Fillable(s, m, FilledBy(r, now), now.tables.routes, now.filled)
    ensures C.AfterFrom(s, steps) == Some(s') && AllOfPass(steps) && Named(s', m') && Extends(m, m')
    ensures forall l | l in FilledBy(r, now) :: Holds(s', m', now.tables.routes[l], now.filled[l])
    ensures Elsewhere(s, s', m, FilledBy(r, now), now.tables.routes)
    ensures s'.backends == s.backends && s'.settings == s.settings && s'.clients == s.clients && s'.stores == s.stores
  {
    hide C.AfterFrom, C.Apply, C.Enabled, FilledBy, Fillable, Named, Elsewhere, Distinct, Holds, Extends, AllOfPass,
         Ready;
    var todo, routes := FilledBy(r, now), now.tables.routes;
    var first, m1, s1 := FillInOrder(s, m, fills, todo, routes);
    StillFillable(s, s1, m, m1, todo, todo, routes, now.filled);
    var rest;
    rest, m', s' := FillRoutes(s1, m1, todo, routes, now.filled);
    ElsewhereFurther(s, s1, s', m, m1, todo, routes);
    ExtendsFurther(m, m1, m');
    JoinTwo(s, first, s1, rest, s');
    steps := first + rest;
  }

  lemma JoinTwo(s: C.State, a: seq<C.Step>, s1: C.State, b: seq<C.Step>, s2: C.State)
    requires C.AfterFrom(s, a) == Some(s1) && C.AfterFrom(s1, b) == Some(s2) && AllOfPass(a) && AllOfPass(b)
    ensures C.AfterFrom(s, a + b) == Some(s2) && AllOfPass(a + b)
  {
    hide C.AfterFrom;
    AfterJoin(s, a, b);
  }

  lemma JoinThree(s: C.State, a: seq<C.Step>, s1: C.State, b: seq<C.Step>, s2: C.State, c: seq<C.Step>, s3: C.State)
    requires C.AfterFrom(s, a) == Some(s1) && C.AfterFrom(s1, b) == Some(s2) && C.AfterFrom(s2, c) == Some(s3)
    requires AllOfPass(a) && AllOfPass(b) && AllOfPass(c)
    ensures C.AfterFrom(s, a + b + c) == Some(s3) && AllOfPass(a + b + c)
  {
    hide C.AfterFrom;
    AfterJoin(s, a, b);
    AfterJoin(s, a + b, c);
  }

  lemma ExtendsFurther(m: Names, m': Names, m'': Names)
    requires Extends(m, m') && Extends(m', m'')
    ensures Extends(m, m'')
  {
  }

  lemma ConfigureEffect(s: C.State, settings: C.Settings, m: Names)
    requires Named(s, m)
    ensures var step := C.Configure(settings);
            C.Enabled(s, step) && C.Apply(s, step) == s.(settings := s.settings + [settings])
              && Named(C.Apply(s, step), m)
  {
  }

  /** A new proxy is shown by the program's start, and any run of its passes by a run of the program. */
  lemma {:induction false} PassesAreSteps(worlds: seq<P.World>, passes: seq<P.Record>, j: nat)
    returns (run: seq<C.Step>, m: Names)
    requires G.History(worlds, passes) && j <= |passes| && worlds[0].tables == P.Tables(map[], map[], map[])
    ensures AllOfPass(run) && C.After(run).Some? && Shows(C.After(run).value, worlds[j], m)
  {
    hide G.Step, C.Apply, C.Enabled;
    if j == 0 {
      run, m := [], Names(map[], map[]);
    } else {
      var before, names := PassesAreSteps(worlds, passes, j - 1);
      var steps, s';
      ApartDistinct(worlds[j - 1], passes[j - 1], worlds[j]);
      steps, m, s' := PassIsSteps(C.After(before).value, names, worlds[j - 1], passes[j - 1], worlds[j], []);
      AfterJoin(C.START, before, steps);
      run := before + steps;
    }
  }
}
