/**
 The canonicalizing weak map and the basic commands it hands out.

 Objects are numbered in the order of their creation; a weak pointer is that
 number and keeps it after the object has died. Any number of threads run
 `get` in small steps, the collector may kill any object nobody refers to, and
 the cleanup registered for an object runs at any later time.
 */
module CanonicalMap {
  import opened Wrappers
  import opened Numbers
  import opened Commands

  type Id = nat

  // ----- the map itself, as its lock protects it

  function Resolve(data: map<Number, Id>, live: set<Id>, k: Number): Option<Id> {
    if k in data && data[k] in live then Some(data[k]) else None
  }

  /** A cleanup deletes the entry for its key only while the entry is still its own. */
  function Cleaned(data: map<Number, Id>, k: Number, v: Id): map<Number, Id> {
    if k in data && data[k] == v then data - {k} else data
  }

  /** The shared map. The collector's view of which objects live is passed in. */
  class CMap {
    var data: map<Number, Id>

    constructor ()
      ensures data == map[]
    {
      data := map[];
    }

    method Cleanup(k: Number, v: Id)
      modifies this
      ensures data == Cleaned(old(data), k, v)
    {
      if k in data {
        var found := data[k];
        if found == v { data := data - {k}; }
      }
    }

    method Peek(k: Number, live: set<Id>) returns (found: Option<Id>)
      ensures found == Resolve(data, live, k)
    {
      if k !in data { return None; }
      var ptr := data[k];
      if ptr !in live { return None; }
      return Some(ptr);
    }

    /** `get` when no other thread interferes; unused is the identity a new object would have. */
    method Get(k: Number, live: set<Id>, unused: Id) returns (value: Id)
      modifies this
      ensures match Resolve(old(data), live, k)
              case Some(id) => value == id && data == old(data)
              case None => value == unused && data == old(data)[k := unused]
    {
      var found := Peek(k, live);
      if found.Some? { return found.value; }
      if k in data {
        var ptr := data[k];
        if ptr in live { return ptr; }
      }
      data := data[k := unused];
      value := unused;
    }
  }

  // ----- the whole program around it

  datatype Object = Object(key: Number, documented: bool)

  datatype Pc =
    | Idle
    | Calling(k: Number)              // about to read the map under the read lock
    | Loaded(k: Number, ptr: Id)      // has the weak pointer, has released the read lock
    | Waiting(k: Number)              // wants the write lock
    | Locked(k: Number)               // holds the write lock
    | Checking(k: Number, ptr: Id)    // holds it, has the weak pointer of the double check
    | Returned(k: Number, id: Id)     // has a strong reference

  datatype State = State(
    data: map<Number, Id>,
    objects: seq<Object>,
    live: set<Id>,
    pending: set<Id>,       // objects whose cleanup has not run
    held: multiset<Id>,     // strong references kept by callers
    roots: set<Id>,         // package variables
    threads: map<nat, Pc>,
    writer: Option<nat>,
    todo: seq<Number>       // documented numbers the package has still to register
  ) {
    function At(t: nat): Pc { if t in threads then threads[t] else Idle }
    function Set(t: nat, pc: Pc): State { this.(threads := threads[t := pc]) }
  }

  /** The thread that runs package initialisation. */
  const INIT: nat := 0

  const START := State(map[], [], {}, {}, multiset{}, {}, map[], None, DOCUMENTED)

  datatype Step =
    | Call(t: nat, k: Number)
    | Load(t: nat)
    | Deref(t: nat)
    | Acquire(t: nat)
    | DoubleCheck(t: nat)
    | Create(t: nat)
    | Keep(t: nat)
    | Drop(id: Id)
    | Document
    | Collect(id: Id)
    | RunCleanup(id: Id)

  predicate Unreferenced(s: State, id: Id) {
    id !in s.held && id !in s.roots && forall t | t in s.threads :: !(s.threads[t].Returned? && s.threads[t].id == id)
  }

  predicate Enabled(s: State, step: Step) {
    match step
    case Call(t, _) => s.At(t).Idle?
    case Load(t) => s.At(t).Calling? && s.writer.None?
    case Deref(t) => s.At(t).Loaded?
    case Acquire(t) => s.At(t).Waiting? && s.writer.None?
    case DoubleCheck(t) => s.At(t).Locked? && s.At(t).k in s.data
    case Create(t) => (s.At(t).Locked? && s.At(t).k !in s.data) || s.At(t).Checking?
    case Keep(t) => s.At(t).Returned?
    case Drop(id) => id in s.held
    case Document => s.At(INIT).Returned? && s.todo != [] && s.At(INIT).k == s.todo[0] && s.At(INIT).id < |s.objects|
    case Collect(id) => id in s.live && Unreferenced(s, id)
    case RunCleanup(id) => id in s.pending && id !in s.live && id < |s.objects| && s.writer.None?
  }

  /** A new object for k, with its entry and its cleanup. */
  function Insert(s: State, k: Number): State {
    var id := |s.objects|;
    s.(data := s.data[k := id], objects := s.objects + [Object(k, false)],
       live := s.live + {id}, pending := s.pending + {id})
  }

  /** The object becomes the documented command its package variable refers to. */
  function Register(s: State, id: Id): State
    requires id < |s.objects| && s.todo != []
  {
    s.(objects := s.objects[id := s.objects[id].(documented := true)],
       roots := s.roots + {id}, todo := s.todo[1..])
  }

  function Apply(s: State, step: Step): State
    requires Enabled(s, step)
  {
    match step
    case Call(t, k) => s.Set(t, Calling(k))
    case Load(t) =>
      var k := s.At(t).k;
      s.Set(t, if k in s.data then Loaded(k, s.data[k]) else Waiting(k))
    case Deref(t) =>
      var Loaded(k, ptr) := s.At(t);
      s.Set(t, if ptr in s.live then Returned(k, ptr) else Waiting(k))
    case Acquire(t) => s.Set(t, Locked(s.At(t).k)).(writer := Some(t))
    case DoubleCheck(t) =>
      var k := s.At(t).k;
      s.Set(t, Checking(k, s.data[k]))
    case Create(t) =>
      var k, id := s.At(t).k, |s.objects|;
      if s.At(t).Checking? && s.At(t).ptr in s.live then
        s.Set(t, Returned(k, s.At(t).ptr)).(writer := None)
      else
        Insert(s, k).Set(t, Returned(k, id)).(writer := None)
    case Keep(t) => s.Set(t, Idle).(held := s.held + multiset{s.At(t).id})
    case Drop(id) => s.(held := s.held - multiset{id})
    case Document => Register(s, s.At(INIT).id).Set(INIT, Idle)
    case Collect(id) => s.(live := s.live - {id})
    case RunCleanup(id) => s.(data := Cleaned(s.data, s.objects[id].key, id), pending := s.pending - {id})
  }

  /** The state after a run of steps from the start; none if some step was not enabled. */
  function After(run: seq<Step>): Option<State> {
    if run == [] then Some(START)
    else
      match After(run[..|run| - 1])
      case None => None
      case Some(s) =>
        var step := run[|run| - 1];
        if Enabled(s, step) then Some(Apply(s, step)) else None
  }

  // ----- the invariant

  /** Every live object is the one its key maps to. */
  ghost predicate Canonical(s: State) {
    && (forall id | id in s.live :: id < |s.objects| && s.objects[id].key in s.data && s.data[s.objects[id].key] == id)
    && (forall k | k in s.data :: s.data[k] < |s.objects| && s.objects[s.data[k]].key == k)
  }

  /** Every object without a pending cleanup is dead and out of the map. */
  ghost predicate Tracked(s: State) {
    && (forall id | id in s.pending :: id < |s.objects|)
    && s.live <= s.pending
    && (forall k | k in s.data :: s.data[k] in s.pending)
  }

  ghost predicate Referenced(s: State) {
    && (forall id | id in s.held :: id in s.live)
    && s.roots <= s.live
  }

  ghost predicate ThreadInv(s: State, t: nat) {
    var pc := s.At(t);
    && (s.writer == Some(t) <==> pc.Locked? || pc.Checking?)
    && (pc.Loaded? ==> pc.ptr < |s.objects| && s.objects[pc.ptr].key == pc.k)
    && (pc.Checking? ==> pc.k in s.data && s.data[pc.k] == pc.ptr)
    && (pc.Returned? ==> pc.id in s.live && pc.id < |s.objects| && s.objects[pc.id].key == pc.k)
  }

  /** Some package variable is the object for number n. */
  ghost predicate HasRoot(s: State, n: Number) {
    exists id | id in s.roots :: id < |s.objects| && s.objects[id].key == n
  }

  /** The documented objects are the package variables, one for each number registered so far. */
  ghost predicate Registered(s: State, docs: seq<Number>) {
    && |s.todo| <= |docs| && s.todo == docs[|docs| - |s.todo|..]
    && (forall id | id in s.roots :: id < |s.objects| && s.objects[id].key in docs)
    && (forall id | 0 <= id < |s.objects| :: s.objects[id].documented <==> id in s.roots)
    && (forall i | 0 <= i < |docs| - |s.todo| :: HasRoot(s, docs[i]))
  }

  ghost predicate Inv(s: State, docs: seq<Number>) {
    && Canonical(s) && Tracked(s) && Referenced(s) && Registered(s, docs)
    && forall t :: ThreadInv(s, t)
  }

  /** Nothing but thread positions, the lock and the references of callers change. */
  predicate SameObjects(s: State, s': State) {
    s'.data == s.data && s'.objects == s.objects && s'.live == s.live && s'.pending == s.pending
    && s'.roots == s.roots && s'.todo == s.todo
  }

  /** Each step either leaves the objects alone or is one of four that do not. */
  lemma StepKinds(s: State, step: Step)
    requires Enabled(s, step)
    ensures var s' := Apply(s, step);
            || SameObjects(s, s')
            || (step.Create? && s'.(threads := s.threads, writer := s.writer) == Insert(s, s.At(step.t).k)
                && !(s.At(step.t).Checking? && s.At(step.t).ptr in s.live))
            || (step.Document? && s'.(threads := s.threads) == Register(s, s.At(INIT).id))
            || step.Collect? || step.RunCleanup?
  {
  }

  /** A thread at the end of `get` finds no live object under its key when it must create one. */
  lemma CreatorAlone(s: State, t: nat, id: Id)
    requires Canonical(s) && ThreadInv(s, t) && Enabled(s, Create(t))
    requires !(s.At(t).Checking? && s.At(t).ptr in s.live)
    requires id in s.live
    ensures id < |s.objects| && s.objects[id].key != s.At(t).k
  {
  }

  lemma HasRootKept(s: State, s': State, n: Number)
    requires s.roots <= s'.roots && |s.objects| <= |s'.objects|
    requires forall x | 0 <= x < |s.objects| :: s'.objects[x].key == s.objects[x].key
    ensures HasRoot(s, n) ==> HasRoot(s', n)
  {
  }

  lemma InsertInv(s: State, k: Number, docs: seq<Number>)
    requires Canonical(s) && Tracked(s) && Referenced(s) && Registered(s, docs)
    requires forall id | id in s.live :: id < |s.objects| && s.objects[id].key != k
    ensures var s' := Insert(s, k); Canonical(s') && Tracked(s') && Referenced(s') && Registered(s', docs)
  {
    hide HasRoot;
    var s' := Insert(s, k);
    forall i | 0 <= i < |docs| - |s.todo| ensures HasRoot(s', docs[i]) { HasRootKept(s, s', docs[i]); }
  }

  lemma RegisterInv(s: State, id: Id, docs: seq<Number>)
    requires Canonical(s) && Tracked(s) && Referenced(s) && Registered(s, docs)
    requires id in s.live && id < |s.objects| && s.todo != [] && s.objects[id].key == s.todo[0]
    ensures var s' := Register(s, id); Canonical(s') && Tracked(s') && Referenced(s') && Registered(s', docs)
  {
    var s' := Register(s, id);
    var n := |docs| - |s.todo|;
    assert s.todo[0] == docs[n];
    assert HasRoot(s', docs[n]) by { assert id in s'.roots; }
    hide HasRoot;
    assert forall x | 0 <= x < |s.objects| :: s'.objects[x].key == s.objects[x].key;
    forall i | 0 <= i <= n ensures HasRoot(s', docs[i]) {
      if i < n { HasRootKept(s, s', docs[i]); }
    }
  }

  lemma CleanupInv(s: State, id: Id, docs: seq<Number>)
    requires Canonical(s) && Tracked(s) && Referenced(s) && Registered(s, docs)
    requires id !in s.live && id < |s.objects|
    ensures var s' := s.(data := Cleaned(s.data, s.objects[id].key, id), pending := s.pending - {id});
            Canonical(s') && Tracked(s') && Referenced(s') && Registered(s', docs)
  {
    var s' := s.(data := Cleaned(s.data, s.objects[id].key, id), pending := s.pending - {id});
    forall i | 0 <= i < |docs| - |s.todo| ensures HasRoot(s', docs[i]) { assert HasRoot(s, docs[i]); }
  }

  lemma CollectInv(s: State, id: Id, docs: seq<Number>)
    requires Canonical(s) && Tracked(s) && Referenced(s) && Registered(s, docs)
    requires id !in s.held && id !in s.roots
    ensures var s' := s.(live := s.live - {id});
            Canonical(s') && Tracked(s') && Referenced(s') && Registered(s', docs)
  {
    var s' := s.(live := s.live - {id});
    forall i | 0 <= i < |docs| - |s.todo| ensures HasRoot(s', docs[i]) { assert HasRoot(s, docs[i]); }
  }

  lemma SharedFrame(s: State, s': State, docs: seq<Number>)
    requires SameObjects(s, s')
    ensures Canonical(s) ==> Canonical(s')
    ensures Tracked(s) ==> Tracked(s')
    ensures Registered(s, docs) ==> Registered(s', docs)
  {
    if Registered(s, docs) {
      forall i | 0 <= i < |docs| - |s.todo| ensures HasRoot(s', docs[i]) { assert HasRoot(s, docs[i]); }
    }
  }

  lemma StepObjects(s: State, step: Step, docs: seq<Number>)
    requires Inv(s, docs) && Enabled(s, step)
    ensures var s' := Apply(s, step); Canonical(s') && Tracked(s') && Registered(s', docs)
  {
    hide Canonical, Tracked, Registered, Referenced, ThreadInv, Insert, Register;
    var s' := Apply(s, step);
    StepKinds(s, step);
    if SameObjects(s, s') {
      SharedFrame(s, s', docs);
    } else if step.Create? {
      var k := s.At(step.t).k;
      forall id | id in s.live ensures id < |s.objects| && s.objects[id].key != k {
        CreatorAlone(s, step.t, id);
      }
      InsertInv(s, k, docs);
      SharedFrame(Insert(s, k), s', docs);
    } else if step.Document? {
      ReturnedLive(s, INIT);
      RegisterInv(s, s.At(INIT).id, docs);
      SharedFrame(Register(s, s.At(INIT).id), s', docs);
    } else if step.Collect? {
      CollectInv(s, step.id, docs);
    } else {
      CleanupInv(s, step.id, docs);
    }
  }

  lemma ReturnedLive(s: State, t: nat)
    requires ThreadInv(s, t) && s.At(t).Returned?
    ensures s.At(t).id in s.live && s.At(t).id < |s.objects| && s.objects[s.At(t).id].key == s.At(t).k
  {
  }

  lemma StepReferenced(s: State, step: Step)
    requires Referenced(s) && Enabled(s, step) && forall t :: ThreadInv(s, t)
    ensures Referenced(Apply(s, step))
  {
    match step {
      case Keep(t) => ReturnedLive(s, t);
      case Document => ReturnedLive(s, INIT);
      case _ =>
    }
  }

  /** While a thread holds the lock no other creates an entry. */
  lemma WriterCreates(s: State, step: Step, u: nat)
    requires Enabled(s, step) && ThreadInv(s, u) && s.At(u).Checking?
    requires step.Create? ==> ThreadInv(s, step.t)
    ensures step.Create? ==> step.t == u
  {
  }

  /** A thread not taking the step keeps its own facts. */
  lemma StepOther(s: State, step: Step, u: nat, docs: seq<Number>)
    requires Inv(s, docs) && Enabled(s, step) && Apply(s, step).At(u) == s.At(u)
    requires Apply(s, step).writer == Some(u) <==> s.writer == Some(u)
    ensures ThreadInv(Apply(s, step), u)
  {
    hide Registered, Tracked, Referenced;
    var s' := Apply(s, step);
    assert ThreadInv(s, u);
    assert |s.objects| <= |s'.objects| && forall i | 0 <= i < |s.objects| :: s'.objects[i].key == s.objects[i].key;
    if s.At(u).Returned? {
      assert s.At(u).id in s'.live by {
        if step.Collect? && u in s.threads { assert s.threads[u] == s.At(u); }
      }
    }
    if s.At(u).Checking? {
      WriterCreates(s, step, u);
      assert s'.data == s.data;
    }
  }

  function Actor(step: Step): Option<nat> {
    match step
    case Call(t, _) => Some(t)
    case Load(t) => Some(t)
    case Deref(t) => Some(t)
    case Acquire(t) => Some(t)
    case DoubleCheck(t) => Some(t)
    case Create(t) => Some(t)
    case Keep(t) => Some(t)
    case Document => Some(INIT)
    case _ => None
  }

  lemma StepActor(s: State, step: Step, t: nat, docs: seq<Number>)
    requires Inv(s, docs) && Enabled(s, step) && Actor(step) == Some(t)
    ensures ThreadInv(Apply(s, step), t)
  {
    hide Registered, Tracked, Referenced;
    assert ThreadInv(s, t);
  }

  lemma StepWriter(s: State, step: Step, u: nat, docs: seq<Number>)
    requires Inv(s, docs) && Enabled(s, step) && Actor(step) != Some(u)
    ensures Apply(s, step).At(u) == s.At(u)
    ensures Apply(s, step).writer == Some(u) <==> s.writer == Some(u)
  {
    hide Registered, Tracked, Referenced, Canonical, Cleaned;
    assert ThreadInv(s, u);
    if Actor(step).Some? { assert ThreadInv(s, Actor(step).value); }
  }

  lemma StepThread(s: State, step: Step, u: nat, docs: seq<Number>)
    requires Inv(s, docs) && Enabled(s, step)
    ensures ThreadInv(Apply(s, step), u)
  {
    hide Inv, Apply, Enabled, ThreadInv;
    if Actor(step) == Some(u) {
      StepActor(s, step, u, docs);
    } else {
      StepWriter(s, step, u, docs);
      StepOther(s, step, u, docs);
    }
  }

  /** The invariant holds after every run. */
  lemma {:induction false} RunInv(run: seq<Step>)
    requires After(run).Some?
    ensures Inv(After(run).value, DOCUMENTED)
  {
    if run == [] {
      StartInv(DOCUMENTED);
    } else {
      hide Canonical, Tracked, Registered, Referenced, ThreadInv, Apply, Enabled;
      var before, step := run[..|run| - 1], run[|run| - 1];
      RunInv(before);
      var s := After(before).value;
      StepObjects(s, step, DOCUMENTED);
      StepReferenced(s, step);
      forall t ensures ThreadInv(Apply(s, step), t) { StepThread(s, step, t, DOCUMENTED); }
    }
  }

  lemma StartInv(docs: seq<Number>)
    ensures Inv(START.(todo := docs), docs)
  {
    assert docs[0..] == docs;
  }

  // ----- the theorems

  /** Handed out: some caller, thread or package variable holds a strong reference. */
  ghost predicate HandedOut(s: State, id: Id) {
    id in s.held || id in s.roots || exists t :: s.At(t).Returned? && s.At(t).id == id
  }

  /**
   Canonicity: after any run, two references handed out for one key are the same
   object, whichever of the fast path, the double check or a creation returned them.
   */
  lemma Canonicity(run: seq<Step>, a: Id, b: Id)
    requires After(run).Some?
    requires HandedOut(After(run).value, a) && HandedOut(After(run).value, b)
    ensures a < |After(run).value.objects| && b < |After(run).value.objects|
    ensures After(run).value.objects[a].key == After(run).value.objects[b].key <==> a == b
  {
    RunInv(run);
    var s := After(run).value;
    HandedOutIsLive(s, a);
    HandedOutIsLive(s, b);
  }

  lemma HandedOutIsLive(s: State, id: Id)
    requires Inv(s, DOCUMENTED) && HandedOut(s, id)
    ensures id in s.live
  {
    if t :| s.At(t).Returned? && s.At(t).id == id {
      assert ThreadInv(s, t);
    }
  }

  /** `get` returns an object for the key it was asked for. */
  lemma GetReturnsKey(run: seq<Step>, t: nat)
    requires After(run).Some? && After(run).value.At(t).Returned?
    ensures var s := After(run).value; var Returned(k, id) := s.At(t);
            id in s.live && id < |s.objects| && s.objects[id].key == k && k in s.data && s.data[k] == id
  {
    RunInv(run);
    assert ThreadInv(After(run).value, t);
  }

  /** No leak: an entry for a dead object still has its cleanup to come. */
  lemma NoLeak(run: seq<Step>)
    requires After(run).Some?
    ensures var s := After(run).value;
            forall k | k in s.data && s.data[k] !in s.live :: Enabled(s.(writer := None), RunCleanup(s.data[k]))
  {
    RunInv(run);
  }

  /** No stale delete: a cleanup removes the entry of no live object, and its own if it is still there. */
  lemma NoStaleDelete(run: seq<Step>, id: Id)
    requires After(run).Some? && Enabled(After(run).value, RunCleanup(id))
    ensures var s, s' := After(run).value, Apply(After(run).value, RunCleanup(id));
            && (forall x | x in s.live :: x < |s.objects| && Resolve(s'.data, s'.live, s.objects[x].key) == Some(x))
            && (forall k | k in s.data :: k !in s'.data <==> s.data[k] == id)
  {
    RunInv(run);
  }

  /** Once only live objects have cleanups to come, the map is exactly the live objects by key. */
  lemma QuiescentMap(run: seq<Step>)
    requires After(run).Some? && After(run).value.pending <= After(run).value.live
    ensures var s := After(run).value;
            && s.data.Values == s.live
            && (forall id | id in s.live :: id < |s.objects|)
            && s.data.Keys == set id | id in s.live :: s.objects[id].key
  {
    RunInv(run);
    var s := After(run).value;
    forall id | id in s.live ensures id in s.data.Values { assert s.data[s.objects[id].key] == id; }
    forall k | k in s.data ensures k in set id | id in s.live :: s.objects[id].key { assert s.data[k] in s.live; }
  }

  /**
   Documentedness survives collection: in every run that has finished package
   initialisation, a basic command handed out is safe if and only if its number
   is documented or 600, and it is one of the package variables exactly when its
   number is documented, so comparing pointers is comparing numbers.
   */
  lemma Documentedness(run: seq<Step>, id: Id)
    requires After(run).Some? && After(run).value.todo == []
    requires HandedOut(After(run).value, id)
    ensures var s := After(run).value;
            && id < |s.objects|
            && (s.objects[id].documented || s.objects[id].key == MACRO_VARIABLE <==> Basic(s.objects[id].key).IsSafe())
            && (id in s.roots <==> s.objects[id].key in DOCUMENTED)
  {
    RunInv(run);
    var s := After(run).value;
    HandedOutIsLive(s, id);
    var k := s.objects[id].key;
    if k in DOCUMENTED {
      var i :| 0 <= i < |DOCUMENTED| && DOCUMENTED[i] == k;
      assert HasRoot(s, DOCUMENTED[i]);
      var x :| x in s.roots && x < |s.objects| && s.objects[x].key == k;
      assert x in s.live;
    }
  }

  /** The weak pointer of the fast path can be dead by the time it is followed. */
  lemma FastPathCanLose() returns (run: seq<Step>, s: State)
    ensures After(run) == Some(s) && s.At(1).Loaded? && s.At(1).ptr !in s.live
    ensures Enabled(s, Deref(1)) && Apply(s, Deref(1)).At(1).Waiting?
  {
    hide DOCUMENTED, After;
    var k := Num(999, 0);
    run, s := CreatedAndKept(k);
    run, s := Extend(run, s, Call(1, k));
    run, s := Extend(run, s, Load(1));
    assert s.At(1) == Loaded(k, 0);
    run, s := Extend(run, s, Drop(0));
    run, s := Extend(run, s, Collect(0));
  }

  lemma Entered(k: Number) returns (run: seq<Step>, s: State)
    ensures After(run) == Some(s) && s == START.(threads := map[2 := Locked(k)], writer := Some(2))
  {
    run, s := [], START;
    assert After(run) == Some(s);
    hide DOCUMENTED, After;
    run, s := Extend(run, s, Call(2, k));
    run, s := Extend(run, s, Load(2));
    assert s == START.(threads := map[2 := Waiting(k)]);
    run, s := Extend(run, s, Acquire(2));
  }

  lemma CreatedAndKept(k: Number) returns (run: seq<Step>, s: State)
    ensures After(run) == Some(s)
    ensures s == START.(data := map[k := 0], objects := [Object(k, false)], live := {0}, pending := {0},
                        held := multiset{0}, threads := map[2 := Idle])
  {
    run, s := Entered(k);
    hide DOCUMENTED, After;
    run, s := Extend(run, s, Create(2));
    assert s.At(2) == Returned(k, 0);
    run, s := Extend(run, s, Keep(2));
    assert s.held == multiset{0};
  }

  lemma Extend(run: seq<Step>, s: State, step: Step) returns (run': seq<Step>, s': State)
    requires After(run) == Some(s) && Enabled(s, step)
    ensures run' == run + [step] && After(run') == Some(s') && s' == Apply(s, step)
  {
    run', s' := run + [step], Apply(s, step);
    assert run'[..|run|] == run;
  }
}
