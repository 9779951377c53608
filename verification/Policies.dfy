/**
 Access policies: which policy of a target applies to a client, and which
 commands a policy lets through.

 An address is the sequence of its bits, most significant first, so that the
 byte-wise order of two addresses is the lexicographic order of their bits and
 a prefix contains an address exactly when its leading bits agree (section 3.1
 of RFC 4632).
 */
module Policies {
  import opened Wrappers
  import opened Numbers
  import opened Commands

  /** 32 bits for IPv4, 128 for IPv6; the zero address has none. */
  type Addr = seq<bool>

  datatype Prefix = Prefix(addr: Addr, bits: int) {
    predicate IsValid() { addr != [] && 0 <= bits <= |addr| }

    predicate Contains(a: Addr) { IsValid() && |a| == |addr| && a[..bits] == addr[..bits] }
  }

  datatype Policy = Policy(allowUndocumentedQ: bool, allowWrites: seq<(int, int)>, audit: bool)

  const NO_RIGHTS := Policy(false, [], false)

  datatype OrderedPolicy = OrderedPolicy(prefix: Prefix, priority: int, policy: Policy)

  /** A prefix contains the addresses of its own family whose leading bits are its own, and an invalid one none. */
  lemma ContainsExactly(p: Prefix, a: Addr)
    ensures p.Contains(a) <==>
              && |a| == |p.addr| && |a| > 0 && 0 <= p.bits <= |a|
              && forall i | 0 <= i < p.bits :: a[i] == p.addr[i]
  {
    if p.Contains(a) {
      forall i | 0 <= i < p.bits ensures a[i] == p.addr[i] { assert a[..p.bits][i] == p.addr[..p.bits][i]; }
    }
  }

  // ----- the gate

  predicate WriteAllowed(p: Policy, v: int) {
    exists i | 0 <= i < |p.allowWrites| :: p.allowWrites[i].0 <= v <= p.allowWrites[i].1
  }

  method AllowWrite(p: Policy, v: int) returns (ok: bool)
    ensures ok == WriteAllowed(p, v)
  {
    for i := 0 to |p.allowWrites|
      invariant forall j | 0 <= j < i :: !(p.allowWrites[j].0 <= v <= p.allowWrites[j].1)
    {
      if p.allowWrites[i].0 <= v && v <= p.allowWrites[i].1 { return true; }
    }
    return false;
  }

  predicate Allowed(p: Policy, c: Command) {
    if c.IsSafe() then true
    else if c.IsWrite() then WriteAllowed(p, c.Variable().Whole())
    else c.QNumber().Some? && p.allowUndocumentedQ
  }

  method Allow(p: Policy, c: Command) returns (ok: bool)
    ensures ok == Allowed(p, c)
  {
    if c.IsSafe() { return true; }
    if c.IsWrite() {
      var v := c.Variable();
      ok := AllowWrite(p, v.Whole());
      return;
    }
    return c.QNumber().Some? && p.allowUndocumentedQ;
  }

  /** A write passes exactly when its variable lies in a listed range, whatever else the policy grants. */
  lemma WritesNeedARange(p: Policy, v: Number, x: Number)
    ensures Allowed(p, Write(v, x)) <==> exists r | r in p.allowWrites :: r.0 <= v.Whole() <= r.1
  {
    if r :| r in p.allowWrites && r.0 <= v.Whole() <= r.1 {
      var i :| 0 <= i < |p.allowWrites| && p.allowWrites[i] == r;
    }
    if i :| 0 <= i < |p.allowWrites| && p.allowWrites[i].0 <= v.Whole() <= p.allowWrites[i].1 {
      assert p.allowWrites[i] in p.allowWrites;
    }
  }

  /** What each kind of command needs. */
  lemma AllowedExactly(p: Policy, c: Command)
    ensures Allowed(p, c) <==>
            match c
            case Basic(n) => n in DOCUMENTED || n == MACRO_VARIABLE || p.allowUndocumentedQ
            case Query(v) => (v.Whole() >= 0 && v.Frac() == 0) || p.allowUndocumentedQ
            case Write(v, _) => exists r | r in p.allowWrites :: r.0 <= v.Whole() <= r.1
    ensures p == NO_RIGHTS ==> (Allowed(p, c) <==> c.IsSafe())
  {
    if c.Write? { WritesNeedARange(p, c.variable, c.value); }
  }

  // ----- the order

  /** `bytes.Compare`. */
  function CompareBits(a: Addr, b: Addr): (c: int)
    ensures -1 <= c <= 1
  {
    if a == [] && b == [] then 0
    else if a == [] then -1
    else if b == [] then 1
    else if a[0] == b[0] then CompareBits(a[1..], b[1..])
    else if b[0] then -1
    else 1
  }

  /** The sort's comparison: priority, then number of bits, then starting address. */
  function Compare(a: OrderedPolicy, b: OrderedPolicy): int {
    if a.priority - b.priority != 0 then a.priority - b.priority
    else if a.prefix.bits - b.prefix.bits != 0 then a.prefix.bits - b.prefix.bits
    else CompareBits(a.prefix.addr, b.prefix.addr)
  }

  lemma {:induction false} CompareBitsOrder(a: Addr, b: Addr, c: Addr)
    ensures CompareBits(a, b) == 0 <==> a == b
    ensures CompareBits(a, b) == -CompareBits(b, a)
    ensures CompareBits(a, b) <= 0 && CompareBits(b, c) <= 0 ==> CompareBits(a, c) <= 0
  {
    if a != [] && b != [] {
      CompareBitsOrder(a[1..], b[1..], if c == [] then [] else c[1..]);
      assert a == [a[0]] + a[1..] && b == [b[0]] + b[1..];
    }
  }

  /** At the first bit that differs, the address with the bit set is the greater; a beginning of an address is less. */
  lemma {:induction false} CompareAtDifference(a: Addr, b: Addr, i: nat)
    requires i <= |a| && i <= |b| && a[..i] == b[..i]
    ensures i < |a| && i < |b| && a[i] && !b[i] ==> CompareBits(a, b) > 0
    ensures i < |a| && i < |b| && !a[i] && b[i] ==> CompareBits(a, b) < 0
    ensures i == |a| && i < |b| ==> CompareBits(a, b) < 0
    ensures i < |a| && i == |b| ==> CompareBits(a, b) > 0
  {
    if i > 0 {
      assert a[0] == a[..i][0] && b[0] == b[..i][0];
      assert a[1..][..i - 1] == a[..i][1..] && b[1..][..i - 1] == b[..i][1..];
      CompareAtDifference(a[1..], b[1..], i - 1);
    }
  }

  /** The comparison is a total order that ties only on equal priority and prefix. */
  lemma CompareOrder(a: OrderedPolicy, b: OrderedPolicy, c: OrderedPolicy)
    ensures Compare(a, b) == 0 <==> a.priority == b.priority && a.prefix == b.prefix
    ensures Compare(a, b) < 0 <==> Compare(b, a) > 0
    ensures Compare(a, b) < 0 && Compare(b, c) < 0 ==> Compare(a, c) < 0
  {
    CompareBitsOrder(a.prefix.addr, b.prefix.addr, c.prefix.addr);
    CompareBitsOrder(b.prefix.addr, c.prefix.addr, a.prefix.addr);
    CompareBitsOrder(c.prefix.addr, a.prefix.addr, b.prefix.addr);
  }

  ghost predicate Sorted(s: seq<OrderedPolicy>) {
    forall i, j | 0 <= i < j < |s| :: Compare(s[i], s[j]) < 0
  }

  ghost predicate DistinctKeys(s: seq<OrderedPolicy>) {
    forall i, j | 0 <= i < j < |s| :: s[i].priority != s[j].priority || s[i].prefix != s[j].prefix
  }

  ghost function Elements(s: seq<OrderedPolicy>): set<OrderedPolicy> { set e | e in s }

  function Insert(e: OrderedPolicy, s: seq<OrderedPolicy>): seq<OrderedPolicy> {
    if s == [] || Compare(e, s[0]) < 0 then [e] + s else [s[0]] + Insert(e, s[1..])
  }

  /** The result of `slices.SortFunc` with the comparison above. */
  function Sort(s: seq<OrderedPolicy>): seq<OrderedPolicy> {
    if s == [] then [] else Insert(s[0], Sort(s[1..]))
  }

  lemma {:induction false} InsertSorted(e: OrderedPolicy, s: seq<OrderedPolicy>)
    requires Sorted(s) && forall x | x in s :: Compare(e, x) != 0
    ensures Sorted(Insert(e, s)) && Elements(Insert(e, s)) == Elements(s) + {e}
  {
    if s == [] {
      SortedCons(e, s);
    } else {
      var rest := Insert(e, s[1..]);
      TailElements(s);
      InsertSorted(e, s[1..]);
      hide Compare, Sorted, Insert;
      HeadLeast(s);
      CompareOrder(s[0], e, e);
      if Compare(e, s[0]) < 0 {
        forall x | x in s ensures Compare(e, x) < 0 { CompareOrder(e, s[0], x); }
        SortedCons(e, s);
      } else {
        forall x | x in rest ensures Compare(s[0], x) < 0 { assert x in Elements(rest); }
        SortedCons(s[0], rest);
      }
      InsertDef(e, s);
    }
  }

  lemma InsertDef(e: OrderedPolicy, s: seq<OrderedPolicy>)
    requires s != []
    ensures Insert(e, s) == if Compare(e, s[0]) < 0 then [e] + s else [s[0]] + Insert(e, s[1..])
  {
    hide Compare;
  }

  lemma HeadLeast(s: seq<OrderedPolicy>)
    requires Sorted(s) && s != []
    ensures forall x | x in Elements(s) && x != s[0] :: Compare(s[0], x) < 0
  {
    hide Compare;
    forall x | x in Elements(s) && x != s[0] ensures Compare(s[0], x) < 0 {
      var k :| 0 <= k < |s| && s[k] == x;
    }
  }

  lemma SortedCons(e: OrderedPolicy, s: seq<OrderedPolicy>)
    requires Sorted(s) && forall x | x in s :: Compare(e, x) < 0
    ensures Sorted([e] + s) && Elements([e] + s) == Elements(s) + {e}
  {
    hide Compare;
  }

  lemma {:induction false} SortSorts(s: seq<OrderedPolicy>)
    requires DistinctKeys(s)
    ensures Sorted(Sort(s)) && Elements(Sort(s)) == Elements(s)
  {
    if s != [] {
      SortSorts(s[1..]);
      forall x | x in Sort(s[1..]) ensures Compare(s[0], x) != 0 {
        assert x in Elements(Sort(s[1..]));
        var i :| 0 <= i < |s[1..]| && s[1..][i] == x;
        assert s[i + 1] == x;
        CompareOrder(s[0], x, x);
      }
      InsertSorted(s[0], Sort(s[1..]));
      assert s == [s[0]] + s[1..];
    }
  }

  /** A set has one sorted list. */
  lemma {:induction false} SortedUnique(s: seq<OrderedPolicy>, t: seq<OrderedPolicy>)
    requires Sorted(s) && Sorted(t) && Elements(s) == Elements(t)
    ensures s == t
  {
    if s == [] {
      NoElements(t);
    } else {
      assert s[0] in Elements(t);
      var j :| 0 <= j < |t| && t[j] == s[0];
      assert t[0] in Elements(s);
      var i :| 0 <= i < |s| && s[i] == t[0];
      CompareOrder(s[0], s[i], s[0]);
      assert s[0] == t[0];
      TailElements(s);
      TailElements(t);
      SortedUnique(s[1..], t[1..]);
    }
  }

  lemma NoElements(s: seq<OrderedPolicy>)
    ensures Elements(s) == {} <==> s == []
  {
    if s != [] { assert s[0] in Elements(s); }
  }

  lemma TailElements(s: seq<OrderedPolicy>)
    requires Sorted(s) && s != []
    ensures Sorted(s[1..]) && Elements(s[1..]) == Elements(s) - {s[0]}
  {
    assert s == [s[0]] + s[1..];
    forall e | e in s[1..] ensures e != s[0] {
      var i :| 0 <= i < |s[1..]| && s[1..][i] == e;
      assert Compare(s[0], s[i + 1]) < 0;
      CompareOrder(s[0], s[0], s[0]);
    }
  }

  // ----- the list of one target

  /** The entries of one policy map, at one priority; invalid prefixes are skipped. */
  ghost function Entries(m: map<Prefix, Policy>, priority: int): set<OrderedPolicy> {
    set k | k in m && k.IsValid() :: OrderedPolicy(k, priority, m[k])
  }

  /** The entries of the base policies and, at a higher number, those of the target. */
  ghost function AllEntries(base: map<Prefix, Policy>, own: map<Prefix, Policy>): set<OrderedPolicy> {
    Entries(base, 0) + Entries(own, 1)
  }

  function Zeros(n: nat): seq<bool> { seq(n, i => false) }

  /** 127.0.0.1 and ::1. */
  const LOOPBACK4: Addr := [false, true, true, true, true, true, true, true] + Zeros(23) + [true]
  const LOOPBACK6: Addr := Zeros(127) + [true]

  const LOCALHOST_ONLY: seq<OrderedPolicy> := [
    OrderedPolicy(Prefix(LOOPBACK4, 32), 0, NO_RIGHTS),
    OrderedPolicy(Prefix(LOOPBACK6, 128), 0, NO_RIGHTS)
  ]

  ghost predicate IsExpansion(base: map<Prefix, Policy>, own: map<Prefix, Policy>, r: seq<OrderedPolicy>) {
    if AllEntries(base, own) == {} then r == LOCALHOST_ONLY
    else Sorted(r) && Elements(r) == AllEntries(base, own)
  }

  /** The list does not depend on the order in which the maps are visited. */
  lemma ExpansionUnique(base: map<Prefix, Policy>, own: map<Prefix, Policy>, r: seq<OrderedPolicy>,
                        t: seq<OrderedPolicy>)
    requires IsExpansion(base, own, r) && IsExpansion(base, own, t)
    ensures r == t
  {
    if AllEntries(base, own) != {} { SortedUnique(r, t); }
  }

  class Target {
    const policy: map<Prefix, Policy>
    const proxyPort: nat
    var ordered: seq<OrderedPolicy>

    constructor (policy: map<Prefix, Policy>, proxyPort: nat)
      ensures this.policy == policy && this.proxyPort == proxyPort && ordered == []
    {
      this.policy, this.proxyPort, this.ordered := policy, proxyPort, [];
    }

    /** `PolicyFor`. */
    method PolicyFor(source: Addr) returns (r: Option<Policy>)
      ensures r == Lookup(ordered, source)
    {
      for i := 0 to |ordered|
        invariant forall j | 0 <= j < i :: !ordered[j].prefix.Contains(source)
      {
        if ordered[i].prefix.Contains(source) {
          LookupAt(ordered, source, i);
          return Some(ordered[i].policy);
        }
      }
      LookupNone(ordered, source);
      return None;
    }
  }

  /** The policy of the first entry whose prefix contains the address. */
  function Lookup(s: seq<OrderedPolicy>, a: Addr): Option<Policy> {
    if s == [] then None
    else if s[0].prefix.Contains(a) then Some(s[0].policy)
    else Lookup(s[1..], a)
  }

  lemma {:induction false} LookupAt(s: seq<OrderedPolicy>, a: Addr, i: nat)
    requires i < |s| && s[i].prefix.Contains(a) && forall j | 0 <= j < i :: !s[j].prefix.Contains(a)
    ensures Lookup(s, a) == Some(s[i].policy)
  {
    if i > 0 { LookupAt(s[1..], a, i - 1); }
  }

  lemma {:induction false} LookupNone(s: seq<OrderedPolicy>, a: Addr)
    requires forall j | 0 <= j < |s| :: !s[j].prefix.Contains(a)
    ensures Lookup(s, a) == None
  {
    if s != [] { LookupNone(s[1..], a); }
  }

  lemma {:induction false} LookupFinds(s: seq<OrderedPolicy>, a: Addr) returns (i: nat)
    requires exists e | e in s :: e.prefix.Contains(a)
    ensures i < |s| && s[i].prefix.Contains(a) && forall j | 0 <= j < i :: !s[j].prefix.Contains(a)
  {
    if s[0].prefix.Contains(a) {
      i := 0;
    } else {
      var e :| e in s && e.prefix.Contains(a);
      assert e in s[1..] by { assert s == [s[0]] + s[1..]; }
      i := LookupFinds(s[1..], a);
      i := i + 1;
    }
  }

  const DEFAULT_MAX_IDLE: int := 300_000_000_000

  class Config {
    const bind: Addr
    var maxIdle: int
    const policy: map<Prefix, Policy>
    const targets: map<string, Target>

    constructor (bind: Addr, maxIdle: int, policy: map<Prefix, Policy>, targets: map<string, Target>)
      ensures this.bind == bind && this.maxIdle == maxIdle && this.policy == policy && this.targets == targets
    {
      this.bind, this.maxIdle, this.policy, this.targets := bind, maxIdle, policy, targets;
    }

    /** Every target has its list. */
    ghost predicate Expanded()
      reads targets.Values
    {
      forall h | h in targets :: IsExpansion(policy, targets[h].policy, targets[h].ordered)
    }

    method ExpandPolicy()
      modifies this, targets.Values
      ensures Expanded()
      ensures maxIdle == if old(maxIdle) == 0 then DEFAULT_MAX_IDLE else old(maxIdle)
    {
      if maxIdle == 0 { maxIdle := DEFAULT_MAX_IDLE; }
      var todo := targets.Keys;
      while todo != {}
        invariant todo <= targets.Keys
        invariant forall h | h in targets.Keys - todo :: IsExpansion(policy, targets[h].policy, targets[h].ordered)
        invariant maxIdle == if old(maxIdle) == 0 then DEFAULT_MAX_IDLE else old(maxIdle)
      {
        var dest :| dest in todo;
        var tgt := targets[dest];
        tgt.ordered := OrderPolicies(policy, tgt.policy);
        todo := todo - {dest};
      }
    }
  }

  /** The list of one target: base entries, then its own, then the sort. */
  method OrderPolicies(base: map<Prefix, Policy>, own: map<Prefix, Policy>) returns (ordered: seq<OrderedPolicy>)
    ensures IsExpansion(base, own, ordered)
  {
    ordered := Collect(base, 0, []);
    assert forall e | e in ordered :: e in Elements(ordered);
    ordered := Collect(own, 1, ordered);
    NoElements(ordered);
    SortSorts(ordered);
    ordered := if |ordered| == 0 then LOCALHOST_ONLY else Sort(ordered);
  }

  /** The loop that appends the entries of one map, visited in any order. */
  method Collect(m: map<Prefix, Policy>, priority: int, before: seq<OrderedPolicy>)
    returns (ordered: seq<OrderedPolicy>)
    requires DistinctKeys(before) && forall e | e in before :: e.priority != priority
    ensures DistinctKeys(ordered) && Elements(ordered) == Elements(before) + Entries(m, priority)
  {
    ordered := before;
    var todo := m.Keys;
    ghost var done: map<Prefix, Policy> := map[];
    while todo != {}
      invariant todo <= m.Keys && done == m - todo
      invariant DistinctKeys(ordered) && Elements(ordered) == Elements(before) + Entries(done, priority)
    {
      var k :| k in todo;
      todo := todo - {k};
      ghost var was := done;
      done := m - todo;
      assert done == was[k := m[k]];
      EntriesAdd(was, k, m[k], priority);
      if !k.IsValid() { continue; }
      var e := OrderedPolicy(k, priority, m[k]);
      forall x | x in ordered ensures x.priority != priority || x.prefix != k {
        assert x in Elements(before) + Entries(was, priority);
      }
      ordered := ordered + [e];
      assert ordered[..|ordered| - 1] + [e] == ordered;
    }
    assert done == m;
  }

  lemma EntriesAdd(m: map<Prefix, Policy>, k: Prefix, p: Policy, priority: int)
    requires k !in m
    ensures Entries(m[k := p], priority)
         == Entries(m, priority) + if k.IsValid() then {OrderedPolicy(k, priority, p)} else {}
  {
  }

  // ----- which policy applies

  /** The chosen entry: it contains the address and no other that does compares before it. */
  ghost predicate Least(e: OrderedPolicy, all: set<OrderedPolicy>, a: Addr) {
    && e in all && e.prefix.Contains(a)
    && forall x | x in all && x.prefix.Contains(a) && x != e :: Compare(e, x) < 0
  }

  /**
   Policy selection: some policy applies exactly when some entry contains the
   client, and it is the policy of the least such entry by priority, number of
   bits and address.
   */
  lemma PolicySelection(base: map<Prefix, Policy>, own: map<Prefix, Policy>, r: seq<OrderedPolicy>, a: Addr)
    requires IsExpansion(base, own, r) && AllEntries(base, own) != {}
    ensures Lookup(r, a).Some? <==> exists e | e in AllEntries(base, own) :: e.prefix.Contains(a)
    ensures forall e :: Least(e, AllEntries(base, own), a) ==> Lookup(r, a) == Some(e.policy)
    ensures Lookup(r, a).Some? ==> exists e :: Least(e, AllEntries(base, own), a)
  {
    var all := AllEntries(base, own);
    hide Compare, Prefix.Contains, AllEntries;
    if e :| e in all && e.prefix.Contains(a) {
      assert e in Elements(r);
      var i := LookupFinds(r, a);
      LookupAt(r, a, i);
      assert r[i] in Elements(r);
      forall x | x in all && x.prefix.Contains(a) && x != r[i] ensures Compare(r[i], x) < 0 {
        assert x in Elements(r);
        var j :| 0 <= j < |r| && r[j] == x;
      }
      assert Least(r[i], all, a);
      forall x | Least(x, all, a) ensures x == r[i] { CompareOrder(x, r[i], x); }
    } else {
      forall j | 0 <= j < |r| ensures !r[j].prefix.Contains(a) { assert r[j] in Elements(r); }
      LookupNone(r, a);
    }
  }

  /**
   The comment in the source and the README say that policies of a target have
   the higher priority. The sort is ascending and the first match wins, so the
   opposite holds: a client gets a policy of the target if and only if some
   prefix of the target contains it and no base prefix does.
   */
  lemma TargetPolicyApplies(base: map<Prefix, Policy>, own: map<Prefix, Policy>, r: seq<OrderedPolicy>, a: Addr,
                            e: OrderedPolicy)
    requires IsExpansion(base, own, r) && Least(e, AllEntries(base, own), a)
    ensures e in Entries(own, 1) <==> (exists k | k in own :: k.Contains(a)) && !(exists k | k in base :: k.Contains(a))
    ensures if e in Entries(own, 1) then e.prefix in own && Lookup(r, a) == Some(own[e.prefix])
            else e.prefix in base && Lookup(r, a) == Some(base[e.prefix])
  {
    PolicySelection(base, own, r, a);
    if k :| k in base && k.Contains(a) {
      var b := OrderedPolicy(k, 0, base[k]);
      assert b in AllEntries(base, own);
    }
  }

  /**
   Within one priority the shorter prefix wins: among the base prefixes that
   contain a client, and, when there is none, among those of the target.
   */
  lemma ShorterPrefixWins(base: map<Prefix, Policy>, own: map<Prefix, Policy>, r: seq<OrderedPolicy>, a: Addr,
                          e: OrderedPolicy, k: Prefix)
    requires IsExpansion(base, own, r) && Least(e, AllEntries(base, own), a) && k.Contains(a)
    requires k in base || (k in own && forall b | b in base :: !b.Contains(a))
    ensures Lookup(r, a) == Some(e.policy) && e.prefix.bits <= k.bits
    ensures e in if k in base then Entries(base, 0) else Entries(own, 1)
  {
    PolicySelection(base, own, r, a);
    if k in base {
      assert OrderedPolicy(k, 0, base[k]) in AllEntries(base, own);
    } else {
      assert OrderedPolicy(k, 1, own[k]) in AllEntries(base, own);
    }
  }

  /**
   Of two base prefixes of one length that contain a client, which then differ in
   their written addresses only, the one with the lower address is selected before
   the other.
   */
  lemma LowerAddressWins(base: map<Prefix, Policy>, own: map<Prefix, Policy>, r: seq<OrderedPolicy>, a: Addr,
                         e: OrderedPolicy, k: Prefix, m: Prefix, i: nat)
    requires IsExpansion(base, own, r) && Least(e, AllEntries(base, own), a)
    requires k in base && m in base && k.bits == m.bits && k.Contains(a) && m.Contains(a)
    requires i < |a| && k.addr[..i] == m.addr[..i] && !k.addr[i] && m.addr[i]
    ensures e.prefix != m && e.prefix.bits <= k.bits
  {
    var x, y := OrderedPolicy(k, 0, base[k]), OrderedPolicy(m, 0, base[m]);
    assert x in AllEntries(base, own) && y in AllEntries(base, own);
    CompareAtDifference(k.addr, m.addr, i);
    ShorterPrefixWins(base, own, r, a, e, k);
    CompareOrder(e, x, y);
    CompareOrder(x, y, e);
    CompareOrder(y, x, e);
  }

  /** Prefixes nest: if two contain one address, the shorter contains all that the longer does. */
  lemma PrefixesNest(p: Prefix, q: Prefix, a: Addr, b: Addr)
    requires p.Contains(a) && q.Contains(a) && p.bits <= q.bits && q.Contains(b)
    ensures p.Contains(b)
  {
    assert a[..q.bits][..p.bits] == a[..p.bits] && b[..q.bits][..p.bits] == b[..p.bits];
  }

  /**
   A policy of the target for a prefix inside some base prefix is never used: every
   client it is meant for gets a base policy. The README's own example is one such.
   */
  lemma ShadowedPolicy(base: map<Prefix, Policy>, own: map<Prefix, Policy>, r: seq<OrderedPolicy>, k: Prefix, q: Prefix,
                       a: Addr)
    requires IsExpansion(base, own, r) && k in base && q in own
    requires k.bits <= q.bits && k.Contains(q.addr) && q.Contains(a)
    ensures k.Contains(a)
    ensures exists b | b in base :: b.Contains(a) && b.bits <= k.bits && Lookup(r, a) == Some(base[b])
  {
    assert q.Contains(q.addr);
    PrefixesNest(k, q, q.addr, a);
    var e := OrderedPolicy(k, 0, base[k]);
    assert e in AllEntries(base, own);
    PolicySelection(base, own, r, a);
    var least :| Least(least, AllEntries(base, own), a);
    ShorterPrefixWins(base, own, r, a, least, k);
  }

  /** Without any valid prefix only the local host may connect, and it may write nothing. */
  lemma DefaultPolicy(base: map<Prefix, Policy>, own: map<Prefix, Policy>, r: seq<OrderedPolicy>, a: Addr)
    requires IsExpansion(base, own, r)
    requires forall k | k in base.Keys + own.Keys :: !(k.addr != [] && 0 <= k.bits <= |k.addr|)
    ensures Lookup(r, a) == if a == LOOPBACK4 || a == LOOPBACK6 then Some(NO_RIGHTS) else None
    ensures forall v :: !WriteAllowed(NO_RIGHTS, v)
  {
    var e4, e6 := LOCALHOST_ONLY[0], LOCALHOST_ONLY[1];
    assert AllEntries(base, own) == {};
    LoopbackContains(a);
    hide LOOPBACK4, LOOPBACK6, Prefix.Contains;
    assert [e4, e6][1..] == [e6];
    assert Lookup([e6], a) == if e6.prefix.Contains(a) then Some(NO_RIGHTS) else Lookup([e6][1..], a);
    assert [e6][1..] == [];
  }

  /** 127.0.0.1 and ::1, bit by bit, and the default idle time of five minutes in nanoseconds. */
  lemma Defaults()
    ensures |LOOPBACK4| == 32 && forall i | 0 <= i < 32 :: LOOPBACK4[i] <==> 1 <= i <= 7 || i == 31
    ensures |LOOPBACK6| == 128 && forall i | 0 <= i < 128 :: LOOPBACK6[i] <==> i == 127
    ensures DEFAULT_MAX_IDLE == 5 * 60 * 1_000_000_000
  {
  }

  lemma LoopbackContains(a: Addr)
    ensures Prefix(LOOPBACK4, 32).Contains(a) <==> a == LOOPBACK4
    ensures Prefix(LOOPBACK6, 128).Contains(a) <==> a == LOOPBACK6
  {
    assert LOOPBACK4[..32] == LOOPBACK4 && LOOPBACK6[..128] == LOOPBACK6;
    if |a| == 32 { assert a[..32] == a; }
    if |a| == 128 { assert a[..128] == a; }
  }

  /**
   The configuration in the README: a base policy for 10.0.0.0/8 without rights
   and one of the target for 10.1.2.0/24 with writes. No client is ever given
   the second, because the first contains all of them.
   */
  lemma ReadmeExample(net8: Addr, net24: Addr, writer: Policy, r: seq<OrderedPolicy>, a: Addr)
    requires |net8| == 32 && |net24| == 32 && net24[..8] == net8[..8]
    requires IsExpansion(map[Prefix(net8, 8) := NO_RIGHTS], map[Prefix(net24, 24) := writer], r)
    ensures Lookup(r, a) == if Prefix(net8, 8).Contains(a) then Some(NO_RIGHTS) else None
    ensures Prefix(net24, 24).Contains(a) ==> Lookup(r, a) == Some(NO_RIGHTS)
  {
    var base, own := map[Prefix(net8, 8) := NO_RIGHTS], map[Prefix(net24, 24) := writer];
    var b := OrderedPolicy(Prefix(net8, 8), 0, NO_RIGHTS);
    EntriesAdd(map[], Prefix(net8, 8), NO_RIGHTS, 0);
    EntriesAdd(map[], Prefix(net24, 24), writer, 1);
    assert map[][Prefix(net8, 8) := NO_RIGHTS] == base && map[][Prefix(net24, 24) := writer] == own;
    hide Entries;
    assert b in AllEntries(base, own);
    PolicySelection(base, own, r, a);
    if Prefix(net24, 24).Contains(a) {
      assert a[..8] == a[..24][..8] == net24[..24][..8] == net24[..8];
    }
    if Prefix(net8, 8).Contains(a) {
      assert Least(b, AllEntries(base, own), a);
    }
  }
}
