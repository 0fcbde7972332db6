/** The recursive financial-field stripper over an object graph with a visited set:
    when it terminates, and the worker against the recursion it computes. */
module Stripper {
  import opened Common

  const FINANCIAL_FIELDS: set<string> :=
    {"billAmount", "driverPay", "helperPay", "clientPrice", "purchasePrice", "fuelCost", "totalPay"}

  type Addr = nat

  /** A JavaScript value: a primitive or class instance, an array, or a plain object. */
  datatype Value = Leaf(id: string) | Arr(a: Addr) | Obj(a: Addr)

  /** An array element (no key) or an object entry. */
  datatype Slot = Slot(key: Option<string>, val: Value)

  datatype Graph = Graph(arrays: map<Addr, seq<Slot>>, objects: map<Addr, seq<Slot>>)

  /** What `strip` returns: an input value as it is, or a new array or object.
      `origin`, what a copy was made from, is bookkeeping of this model. */
  datatype Out =
    | Kept(v: Value)
    | NewArr(origin: Addr, items: seq<Field>)
    | NewObj(origin: Addr, items: seq<Field>)

  datatype Field = Field(key: Option<string>, val: Out)

  predicate Financial(key: Option<string>) { key.Some? && key.value in FINANCIAL_FIELDS }

  predicate Held(g: Graph, v: Value) {
    match v case Leaf(_) => true case Arr(a) => a in g.arrays case Obj(a) => a in g.objects
  }

  /** Array elements have no key, and nothing dangles. */
  ghost predicate WellFormed(g: Graph) {
    && (forall a, i :: a in g.arrays && 0 <= i < |g.arrays[a]| ==>
          g.arrays[a][i].key.None? && Held(g, g.arrays[a][i].val))
    && (forall a, i :: a in g.objects && 0 <= i < |g.objects[a]| ==> Held(g, g.objects[a][i].val))
  }

  function SlotsOf(g: Graph, v: Value): seq<Slot> {
    match v
    case Leaf(_) => []
    case Arr(a) => if a in g.arrays then g.arrays[a] else []
    case Obj(a) => if a in g.objects then g.objects[a] else []
  }

  // ----- what a traversal meets -----

  /** `w` is an entry of `v`, and not under a financial key. */
  predicate Enters(g: Graph, v: Value, w: Value) {
    exists i :: 0 <= i < |SlotsOf(g, v)| && !Financial(SlotsOf(g, v)[i].key) && SlotsOf(g, v)[i].val == w
  }

  ghost predicate Leads(g: Graph, p: seq<Value>, v: Value, w: Value) {
    && p != [] && p[0] == v && p[|p| - 1] == w
    && forall i :: 0 <= i < |p| - 1 ==> Enters(g, p[i], p[i + 1])
  }

  /** The traversal of `v` comes to `w`. */
  ghost predicate Met(g: Graph, v: Value, w: Value) {
    exists p :: Leads(g, p, v, w)
  }

  lemma MeetsItself(g: Graph, v: Value)
    ensures Met(g, v, v)
  {
    assert Leads(g, [v], v, v);
  }

  lemma MeetsEntry(g: Graph, v: Value, w: Value, x: Value)
    requires Met(g, v, w) && Enters(g, w, x)
    ensures Met(g, v, x)
  {
    var p :| Leads(g, p, v, w);
    assert Leads(g, p + [x], v, x);
  }

  // ----- when the recursion ends -----

  /** Array `b` is an element of array `a`. */
  predicate Nests(g: Graph, a: Addr, b: Addr) {
    a in g.arrays && exists i :: 0 <= i < |g.arrays[a]| && g.arrays[a][i].val == Arr(b)
  }

  ghost predicate Chain(g: Graph, c: seq<Addr>) {
    forall i :: 0 <= i < |c| - 1 ==> Nests(g, c[i], c[i + 1])
  }

  /** Every cycle the traversal of `v` comes to passes through a plain object: no chain of
      nested arrays that it meets returns to where it started. */
  ghost predicate NoArrayCycle(g: Graph, v: Value) {
    forall c :: Chain(g, c) && |c| > 1 && Met(g, v, Arr(c[0])) ==> c[0] != c[|c| - 1]
  }

  predicate Known(rank: map<Value, nat>, v: Value) { v.Leaf? || v in rank }

  predicate Below(rank: map<Value, nat>, v: Value, bound: nat) {
    Known(rank, v) && (v.Arr? ==> rank[v] < bound)
  }

  predicate AllBelow(rank: map<Value, nat>, slots: seq<Slot>, bound: nat) {
    forall i :: 0 <= i < |slots| && !Financial(slots[i].key) ==> Below(rank, slots[i].val, bound)
  }

  /** The ranked values are closed under the traversal, and nested arrays rank lower than
      what they are nested in. */
  ghost predicate Ranked(g: Graph, rank: map<Value, nat>, top: nat) {
    forall v :: v in rank ==>
      && Held(g, v) && (v.Arr? ==> rank[v] < top)
      && AllBelow(rank, SlotsOf(g, v), if v.Arr? then rank[v] else top)
  }

  lemma NestedRanksLower(g: Graph, rank: map<Value, nat>, top: nat, a: Addr, b: Addr)
    requires WellFormed(g) && Ranked(g, rank, top) && Arr(a) in rank && Nests(g, a, b)
    ensures Arr(b) in rank && rank[Arr(b)] < rank[Arr(a)]
  {
    var i :| 0 <= i < |g.arrays[a]| && g.arrays[a][i].val == Arr(b);
    assert g.arrays[a] == SlotsOf(g, Arr(a));
    assert g.arrays[a][i].key.None?;
    assert Below(rank, SlotsOf(g, Arr(a))[i].val, rank[Arr(a)]);
  }

  lemma {:induction false} ChainFalls(g: Graph, rank: map<Value, nat>, top: nat, c: seq<Addr>)
    requires WellFormed(g) && Ranked(g, rank, top) && Chain(g, c) && |c| > 1 && Arr(c[0]) in rank
    ensures Arr(c[|c| - 1]) in rank && rank[Arr(c[|c| - 1])] < rank[Arr(c[0])]
    decreases |c|
  {
    assert Nests(g, c[0], c[1]);
    NestedRanksLower(g, rank, top, c[0], c[1]);
    if |c| == 2 {
    } else {
      var rest := c[1..];
      assert Chain(g, rest) by {
        forall i | 0 <= i < |rest| - 1
          ensures Nests(g, rest[i], rest[i + 1])
        {
          assert Nests(g, c[i + 1], c[i + 2]);
        }
      }
      ChainFalls(g, rank, top, rest);
    }
  }

  /** Whatever the traversal of a ranked value meets is ranked. */
  lemma {:induction false} MetIsKnown(g: Graph, rank: map<Value, nat>, top: nat, p: seq<Value>, v: Value, w: Value)
    requires Ranked(g, rank, top) && Known(rank, v) && Leads(g, p, v, w)
    ensures Known(rank, w)
    decreases |p|
  {
    if |p| == 1 {
    } else {
      var n := |p| - 1;
      assert Leads(g, p[..n], v, p[n - 1]);
      MetIsKnown(g, rank, top, p[..n], v, p[n - 1]);
      assert Enters(g, p[n - 1], p[n]);
    }
  }

  predicate NestsWithin(g: Graph, s: set<Addr>, a: Addr) {
    exists b :: b in s && Nests(g, a, b)
  }

  ghost predicate AllNestWithin(g: Graph, s: set<Addr>) {
    forall a {:trigger NestsWithin(g, s, a)} :: a in s ==> NestsWithin(g, s, a)
  }

  lemma ChainExtends(g: Graph, c: seq<Addr>, next: Addr)
    requires Chain(g, c) && c != [] && Nests(g, c[|c| - 1], next)
    ensures Chain(g, c + [next])
  {
    var longer := c + [next];
    forall i | 0 <= i < |longer| - 1
      ensures Nests(g, longer[i], longer[i + 1])
    {
      assert i < |c| - 1 ==> Nests(g, c[i], c[i + 1]);
    }
  }

  /** A chain of any length within `s`, if every array of `s` nests another of `s`. */
  lemma {:induction false} LongChain(g: Graph, s: set<Addr>, start: Addr, n: nat) returns (c: seq<Addr>)
    requires start in s && AllNestWithin(g, s)
    ensures |c| == n + 1 && Chain(g, c) && forall i :: 0 <= i < |c| ==> c[i] in s
  {
    if n == 0 {
      c := [start];
    } else {
      var front := LongChain(g, s, start, n - 1);
      assert NestsWithin(g, s, front[n - 1]);
      var next :| next in s && Nests(g, front[n - 1], next);
      ChainExtends(g, front, next);
      c := front + [next];
    }
  }

  lemma {:induction false} Pigeonhole(s: set<Addr>, c: seq<Addr>)
    requires forall i :: 0 <= i < |c| ==> c[i] in s
    requires forall i, j :: 0 <= i < j < |c| ==> c[i] != c[j]
    ensures |c| <= |s|
    decreases |c|
  {
    if c == [] {
    } else {
      Pigeonhole(s - {c[0]}, c[1..]);
    }
  }

  lemma ChainWithin(g: Graph, c: seq<Addr>, i: nat, j: nat)
    requires Chain(g, c) && i <= j < |c|
    ensures Chain(g, c[i..j + 1])
  {
    var part := c[i..j + 1];
    forall k | 0 <= k < |part| - 1
      ensures Nests(g, part[k], part[k + 1])
    {
      assert Nests(g, c[i + k], c[i + k + 1]);
    }
  }

  lemma RepeatIsCycle(g: Graph, s: set<Addr>, c: seq<Addr>) returns (cycle: seq<Addr>)
    requires Chain(g, c) && |c| > |s| && forall i :: 0 <= i < |c| ==> c[i] in s
    ensures Chain(g, cycle) && |cycle| > 1 && cycle[0] == cycle[|cycle| - 1] && cycle[0] in s
  {
    if forall i, j :: 0 <= i < j < |c| ==> c[i] != c[j] {
      Pigeonhole(s, c);
    }
    var i, j :| 0 <= i < j < |c| && c[i] == c[j];
    ChainWithin(g, c, i, j);
    cycle := c[i..j + 1];
  }

  ghost predicate AllMet(g: Graph, v: Value, s: set<Addr>) {
    forall a :: a in s ==> Met(g, v, Arr(a))
  }

  lemma LongChainIsCycle(g: Graph, v: Value, s: set<Addr>, c: seq<Addr>)
    requires Chain(g, c) && |c| > |s| && (forall i :: 0 <= i < |c| ==> c[i] in s) && AllMet(g, v, s)
    ensures !NoArrayCycle(g, v)
  {
    var cycle := RepeatIsCycle(g, s, c);
  }

  /** Without array cycles some array of `s` nests no array of `s`. */
  lemma Innermost(g: Graph, v: Value, s: set<Addr>, start: Addr) returns (a: Addr)
    requires NoArrayCycle(g, v) && AllMet(g, v, s) && start in s
    ensures a in s && !NestsWithin(g, s, a)
  {
    if AllNestWithin(g, s) {
      var c := LongChain(g, s, start, |s|);
      LongChainIsCycle(g, v, s, c);
    }
    a :| a in s && !NestsWithin(g, s, a);
  }

  /** These ranks order the arrays of `s` by nesting. */
  ghost predicate Orders(g: Graph, s: set<Addr>, rank: map<Addr, nat>) {
    && rank.Keys == s && (forall a :: a in s ==> rank[a] < |s|)
    && forall a, b :: a in s && b in s && Nests(g, a, b) ==> rank[b] < rank[a]
  }

  lemma LowestFirst(g: Graph, s: set<Addr>, low: Addr, r: map<Addr, nat>)
    requires low in s && !NestsWithin(g, s, low) && Orders(g, s - {low}, r)
    ensures Orders(g, s, map a | a in s :: if a == low then 0 else r[a] + 1)
  {
    var rank: map<Addr, nat> := map a | a in s :: if a == low then 0 else r[a] + 1;
    forall a, b | a in s && b in s && Nests(g, a, b)
      ensures rank[b] < rank[a]
    {
      assert a == low ==> NestsWithin(g, s, a);
    }
  }

  /** Ranks for the arrays of `s`: the innermost one lowest. */
  lemma {:induction false} RankWithin(g: Graph, v: Value, s: set<Addr>) returns (rank: map<Addr, nat>)
    requires NoArrayCycle(g, v) && AllMet(g, v, s)
    ensures Orders(g, s, rank)
    decreases |s|
  {
    if s == {} {
      rank := map[];
    } else {
      var x: Addr :| x in s;
      var low := Innermost(g, v, s, x);
      var r := RankWithin(g, v, s - {low});
      LowestFirst(g, s, low, r);
      rank := map a | a in s :: if a == low then 0 else r[a] + 1;
    }
  }

  /** The arrays and objects that the traversal of `v` comes to. */
  ghost function MetArrays(g: Graph, v: Value): set<Addr> {
    set a | a in g.arrays && Met(g, v, Arr(a))
  }

  ghost function MetValues(g: Graph, v: Value): set<Value> {
    (set a | a in MetArrays(g, v) :: Arr(a)) + (set a | a in g.objects && Met(g, v, Obj(a)) :: Obj(a))
  }

  /** The ranks of arrays, and rank 0 for objects. */
  ghost function RanksOf(g: Graph, v: Value, r: map<Addr, nat>): map<Value, nat>
    requires r.Keys == MetArrays(g, v)
  {
    map w | w in MetValues(g, v) :: if w.Arr? then r[w.a] else 0
  }

  lemma EntryRanked(g: Graph, v: Value, r: map<Addr, nat>, w: Value, x: Value, top: nat)
    requires WellFormed(g) && Orders(g, MetArrays(g, v), r) && w in MetValues(g, v) && Enters(g, w, x)
    requires top == |MetArrays(g, v)|
    ensures Below(RanksOf(g, v, r), x, if w.Arr? then r[w.a] else top)
  {
    MeetsEntry(g, v, w, x);
    assert Held(g, x);
    assert w.Arr? && x.Arr? ==> Nests(g, w.a, x.a);
  }

  lemma RanksFit(g: Graph, v: Value, r: map<Addr, nat>, top: nat)
    requires WellFormed(g) && Orders(g, MetArrays(g, v), r) && top == |MetArrays(g, v)|
    ensures Ranked(g, RanksOf(g, v, r), top)
  {
    var rank := RanksOf(g, v, r);
    forall w, i | w in rank && 0 <= i < |SlotsOf(g, w)| && !Financial(SlotsOf(g, w)[i].key)
      ensures Below(rank, SlotsOf(g, w)[i].val, if w.Arr? then rank[w] else top)
    {
      assert Enters(g, w, SlotsOf(g, w)[i].val);
      EntryRanked(g, v, r, w, SlotsOf(g, w)[i].val, top);
    }
  }

  lemma RanksExist(g: Graph, v: Value) returns (rank: map<Value, nat>, top: nat)
    requires WellFormed(g) && Held(g, v) && NoArrayCycle(g, v)
    ensures Ranked(g, rank, top) && Known(rank, v)
  {
    var r := RankWithin(g, v, MetArrays(g, v));
    rank, top := RanksOf(g, v, r), |MetArrays(g, v)|;
    RanksFit(g, v, r, top);
    MeetsItself(g, v);
  }

  /** What the traversal of `v` comes to can be ranked exactly when every cycle of it
      passes through a plain object. */
  lemma RankedIff(g: Graph, v: Value)
    requires WellFormed(g) && Held(g, v)
    ensures NoArrayCycle(g, v) <==> exists rank, top :: Ranked(g, rank, top) && Known(rank, v)
  {
    if NoArrayCycle(g, v) {
      var rank, top := RanksExist(g, v);
    }
    if rank, top :| Ranked(g, rank, top) && Known(rank, v) {
      forall c | Chain(g, c) && |c| > 1 && Met(g, v, Arr(c[0]))
        ensures c[0] != c[|c| - 1]
      {
        var p :| Leads(g, p, v, Arr(c[0]));
        MetIsKnown(g, rank, top, p, v, Arr(c[0]));
        ChainFalls(g, rank, top, c);
      }
    }
  }

  // ----- the recursion, with its visited set -----

  ghost function Height(rank: map<Value, nat>, v: Value): nat {
    if v.Arr? && v in rank then rank[v] else 0
  }

  function Width(g: Graph, v: Value): nat {
    if v.Arr? && v.a in g.arrays then |g.arrays[v.a]| + 1 else 0
  }

  /** Terminates: each step visits a new plain object or goes down one array. */
  function StripSpec(g: Graph, ghost rank: map<Value, nat>, ghost top: nat, v: Value, seen: set<Addr>)
    : (r: (Out, set<Addr>))
    requires WellFormed(g) && Ranked(g, rank, top) && Known(rank, v)
    ensures seen <= r.1
    decreases g.objects.Keys - seen, Height(rank, v), Width(g, v)
  {
    match v
    case Leaf(_) => (Kept(v), seen)
    case Arr(a) =>
      var r := StripSlots(g, rank, top, g.arrays[a], rank[Arr(a)], seen);
      (NewArr(a, r.0), r.1)
    case Obj(a) =>
      if a in seen then (Kept(v), seen)
      else
        var r := StripSlots(g, rank, top, g.objects[a], top, seen + {a});
        (NewObj(a, r.0), r.1)
  }

  function StripSlots(g: Graph, ghost rank: map<Value, nat>, ghost top: nat, slots: seq<Slot>, ghost bound: nat,
                      seen: set<Addr>)
    : (r: (seq<Field>, set<Addr>))
    requires WellFormed(g) && Ranked(g, rank, top)
    requires AllBelow(rank, slots, bound)
    ensures seen <= r.1
    decreases g.objects.Keys - seen, bound, |slots|
  {
    if slots == [] then ([], seen)
    else if Financial(slots[0].key) then StripSlots(g, rank, top, slots[1..], bound, seen)
    else
      assert Below(rank, slots[0].val, bound);
      var first := StripSpec(g, rank, top, slots[0].val, seen);
      var rest := StripSlots(g, rank, top, slots[1..], bound, first.1);
      ([Field(slots[0].key, first.0)] + rest.0, rest.1)
  }

  /** The ranks serve termination only: any two give the same result. */
  lemma {:induction false} RankIrrelevant(g: Graph, rank: map<Value, nat>, top: nat, rank': map<Value, nat>, top': nat,
                                          v: Value, seen: set<Addr>)
    requires WellFormed(g) && Ranked(g, rank, top) && Ranked(g, rank', top') && Known(rank, v) && Known(rank', v)
    ensures StripSpec(g, rank, top, v, seen) == StripSpec(g, rank', top', v, seen)
    decreases g.objects.Keys - seen, Height(rank, v), Width(g, v)
  {
    match v
    case Leaf(_) =>
    case Arr(a) => SlotsRankIrrelevant(g, rank, top, rank[Arr(a)], rank', top', rank'[Arr(a)], g.arrays[a], seen);
    case Obj(a) =>
      if a in seen {
      } else {
        SlotsRankIrrelevant(g, rank, top, top, rank', top', top', g.objects[a], seen + {a});
      }
  }

  lemma {:induction false} SlotsRankIrrelevant(g: Graph, rank: map<Value, nat>, top: nat, bound: nat,
                                               rank': map<Value, nat>, top': nat, bound': nat,
                                               slots: seq<Slot>, seen: set<Addr>)
    requires WellFormed(g) && Ranked(g, rank, top) && Ranked(g, rank', top')
    requires AllBelow(rank, slots, bound) && AllBelow(rank', slots, bound')
    ensures StripSlots(g, rank, top, slots, bound, seen) == StripSlots(g, rank', top', slots, bound', seen)
    decreases g.objects.Keys - seen, bound, |slots|
  {
    if slots == [] {
    } else if Financial(slots[0].key) {
      SlotsRankIrrelevant(g, rank, top, bound, rank', top', bound', slots[1..], seen);
    } else {
      assert Below(rank, slots[0].val, bound) && Below(rank', slots[0].val, bound');
      RankIrrelevant(g, rank, top, rank', top', slots[0].val, seen);
      SlotsRankIrrelevant(g, rank, top, bound, rank', top', bound', slots[1..],
                          StripSpec(g, rank, top, slots[0].val, seen).1);
    }
  }

  /** What `stripFinancialFields` returns: the recursion from an empty visited set. */
  ghost function Stripped(g: Graph, v: Value): Out
    requires WellFormed(g) && NoArrayCycle(g, v) && Held(g, v)
  {
    RankedIff(g, v);
    var rank, top :| Ranked(g, rank, top) && Known(rank, v);
    StripSpec(g, rank, top, v, {}).0
  }

  lemma StrippedBySpec(g: Graph, rank: map<Value, nat>, top: nat, v: Value)
    requires WellFormed(g) && NoArrayCycle(g, v) && Held(g, v) && Ranked(g, rank, top) && Known(rank, v)
    ensures Stripped(g, v) == StripSpec(g, rank, top, v, {}).0
  {
    RankedIff(g, v);
    var rank', top' :| Ranked(g, rank', top') && Known(rank', v) &&
      Stripped(g, v) == StripSpec(g, rank', top', v, {}).0;
    RankIrrelevant(g, rank, top, rank', top', v, {});
  }

  /** The interceptor's worker: `seen` is shared by the whole traversal. */
  class Walker {
    const g: Graph
    var seen: set<Addr>

    constructor (g: Graph)
      ensures this.g == g && seen == {}
    {
      this.g, seen := g, {};
    }

    method Strip(v: Value, ghost rank: map<Value, nat>, ghost top: nat) returns (out: Out)
      requires WellFormed(g) && Ranked(g, rank, top) && Known(rank, v)
      modifies this
      ensures out == StripSpec(g, rank, top, v, old(seen)).0
      ensures seen == StripSpec(g, rank, top, v, old(seen)).1
      decreases g.objects.Keys - seen, Height(rank, v), Width(g, v), 1
    {
      match v
      case Leaf(_) => out := Kept(v);
      case Arr(a) => out := StripArray(a, rank, top);
      case Obj(a) =>
        if a in seen {
          return Kept(v);
        }
        seen := seen + {a};
        out := StripObject(a, rank, top);
    }

    method StripArray(a: Addr, ghost rank: map<Value, nat>, ghost top: nat) returns (out: Out)
      requires WellFormed(g) && Ranked(g, rank, top) && Arr(a) in rank
      modifies this
      ensures out == NewArr(a, StripSlots(g, rank, top, g.arrays[a], rank[Arr(a)], old(seen)).0)
      ensures seen == StripSlots(g, rank, top, g.arrays[a], rank[Arr(a)], old(seen)).1
      decreases g.objects.Keys - seen, rank[Arr(a)], Width(g, Arr(a)), 0
    {
      var items := [];
      var slots := g.arrays[a];
      ghost var want := StripSlots(g, rank, top, slots, rank[Arr(a)], seen);
      assert slots[0..] == slots;
      for i := 0 to |slots|
        invariant old(seen) <= seen
        invariant want.0 == items + StripSlots(g, rank, top, slots[i..], rank[Arr(a)], seen).0
        invariant want.1 == StripSlots(g, rank, top, slots[i..], rank[Arr(a)], seen).1
      {
        assert slots[i..][1..] == slots[i + 1..];
        assert slots[i].key.None?;
        var item := Strip(slots[i].val, rank, top);
        items := items + [Field(None, item)];
      }
      out := NewArr(a, items);
    }

    method StripObject(a: Addr, ghost rank: map<Value, nat>, ghost top: nat) returns (out: Out)
      requires WellFormed(g) && Ranked(g, rank, top) && Obj(a) in rank
      modifies this
      ensures out == NewObj(a, StripSlots(g, rank, top, g.objects[a], top, old(seen)).0)
      ensures seen == StripSlots(g, rank, top, g.objects[a], top, old(seen)).1
      decreases g.objects.Keys - seen, top, 1, 0
    {
      var fields := [];
      var slots := g.objects[a];
      ghost var want := StripSlots(g, rank, top, slots, top, seen);
      assert slots[0..] == slots;
      for i := 0 to |slots|
        invariant old(seen) <= seen
        invariant want.0 == fields + StripSlots(g, rank, top, slots[i..], top, seen).0
        invariant want.1 == StripSlots(g, rank, top, slots[i..], top, seen).1
      {
        assert slots[i..][1..] == slots[i + 1..];
        if Financial(slots[i].key) {
          continue;
        }
        var field := Strip(slots[i].val, rank, top);
        fields := fields + [Field(slots[i].key, field)];
      }
      out := NewObj(a, fields);
    }
  }

  /** `stripFinancialFields`: terminates whenever every cycle it comes to passes through
      a plain object, whatever lies under financial keys. */
  method StripFinancialFields(g: Graph, v: Value) returns (out: Out)
    requires WellFormed(g) && NoArrayCycle(g, v) && Held(g, v)
    ensures out == Stripped(g, v)
  {
    RankedIff(g, v);
    ghost var rank, top :| Ranked(g, rank, top) && Known(rank, v);
    StrippedBySpec(g, rank, top, v);
    var walker := new Walker(g);
    out := walker.Strip(v, rank, top);
  }
}
