/** What the financial-field stripper keeps, what it removes, and exactly when a
    financial key survives. Results are read by walking them: a step takes the n-th
    entry whose key is not financial, so the same walk makes sense in the input and
    in the result, and cycles need no special case. */
module StripperLaws {
  import opened Common
  import opened Stripper

  /** The keys a response loses, and no others. */
  lemma FinancialKeys(key: Option<string>)
    ensures Financial(key) <==>
            || key == Some("billAmount") || key == Some("driverPay") || key == Some("helperPay")
            || key == Some("clientPrice") || key == Some("purchasePrice") || key == Some("fuelCost")
            || key == Some("totalPay")
  {
  }

  // ----- walks -----

  /** The entries whose key is not financial. */
  function Others(slots: seq<Slot>): seq<Slot> {
    if slots == [] then [] else (if Financial(slots[0].key) then [] else [slots[0]]) + Others(slots[1..])
  }

  function AsKept(s: Slot): Field { Field(s.key, Kept(s.val)) }

  /** The entries of a result that a walk can take. */
  function Parts(g: Graph, out: Out): seq<Field> {
    match out
    case Kept(v) =>
      var others := Others(SlotsOf(g, v));
      seq(|others|, i requires 0 <= i < |others| => AsKept(others[i]))
    case NewArr(_, items) => items
    case NewObj(_, items) => items
  }

  function Walk(g: Graph, out: Out, p: seq<nat>): Option<Out>
    decreases |p|
  {
    if p == [] then Some(out)
    else if p[0] < |Parts(g, out)| then Walk(g, Parts(g, out)[p[0]].val, p[1..])
    else None
  }

  /** The input value a result stands for. */
  function Source(out: Out): Value {
    match out case Kept(v) => v case NewArr(o, _) => Arr(o) case NewObj(o, _) => Obj(o)
  }

  function KeysOf(fields: seq<Field>): seq<Option<string>> {
    seq(|fields|, i requires 0 <= i < |fields| => fields[i].key)
  }

  predicate HoldsMoney(g: Graph, out: Out) {
    if out.Kept? then exists i :: 0 <= i < |SlotsOf(g, out.v)| && Financial(SlotsOf(g, out.v)[i].key)
    else exists i :: 0 <= i < |out.items| && Financial(out.items[i].key)
  }

  predicate ExposesAt(g: Graph, out: Out, p: seq<nat>) {
    var o := Walk(g, out, p);
    o.Some? && HoldsMoney(g, o.value)
  }

  /** A financial key can be reached in the result. The walk to the first one on any
      path takes no financial key itself. */
  ghost predicate Exposes(g: Graph, out: Out) {
    exists p :: ExposesAt(g, out, p)
  }

  /** The walk `p` leads from `v` to the plain object `a` in the input. */
  predicate Reaches(g: Graph, v: Value, p: seq<nat>, a: Addr) {
    Walk(g, Kept(v), p) == Some(Kept(Obj(a)))
  }

  // ----- the result mirrors the input -----

  /** New nodes list the other entries of what they copy, in order. */
  ghost predicate Mirrors(g: Graph, out: Out)
    decreases out
  {
    out.Kept? || (
      var others := Others(SlotsOf(g, Source(out)));
      && |out.items| == |others|
      && forall i :: 0 <= i < |others| ==>
           out.items[i].key == others[i].key && Source(out.items[i].val) == others[i].val &&
               Mirrors(g, out.items[i].val))
  }

  ghost predicate FieldsMirror(g: Graph, fields: seq<Field>, others: seq<Slot>) {
    && |fields| == |others|
    && forall i :: 0 <= i < |others| ==>
         fields[i].key == others[i].key && Source(fields[i].val) == others[i].val && Mirrors(g, fields[i].val)
  }

  lemma {:induction false} SpecMirrors(g: Graph, rank: map<Value, nat>, top: nat, v: Value, seen: set<Addr>)
    requires WellFormed(g) && Ranked(g, rank, top) && Known(rank, v)
    ensures Source(StripSpec(g, rank, top, v, seen).0) == v && Mirrors(g, StripSpec(g, rank, top, v, seen).0)
    decreases g.objects.Keys - seen, Height(rank, v), Width(g, v)
  {
    match v
    case Leaf(_) =>
    case Arr(a) => SlotsMirror(g, rank, top, g.arrays[a], rank[Arr(a)], seen);
    case Obj(a) =>
      if a in seen {
      } else {
        SlotsMirror(g, rank, top, g.objects[a], top, seen + {a});
      }
  }

  lemma {:induction false} SlotsMirror(g: Graph, rank: map<Value, nat>, top: nat, slots: seq<Slot>, bound: nat,
                                       seen: set<Addr>)
    requires WellFormed(g) && Ranked(g, rank, top)
    requires AllBelow(rank, slots, bound)
    ensures FieldsMirror(g, StripSlots(g, rank, top, slots, bound, seen).0, Others(slots))
    decreases g.objects.Keys - seen, bound, |slots|
  {
    if slots == [] {
    } else if Financial(slots[0].key) {
      SlotsMirror(g, rank, top, slots[1..], bound, seen);
      assert Others(slots) == Others(slots[1..]);
    } else {
      assert Below(rank, slots[0].val, bound);
      SpecMirrors(g, rank, top, slots[0].val, seen);
      var first := StripSpec(g, rank, top, slots[0].val, seen);
      SlotsMirror(g, rank, top, slots[1..], bound, first.1);
      var rest := StripSlots(g, rank, top, slots[1..], bound, first.1).0;
      FieldsMirrorCons(g, Field(slots[0].key, first.0), rest, slots[0], Others(slots[1..]));
      FirstSlot(g, rank, top, slots, bound, seen);
    }
  }

  lemma FirstSlot(g: Graph, rank: map<Value, nat>, top: nat, slots: seq<Slot>, bound: nat, seen: set<Addr>)
    requires WellFormed(g) && Ranked(g, rank, top) && AllBelow(rank, slots, bound)
    requires slots != [] && !Financial(slots[0].key) && Below(rank, slots[0].val, bound)
    ensures var first := StripSpec(g, rank, top, slots[0].val, seen);
            StripSlots(g, rank, top, slots, bound, seen).0 ==
            [Field(slots[0].key, first.0)] + StripSlots(g, rank, top, slots[1..], bound, first.1).0
    ensures Others(slots) == [slots[0]] + Others(slots[1..])
  {
  }

  lemma FieldsMirrorCons(g: Graph, f: Field, fields: seq<Field>, s: Slot, others: seq<Slot>)
    requires FieldsMirror(g, fields, others)
    requires f.key == s.key && Source(f.val) == s.val && Mirrors(g, f.val)
    ensures FieldsMirror(g, [f] + fields, [s] + others)
  {
  }

  lemma {:induction false} OthersClean(slots: seq<Slot>)
    ensures forall i :: 0 <= i < |Others(slots)| ==> !Financial(Others(slots)[i].key)
  {
    if slots == [] {
    } else {
      OthersClean(slots[1..]);
    }
  }

  /** The same walk in the result and in the input ends at the same value, with the
      same other keys. */
  ghost predicate SameEnd(g: Graph, r: Option<Out>, k: Option<Out>) {
    && (r.Some? <==> k.Some?)
    && (r.Some? ==>
          && k.value == Kept(Source(r.value)) && Mirrors(g, r.value)
          && KeysOf(Parts(g, r.value)) == KeysOf(Parts(g, k.value)))
  }

  lemma MirrorKeys(g: Graph, out: Out)
    requires Mirrors(g, out)
    ensures |Parts(g, out)| == |Parts(g, Kept(Source(out)))|
    ensures KeysOf(Parts(g, out)) == KeysOf(Parts(g, Kept(Source(out))))
    ensures forall i :: 0 <= i < |Parts(g, out)| ==>
              && Mirrors(g, Parts(g, out)[i].val)
              && Parts(g, Kept(Source(out)))[i].val == Kept(Source(Parts(g, out)[i].val))
  {
  }

  lemma {:induction false} WalkMirrors(g: Graph, out: Out, p: seq<nat>)
    requires Mirrors(g, out)
    ensures SameEnd(g, Walk(g, out, p), Walk(g, Kept(Source(out)), p))
    decreases |p|
  {
    MirrorKeys(g, out);
    if p == [] {
    } else if p[0] < |Parts(g, out)| {
      WalkMirrors(g, Parts(g, out)[p[0]].val, p[1..]);
    }
  }

  /** Nothing but financial entries is lost, at any depth and through any cycle. */
  lemma StripKeepsTheRest(g: Graph, v: Value, p: seq<nat>)
    requires WellFormed(g) && NoArrayCycle(g, v) && Held(g, v)
    ensures SameEnd(g, Walk(g, Stripped(g, v), p), Walk(g, Kept(v), p))
  {
    StrippedMirrors(g, v);
    WalkMirrors(g, Stripped(g, v), p);
  }

  lemma StrippedMirrors(g: Graph, v: Value)
    requires WellFormed(g) && NoArrayCycle(g, v) && Held(g, v)
    ensures Mirrors(g, Stripped(g, v)) && Source(Stripped(g, v)) == v
  {
    RankedIff(g, v);
    var rank, top :| Ranked(g, rank, top) && Known(rank, v);
    StrippedBySpec(g, rank, top, v);
    SpecMirrors(g, rank, top, v, {});
  }

  lemma NewNodesClean(g: Graph, out: Out)
    requires Mirrors(g, out) && HoldsMoney(g, out)
    ensures out.Kept?
  {
    OthersClean(SlotsOf(g, Source(out)));
  }

  // ----- walks inside the new part -----

  /** The walk within the copies; it cannot pass through a kept value. */
  function NewWalk(out: Out, p: seq<nat>): Option<Out>
    decreases |p|
  {
    if p == [] then Some(out)
    else if out.Kept? then None
    else if p[0] < |out.items| then NewWalk(out.items[p[0]].val, p[1..])
    else None
  }

  lemma {:induction false} NewWalkIsWalk(g: Graph, out: Out, p: seq<nat>)
    requires NewWalk(out, p).Some?
    ensures Walk(g, out, p) == NewWalk(out, p)
    decreases |p|
  {
    if p == [] {
    } else {
      NewWalkIsWalk(g, out.items[p[0]].val, p[1..]);
    }
  }

  /** A walk stays within the copies, or leaves them at one kept value. */
  lemma {:induction false} LeavesCopies(g: Graph, out: Out, p: seq<nat>) returns (n: nat)
    requires Walk(g, out, p).Some?
    ensures n <= |p| && NewWalk(out, p[..n]).Some?
    ensures Walk(g, NewWalk(out, p[..n]).value, p[n..]) == Walk(g, out, p)
    ensures n == |p| || NewWalk(out, p[..n]).value.Kept?
    decreases |p|
  {
    if p == [] || out.Kept? {
      n := 0;
      assert p[..0] == [] && p[0..] == p;
    } else {
      var m := LeavesCopies(g, out.items[p[0]].val, p[1..]);
      n := m + 1;
      assert p[..n][1..] == p[1..][..m] && p[n..] == p[1..][m..];
    }
  }

  /** At `p` the result holds a copy of the object `a`. */
  predicate CopyAt(out: Out, p: seq<nat>, a: Addr) {
    var o := NewWalk(out, p);
    o.Some? && o.value.NewObj? && o.value.origin == a
  }

  predicate FieldCopyAt(fields: seq<Field>, i: nat, p: seq<nat>, a: Addr) {
    i < |fields| && CopyAt(fields[i].val, p, a)
  }

  /** Each object is copied when it is first visited, at one place, and never again. */
  lemma {:induction false} CopiedOnce(g: Graph, rank: map<Value, nat>, top: nat, v: Value, seen: set<Addr>,
                                      p: seq<nat>, q: seq<nat>, a: Addr)
    requires WellFormed(g) && Ranked(g, rank, top) && Known(rank, v)
    requires var out := StripSpec(g, rank, top, v, seen).0; CopyAt(out, p, a) && CopyAt(out, q, a)
    ensures p == q && a !in seen && a in StripSpec(g, rank, top, v, seen).1
    decreases g.objects.Keys - seen, Height(rank, v), Width(g, v)
  {
    match v
    case Leaf(_) =>
    case Arr(o) =>
      FieldsCopiedOnce(g, rank, top, g.arrays[o], rank[Arr(o)], seen, p[0], p[1..], q[0], q[1..], a);
      assert p == [p[0]] + p[1..] && q == [q[0]] + q[1..];
    case Obj(o) =>
      if o in seen {
      } else {
        var slots := g.objects[o];
        if p != [] {
          FieldsCopiedOnce(g, rank, top, slots, top, seen + {o}, p[0], p[1..], p[0], p[1..], a);
        }
        if q != [] {
          FieldsCopiedOnce(g, rank, top, slots, top, seen + {o}, q[0], q[1..], q[0], q[1..], a);
        }
        if p != [] && q != [] {
          FieldsCopiedOnce(g, rank, top, slots, top, seen + {o}, p[0], p[1..], q[0], q[1..], a);
          assert p == [p[0]] + p[1..] && q == [q[0]] + q[1..];
        }
      }
  }

  lemma {:induction false} FieldsCopiedOnce(g: Graph, rank: map<Value, nat>, top: nat, slots: seq<Slot>, bound: nat,
                                            seen: set<Addr>, i: nat, p: seq<nat>, j: nat, q: seq<nat>, a: Addr)
    requires WellFormed(g) && Ranked(g, rank, top)
    requires AllBelow(rank, slots, bound)
    requires var r := StripSlots(g, rank, top, slots, bound, seen).0; FieldCopyAt(r, i, p, a) && FieldCopyAt(r, j, q, a)
    ensures i == j && p == q && a !in seen && a in StripSlots(g, rank, top, slots, bound, seen).1
    decreases g.objects.Keys - seen, bound, |slots|
  {
    if slots == [] {
    } else if Financial(slots[0].key) {
      FieldsCopiedOnce(g, rank, top, slots[1..], bound, seen, i, p, j, q, a);
    } else {
      assert Below(rank, slots[0].val, bound);
      var seen' := StripSpec(g, rank, top, slots[0].val, seen).1;
      if i == 0 {
        CopiedOnce(g, rank, top, slots[0].val, seen, p, p, a);
      }
      if j == 0 {
        CopiedOnce(g, rank, top, slots[0].val, seen, q, q, a);
      }
      if i == 0 && j == 0 {
        CopiedOnce(g, rank, top, slots[0].val, seen, p, q, a);
      }
      if i > 0 {
        FieldsCopiedOnce(g, rank, top, slots[1..], bound, seen', i - 1, p, i - 1, p, a);
      }
      if j > 0 {
        FieldsCopiedOnce(g, rank, top, slots[1..], bound, seen', j - 1, q, j - 1, q, a);
      }
      if i > 0 && j > 0 {
        FieldsCopiedOnce(g, rank, top, slots[1..], bound, seen', i - 1, p, j - 1, q, a);
      }
    }
  }

  /** Every object newly visited is copied somewhere. */
  lemma {:induction false} FindCopy(g: Graph, rank: map<Value, nat>, top: nat, v: Value, seen: set<Addr>, a: Addr)
    returns (p: seq<nat>)
    requires WellFormed(g) && Ranked(g, rank, top) && Known(rank, v)
    requires a !in seen && a in StripSpec(g, rank, top, v, seen).1
    ensures CopyAt(StripSpec(g, rank, top, v, seen).0, p, a)
    decreases g.objects.Keys - seen, Height(rank, v), Width(g, v)
  {
    if v == Obj(a) {
      p := [];
    } else {
      var i, q;
      if v.Arr? {
        i, q := FindFieldCopy(g, rank, top, g.arrays[v.a], rank[v], seen, a);
      } else {
        i, q := FindFieldCopy(g, rank, top, g.objects[v.a], top, seen + {v.a}, a);
      }
      p := [i] + q;
      assert p[1..] == q;
    }
  }

  lemma {:induction false} FindFieldCopy(g: Graph, rank: map<Value, nat>, top: nat, slots: seq<Slot>, bound: nat,
                                         seen: set<Addr>, a: Addr)
    returns (i: nat, p: seq<nat>)
    requires WellFormed(g) && Ranked(g, rank, top)
    requires AllBelow(rank, slots, bound)
    requires a !in seen && a in StripSlots(g, rank, top, slots, bound, seen).1
    ensures FieldCopyAt(StripSlots(g, rank, top, slots, bound, seen).0, i, p, a)
    decreases g.objects.Keys - seen, bound, |slots|
  {
    if Financial(slots[0].key) {
      i, p := FindFieldCopy(g, rank, top, slots[1..], bound, seen, a);
    } else {
      assert Below(rank, slots[0].val, bound);
      var seen' := StripSpec(g, rank, top, slots[0].val, seen).1;
      if a in seen' {
        i := 0;
        p := FindCopy(g, rank, top, slots[0].val, seen, a);
      } else {
        i, p := FindFieldCopy(g, rank, top, slots[1..], bound, seen', a);
        i := i + 1;
      }
    }
  }

  predicate Visited(v: Value, seen: set<Addr>) { v.Leaf? || (v.Obj? && v.a in seen) }

  /** Only leaves and objects met again are kept. */
  lemma {:induction false} KeepsVisited(g: Graph, rank: map<Value, nat>, top: nat, v: Value, seen: set<Addr>,
                                        p: seq<nat>)
    requires WellFormed(g) && Ranked(g, rank, top) && Known(rank, v)
    requires var k := NewWalk(StripSpec(g, rank, top, v, seen).0, p); k.Some? && k.value.Kept?
    ensures var r := StripSpec(g, rank, top, v, seen);
            Visited(NewWalk(r.0, p).value.v, r.1)
    decreases g.objects.Keys - seen, Height(rank, v), Width(g, v)
  {
    match v
    case Leaf(_) =>
    case Arr(o) => FieldsKeepVisited(g, rank, top, g.arrays[o], rank[Arr(o)], seen, p[0], p[1..]);
    case Obj(o) =>
      if o in seen {
      } else {
        FieldsKeepVisited(g, rank, top, g.objects[o], top, seen + {o}, p[0], p[1..]);
      }
  }

  lemma {:induction false} FieldsKeepVisited(g: Graph, rank: map<Value, nat>, top: nat, slots: seq<Slot>, bound: nat,
                                             seen: set<Addr>, i: nat, p: seq<nat>)
    requires WellFormed(g) && Ranked(g, rank, top)
    requires AllBelow(rank, slots, bound)
    requires i < |StripSlots(g, rank, top, slots, bound, seen).0|
    requires var k := NewWalk(StripSlots(g, rank, top, slots, bound, seen).0[i].val, p); k.Some? && k.value.Kept?
    ensures var r := StripSlots(g, rank, top, slots, bound, seen);
            Visited(NewWalk(r.0[i].val, p).value.v, r.1)
    decreases g.objects.Keys - seen, bound, |slots|
  {
    if Financial(slots[0].key) {
      FieldsKeepVisited(g, rank, top, slots[1..], bound, seen, i, p);
    } else {
      assert Below(rank, slots[0].val, bound);
      if i == 0 {
        KeepsVisited(g, rank, top, slots[0].val, seen, p);
      } else {
        FieldsKeepVisited(g, rank, top, slots[1..], bound, StripSpec(g, rank, top, slots[0].val, seen).1, i - 1, p);
      }
    }
  }

  // ----- exactly when a financial key survives -----

  lemma StrippedCopiesOnce(g: Graph, v: Value, p: seq<nat>, q: seq<nat>, a: Addr)
    requires WellFormed(g) && NoArrayCycle(g, v) && Held(g, v)
    requires CopyAt(Stripped(g, v), p, a) && CopyAt(Stripped(g, v), q, a)
    ensures p == q
  {
    RankedIff(g, v);
    var rank, top :| Ranked(g, rank, top) && Known(rank, v);
    StrippedBySpec(g, rank, top, v);
    CopiedOnce(g, rank, top, v, {}, p, q, a);
  }

  /** Whatever the result keeps is a leaf, or an object it copied elsewhere. */
  lemma KeptIsCopied(g: Graph, v: Value, p: seq<nat>) returns (first: seq<nat>)
    requires WellFormed(g) && NoArrayCycle(g, v) && Held(g, v)
    requires NewWalk(Stripped(g, v), p).Some? && NewWalk(Stripped(g, v), p).value.Kept?
    ensures var u := NewWalk(Stripped(g, v), p).value.v;
            u.Leaf? || (u.Obj? && CopyAt(Stripped(g, v), first, u.a))
  {
    RankedIff(g, v);
    var rank, top :| Ranked(g, rank, top) && Known(rank, v);
    StrippedBySpec(g, rank, top, v);
    KeepsVisited(g, rank, top, v, {}, p);
    var u := NewWalk(Stripped(g, v), p).value.v;
    first := [];
    if u.Obj? {
      first := FindCopy(g, rank, top, v, {}, u.a);
    }
  }

  /** An object the traversal met again, kept as it is at `p`. */
  predicate MetAgainAt(out: Out, p: seq<nat>, b: Addr) {
    NewWalk(out, p) == Some(Kept(Obj(b)))
  }

  /** A financial key survives exactly when one can be reached from some object met
      again: copies hold none. */
  lemma ExposesThroughMetAgain(g: Graph, v: Value)
    requires WellFormed(g) && NoArrayCycle(g, v) && Held(g, v)
    ensures Exposes(g, Stripped(g, v)) <==>
            exists p, b :: MetAgainAt(Stripped(g, v), p, b) && Exposes(g, Kept(Obj(b)))
  {
    var out := Stripped(g, v);
    if p :| ExposesAt(g, out, p) {
      var n, b, first := ExposedBelow(g, v, p);
      assert MetAgainAt(out, p[..n], b) && Exposes(g, Kept(Obj(b)));
    }
    if p, b :| MetAgainAt(out, p, b) && Exposes(g, Kept(Obj(b))) {
      ExposedAbove(g, out, p, b);
    }
  }

  lemma ExposedAbove(g: Graph, out: Out, p: seq<nat>, b: Addr)
    requires MetAgainAt(out, p, b) && Exposes(g, Kept(Obj(b)))
    ensures Exposes(g, out)
  {
    var q :| ExposesAt(g, Kept(Obj(b)), q);
    NewWalkIsWalk(g, out, p);
    WalkAppend(g, out, p, q);
    assert ExposesAt(g, out, p + q);
  }

  lemma {:induction false} WalkAppend(g: Graph, out: Out, p: seq<nat>, q: seq<nat>)
    requires Walk(g, out, p).Some?
    ensures Walk(g, out, p + q) == Walk(g, Walk(g, out, p).value, q)
    decreases |p|
  {
    if p == [] {
      assert p + q == q;
    } else {
      assert (p + q)[1..] == p[1..] + q;
      WalkAppend(g, Parts(g, out)[p[0]].val, p[1..], q);
    }
  }

  /** The walk to a surviving key leaves the copies at an object met again, which
      the result copied at `first`. */
  lemma ExposedBelow(g: Graph, v: Value, p: seq<nat>) returns (n: nat, b: Addr, first: seq<nat>)
    requires WellFormed(g) && NoArrayCycle(g, v) && Held(g, v)
    requires ExposesAt(g, Stripped(g, v), p)
    ensures n <= |p| && MetAgainAt(Stripped(g, v), p[..n], b) && CopyAt(Stripped(g, v), first, b)
    ensures ExposesAt(g, Kept(Obj(b)), p[n..])
  {
    var out := Stripped(g, v);
    n := LeavesCopies(g, out, p);
    assert n == |p| ==> p[n..] == [];
    StrippedMirrors(g, v);
    WalkMirrors(g, out, p);
    NewNodesClean(g, Walk(g, out, p).value);
    var k := NewWalk(out, p[..n]).value;
    first := KeptIsCopied(g, v, p[..n]);
    if k.v.Leaf? {
      LeafEnds(g, k, p[n..]);
    }
    b := k.v.a;
  }

  lemma LeafEnds(g: Graph, k: Out, p: seq<nat>)
    requires k.Kept? && k.v.Leaf?
    ensures !ExposesAt(g, k, p)
  {
    assert Parts(g, k) == [];
  }

  /** Two different walks lead to the same plain object holding a financial key. */
  ghost predicate MoneyReachedTwice(g: Graph, v: Value) {
    exists a, p, q :: TwoWalksToMoney(g, v, a, p, q)
  }

  predicate TwoWalksToMoney(g: Graph, v: Value, a: Addr, p: seq<nat>, q: seq<nat>) {
    p != q && Reaches(g, v, p, a) && Reaches(g, v, q, a) && HoldsMoney(g, Kept(Obj(a)))
  }

  /** The exact condition, on the input alone, cycles included: a financial key
      survives if and only if an object holding one is reached by two walks. */
  lemma SurvivesIff(g: Graph, v: Value)
    requires WellFormed(g) && NoArrayCycle(g, v) && Held(g, v)
    ensures Exposes(g, Stripped(g, v)) <==> MoneyReachedTwice(g, v)
  {
    if p :| ExposesAt(g, Stripped(g, v), p) {
      SurvivorReachedTwice(g, v, p);
    }
    if a, p, q :| TwoWalksToMoney(g, v, a, p, q) {
      ReachedTwiceSurvives(g, v, a, p, q);
    }
  }

  lemma PlaceIsReached(g: Graph, out: Out, p: seq<nat>, b: Addr)
    requires Mirrors(g, out) && (CopyAt(out, p, b) || MetAgainAt(out, p, b))
    ensures Reaches(g, Source(out), p, b)
  {
    NewWalkIsWalk(g, out, p);
    WalkMirrors(g, out, p);
  }

  /** A place in the copies is reached by the same walk in the input. */
  lemma CopiesAreReached(g: Graph, v: Value, p: seq<nat>, b: Addr)
    requires WellFormed(g) && NoArrayCycle(g, v) && Held(g, v)
    requires CopyAt(Stripped(g, v), p, b) || MetAgainAt(Stripped(g, v), p, b)
    ensures Reaches(g, v, p, b)
  {
    StrippedMirrors(g, v);
    PlaceIsReached(g, Stripped(g, v), p, b);
  }

  lemma SurvivorReachedTwice(g: Graph, v: Value, p: seq<nat>)
    requires WellFormed(g) && NoArrayCycle(g, v) && Held(g, v)
    requires ExposesAt(g, Stripped(g, v), p)
    ensures MoneyReachedTwice(g, v)
  {
    var n, b, first := ExposedBelow(g, v, p);
    CopiesAreReached(g, v, first, b);
    CopiesAreReached(g, v, p[..n], b);
    assert first != p[..n];
    var a := MoneyBelow(g, b, p[n..]);
    BothWalksReach(g, v, b, first, p[..n], p[n..], a);
  }

  /** The end of an exposing walk in the input is an object. */
  lemma MoneyBelow(g: Graph, b: Addr, p: seq<nat>) returns (a: Addr)
    requires WellFormed(g) && ExposesAt(g, Kept(Obj(b)), p)
    ensures Reaches(g, Obj(b), p, a) && HoldsMoney(g, Kept(Obj(a)))
  {
    KeptEndsKept(g, Obj(b), p);
    var u := Walk(g, Kept(Obj(b)), p).value.v;
    MoneyIsOnObjects(g, u);
    a := u.a;
  }

  lemma BothWalksReach(g: Graph, v: Value, b: Addr, p: seq<nat>, q: seq<nat>, rest: seq<nat>, a: Addr)
    requires p != q && Reaches(g, v, p, b) && Reaches(g, v, q, b)
    requires Reaches(g, Obj(b), rest, a) && HoldsMoney(g, Kept(Obj(a)))
    ensures MoneyReachedTwice(g, v)
  {
    WalkAppend(g, Kept(v), p, rest);
    WalkAppend(g, Kept(v), q, rest);
    assert (p + rest)[..|p|] == p && (q + rest)[..|q|] == q;
    assert |p + rest| == |p| + |rest| && |q + rest| == |q| + |rest|;
    assert TwoWalksToMoney(g, v, a, p + rest, q + rest);
  }

  lemma {:induction false} KeptEndsKept(g: Graph, v: Value, p: seq<nat>)
    ensures var o := Walk(g, Kept(v), p);
            o.Some? ==> o.value.Kept?
    decreases |p|
  {
    if p == [] {
    } else if p[0] < |Parts(g, Kept(v))| {
      KeptEndsKept(g, Parts(g, Kept(v))[p[0]].val.v, p[1..]);
    }
  }

  /** Array elements carry no key, and leaves have no entries. */
  lemma MoneyIsOnObjects(g: Graph, u: Value)
    requires WellFormed(g) && HoldsMoney(g, Kept(u))
    ensures u.Obj?
  {
  }

  lemma ReachedTwiceSurvives(g: Graph, v: Value, a: Addr, p: seq<nat>, q: seq<nat>)
    requires WellFormed(g) && NoArrayCycle(g, v) && Held(g, v)
    requires TwoWalksToMoney(g, v, a, p, q)
    ensures Exposes(g, Stripped(g, v))
  {
    var out := Stripped(g, v);
    StrippedMirrors(g, v);
    WalkMirrors(g, out, p);
    WalkMirrors(g, out, q);
    if Walk(g, out, p).value.Kept? {
      assert ExposesAt(g, out, p);
    } else if Walk(g, out, q).value.Kept? {
      assert ExposesAt(g, out, q);
    } else {
      NewEndIsCopy(g, out, p);
      NewEndIsCopy(g, out, q);
      StrippedCopiesOnce(g, v, p, q, a);
    }
  }

  lemma {:induction false} NewEndIsCopy(g: Graph, out: Out, p: seq<nat>)
    requires Walk(g, out, p).Some? && !Walk(g, out, p).value.Kept?
    ensures NewWalk(out, p) == Walk(g, out, p)
    decreases |p|
  {
    if p == [] {
    } else {
      if out.Kept? {
        KeptEndsKept(g, out.v, p);
      }
      NewEndIsCopy(g, out.items[p[0]].val, p[1..]);
    }
  }

  // ----- the pure tree strip -----

  /** A response as a tree. Where the traversal meets an object again, the tree ends
      in a reference back to it; every graph has such a tree. */
  datatype Tree =
    | TLeaf(id: string)
    | TArr(origin: Addr, slots: Slots)
    | TObj(origin: Addr, slots: Slots)
    | TBack(origin: Addr)

  datatype Slots = Nil | Cons(key: Option<string>, head: Tree, tail: Slots)

  /** The unfolding the traversal walks; it does not look under a financial key. */
  function Unfolding(g: Graph, ghost rank: map<Value, nat>, ghost top: nat, v: Value, seen: set<Addr>)
    : (r: (Tree, set<Addr>))
    requires WellFormed(g) && Ranked(g, rank, top) && Known(rank, v)
    ensures seen <= r.1
    decreases g.objects.Keys - seen, Height(rank, v), Width(g, v)
  {
    match v
    case Leaf(id) => (TLeaf(id), seen)
    case Arr(a) =>
      var r := SlotsUnfolding(g, rank, top, g.arrays[a], rank[Arr(a)], seen);
      (TArr(a, r.0), r.1)
    case Obj(a) =>
      if a in seen then (TBack(a), seen)
      else
        var r := SlotsUnfolding(g, rank, top, g.objects[a], top, seen + {a});
        (TObj(a, r.0), r.1)
  }

  function SlotsUnfolding(g: Graph, ghost rank: map<Value, nat>, ghost top: nat, slots: seq<Slot>, ghost bound: nat,
                          seen: set<Addr>)
    : (r: (Slots, set<Addr>))
    requires WellFormed(g) && Ranked(g, rank, top)
    requires AllBelow(rank, slots, bound)
    ensures seen <= r.1
    decreases g.objects.Keys - seen, bound, |slots|
  {
    if slots == [] then (Nil, seen)
    else if Financial(slots[0].key) then
      var rest := SlotsUnfolding(g, rank, top, slots[1..], bound, seen);
      (Cons(slots[0].key, TLeaf(""), rest.0), rest.1)
    else
      assert Below(rank, slots[0].val, bound);
      var first := Unfolding(g, rank, top, slots[0].val, seen);
      var rest := SlotsUnfolding(g, rank, top, slots[1..], bound, first.1);
      (Cons(slots[0].key, first.0, rest.0), rest.1)
  }

  /** Drops every financial key, at every depth. */
  function TreeStrip(t: Tree): Tree
    decreases t
  {
    match t
    case TLeaf(_) => t
    case TArr(o, ts) => TArr(o, SlotsStrip(ts))
    case TObj(o, ts) => TObj(o, SlotsStrip(ts))
    case TBack(_) => t
  }

  function SlotsStrip(ts: Slots): Slots
    decreases ts
  {
    if ts.Nil? then Nil
    else if Financial(ts.key) then SlotsStrip(ts.tail)
    else Cons(ts.key, TreeStrip(ts.head), SlotsStrip(ts.tail))
  }

  /** The tree as a result: a reference back is the original object. */
  function OutOf(t: Tree): Out
    decreases t
  {
    match t
    case TLeaf(id) => Kept(Leaf(id))
    case TArr(o, ts) => NewArr(o, FieldsOf(ts))
    case TObj(o, ts) => NewObj(o, FieldsOf(ts))
    case TBack(o) => Kept(Obj(o))
  }

  function FieldsOf(ts: Slots): seq<Field>
    decreases ts
  {
    if ts.Nil? then [] else [Field(ts.key, OutOf(ts.head))] + FieldsOf(ts.tail)
  }

  /** On every graph and visited set, the traversal unfolds, strips the tree purely,
      and turns references back into the original objects. */
  lemma {:induction false} StripFactors(g: Graph, rank: map<Value, nat>, top: nat, v: Value, seen: set<Addr>)
    requires WellFormed(g) && Ranked(g, rank, top) && Known(rank, v)
    ensures var u := Unfolding(g, rank, top, v, seen);
            StripSpec(g, rank, top, v, seen) == (OutOf(TreeStrip(u.0)), u.1)
    decreases g.objects.Keys - seen, Height(rank, v), Width(g, v)
  {
    match v
    case Leaf(_) =>
    case Arr(a) => SlotsFactor(g, rank, top, g.arrays[a], rank[Arr(a)], seen);
    case Obj(a) =>
      if a in seen {
      } else {
        SlotsFactor(g, rank, top, g.objects[a], top, seen + {a});
      }
  }

  lemma {:induction false} SlotsFactor(g: Graph, rank: map<Value, nat>, top: nat, slots: seq<Slot>, bound: nat,
                                       seen: set<Addr>)
    requires WellFormed(g) && Ranked(g, rank, top)
    requires AllBelow(rank, slots, bound)
    ensures var u := SlotsUnfolding(g, rank, top, slots, bound, seen);
            StripSlots(g, rank, top, slots, bound, seen) == (FieldsOf(SlotsStrip(u.0)), u.1)
    decreases g.objects.Keys - seen, bound, |slots|
  {
    if slots == [] {
    } else if Financial(slots[0].key) {
      SlotsFactor(g, rank, top, slots[1..], bound, seen);
    } else {
      assert Below(rank, slots[0].val, bound);
      StripFactors(g, rank, top, slots[0].val, seen);
      SlotsFactor(g, rank, top, slots[1..], bound, StripSpec(g, rank, top, slots[0].val, seen).1);
    }
  }

  /** A financial key occurs somewhere in the tree. */
  predicate HasMoney(t: Tree)
    decreases t
  {
    match t
    case TLeaf(_) => false
    case TArr(_, ts) => SlotsHaveMoney(ts)
    case TObj(_, ts) => SlotsHaveMoney(ts)
    case TBack(_) => false
  }

  predicate SlotsHaveMoney(ts: Slots)
    decreases ts
  {
    ts.Cons? && (Financial(ts.key) || HasMoney(ts.head) || SlotsHaveMoney(ts.tail))
  }

  function Size(ts: Slots): nat { if ts.Nil? then 0 else 1 + Size(ts.tail) }

  function TreeKeys(ts: Slots): seq<Option<string>> {
    if ts.Nil? then [] else [ts.key] + TreeKeys(ts.tail)
  }

  function OtherKeys(keys: seq<Option<string>>): seq<Option<string>> {
    if keys == [] then [] else (if Financial(keys[0]) then [] else [keys[0]]) + OtherKeys(keys[1..])
  }

  /** No financial key survives at any depth. */
  lemma {:induction false} StripRemovesMoney(t: Tree)
    ensures !HasMoney(TreeStrip(t))
    decreases t
  {
    match t
    case TLeaf(_) =>
    case TArr(_, ts) => SlotsStripRemoveMoney(ts);
    case TObj(_, ts) => SlotsStripRemoveMoney(ts);
    case TBack(_) =>
  }

  lemma {:induction false} SlotsStripRemoveMoney(ts: Slots)
    ensures !SlotsHaveMoney(SlotsStrip(ts))
    decreases ts
  {
    if ts.Nil? {
    } else {
      SlotsStripRemoveMoney(ts.tail);
      if !Financial(ts.key) {
        StripRemovesMoney(ts.head);
      }
    }
  }

  /** Every other key is kept, in order. */
  lemma {:induction false} StripKeepsOtherKeys(ts: Slots)
    ensures TreeKeys(SlotsStrip(ts)) == OtherKeys(TreeKeys(ts))
    decreases ts
  {
    if ts.Nil? {
    } else {
      StripKeepsOtherKeys(ts.tail);
      assert TreeKeys(ts)[1..] == TreeKeys(ts.tail);
    }
  }

  /** Stripping leaves a tree alone exactly when it holds no money. */
  lemma {:induction false} StripFixesClean(t: Tree)
    ensures TreeStrip(t) == t <==> !HasMoney(t)
    decreases t
  {
    match t
    case TLeaf(_) =>
    case TArr(_, ts) => SlotsStripFixClean(ts);
    case TObj(_, ts) => SlotsStripFixClean(ts);
    case TBack(_) =>
  }

  lemma {:induction false} SlotsStripFixClean(ts: Slots)
    ensures Size(SlotsStrip(ts)) <= Size(ts)
    ensures SlotsStrip(ts) == ts <==> !SlotsHaveMoney(ts)
    decreases ts
  {
    if ts.Nil? {
    } else {
      SlotsStripFixClean(ts.tail);
      if !Financial(ts.key) {
        StripFixesClean(ts.head);
      }
    }
  }

  /** Stripping twice is stripping once. */
  lemma StripIdempotent(t: Tree)
    ensures TreeStrip(TreeStrip(t)) == TreeStrip(t)
  {
    StripRemovesMoney(t);
    StripFixesClean(TreeStrip(t));
  }

  // ----- responses without a second way to any object -----

  predicate HasBack(t: Tree)
    decreases t
  {
    match t
    case TLeaf(_) => false
    case TArr(_, ts) => SlotsHaveBack(ts)
    case TObj(_, ts) => SlotsHaveBack(ts)
    case TBack(_) => true
  }

  predicate SlotsHaveBack(ts: Slots)
    decreases ts
  {
    ts.Cons? && ((!Financial(ts.key) && HasBack(ts.head)) || SlotsHaveBack(ts.tail))
  }

  /** A reference back shows in the result as an object met again. */
  lemma {:induction false} BackIsMetAgain(t: Tree) returns (p: seq<nat>, b: Addr)
    requires HasBack(t)
    ensures MetAgainAt(OutOf(TreeStrip(t)), p, b)
    decreases t
  {
    if t.TBack? {
      p, b := [], t.origin;
    } else {
      var i, q;
      i, q, b := BackInSlots(t.slots);
      p := [i] + q;
      assert p[1..] == q;
    }
  }

  lemma {:induction false} BackInSlots(ts: Slots) returns (i: nat, p: seq<nat>, b: Addr)
    requires SlotsHaveBack(ts)
    ensures i < |FieldsOf(SlotsStrip(ts))| && MetAgainAt(FieldsOf(SlotsStrip(ts))[i].val, p, b)
    decreases ts
  {
    if Financial(ts.key) {
      i, p, b := BackInSlots(ts.tail);
    } else if HasBack(ts.head) {
      p, b := BackIsMetAgain(ts.head);
      i := 0;
    } else {
      i, p, b := BackInSlots(ts.tail);
      i := i + 1;
    }
  }

  /** `t` unfolds `v` completely, but for what lies under a financial key. */
  ghost predicate Unfolds(g: Graph, v: Value, t: Tree)
    decreases t
  {
    match t
    case TLeaf(id) => v == Leaf(id)
    case TArr(o, ts) => v == Arr(o) && o in g.arrays && SlotsUnfold(g, g.arrays[o], ts)
    case TObj(o, ts) => v == Obj(o) && o in g.objects && SlotsUnfold(g, g.objects[o], ts)
    case TBack(_) => false
  }

  ghost predicate SlotsUnfold(g: Graph, vs: seq<Slot>, ts: Slots)
    decreases ts
  {
    && (ts.Nil? <==> vs == [])
    && (ts.Cons? ==>
          && vs[0].key == ts.key
          && (!Financial(ts.key) ==> Unfolds(g, vs[0].val, ts.head))
          && SlotsUnfold(g, vs[1..], ts.tail))
  }

  lemma {:induction false} NoBackUnfolds(g: Graph, rank: map<Value, nat>, top: nat, v: Value, seen: set<Addr>)
    requires WellFormed(g) && Ranked(g, rank, top) && Known(rank, v)
    requires !HasBack(Unfolding(g, rank, top, v, seen).0)
    ensures Unfolds(g, v, Unfolding(g, rank, top, v, seen).0)
    decreases g.objects.Keys - seen, Height(rank, v), Width(g, v)
  {
    match v
    case Leaf(_) =>
    case Arr(a) => NoBackSlotsUnfold(g, rank, top, g.arrays[a], rank[Arr(a)], seen);
    case Obj(a) => NoBackSlotsUnfold(g, rank, top, g.objects[a], top, seen + {a});
  }

  lemma {:induction false} NoBackSlotsUnfold(g: Graph, rank: map<Value, nat>, top: nat, slots: seq<Slot>, bound: nat,
                                             seen: set<Addr>)
    requires WellFormed(g) && Ranked(g, rank, top)
    requires AllBelow(rank, slots, bound)
    requires !SlotsHaveBack(SlotsUnfolding(g, rank, top, slots, bound, seen).0)
    ensures SlotsUnfold(g, slots, SlotsUnfolding(g, rank, top, slots, bound, seen).0)
    decreases g.objects.Keys - seen, bound, |slots|
  {
    if slots == [] {
    } else if Financial(slots[0].key) {
      NoBackSlotsUnfold(g, rank, top, slots[1..], bound, seen);
    } else {
      assert Below(rank, slots[0].val, bound);
      NoBackUnfolds(g, rank, top, slots[0].val, seen);
      NoBackSlotsUnfold(g, rank, top, slots[1..], bound, Unfolding(g, rank, top, slots[0].val, seen).1);
    }
  }

  /** No object has a second way to it. */
  ghost predicate ReachedOnce(g: Graph, v: Value) {
    forall a, p, q :: Reaches(g, v, p, a) && Reaches(g, v, q, a) ==> p == q
  }

  /** When no plain object is reached by two walks, the response unfolds to a tree and
      the interceptor returns its pure strip, with no financial key at any depth. */
  lemma StripIsTreeStrip(g: Graph, v: Value) returns (t: Tree)
    requires WellFormed(g) && NoArrayCycle(g, v) && Held(g, v) && ReachedOnce(g, v)
    ensures Unfolds(g, v, t) && Stripped(g, v) == OutOf(TreeStrip(t)) && !HasMoney(TreeStrip(t))
    ensures !Exposes(g, Stripped(g, v))
  {
    RankedIff(g, v);
    var rank, top :| Ranked(g, rank, top) && Known(rank, v);
    StrippedBySpec(g, rank, top, v);
    StripFactors(g, rank, top, v, {});
    t := Unfolding(g, rank, top, v, {}).0;
    if HasBack(t) {
      var p, b := BackIsMetAgain(t);
      var first := KeptIsCopied(g, v, p);
      CopiesAreReached(g, v, p, b);
      CopiesAreReached(g, v, first, b);
    }
    NoBackUnfolds(g, rank, top, v, {});
    StripRemovesMoney(t);
    SurvivesIff(g, v);
  }

  // ----- two responses that keep a financial key -----

  /** An object `b` with a financial key under two keys of another. */
  function Shared(a: Addr, b: Addr): Graph {
    Graph(map[], map[a := [Slot(Some("first"), Obj(b)), Slot(Some("again"), Obj(b))],
                     b := [Slot(Some("driverPay"), Leaf("5.00"))]])
  }

  /** An object with a financial key that refers to itself. */
  function Cyclic(a: Addr): Graph {
    Graph(map[], map[a := [Slot(Some("driverPay"), Leaf("5.00")), Slot(Some("self"), Obj(a))]])
  }

  lemma NoArraysNoCycle(g: Graph, v: Value)
    requires WellFormed(g) && Held(g, v) && g.arrays == map[]
    ensures NoArrayCycle(g, v)
  {
    var objects := set a | a in g.objects :: Obj(a);
    assert Ranked(g, map w | w in objects :: 0, 0);
    RankedIff(g, v);
  }

  lemma PayIsMoney(g: Graph, a: Addr)
    requires a in g.objects && g.objects[a] != [] && g.objects[a][0].key == Some("driverPay")
    ensures HoldsMoney(g, Kept(Obj(a)))
  {
    assert Financial(SlotsOf(g, Obj(a))[0].key);
  }

  lemma EntryExposes(g: Graph, out: Out, i: nat, b: Addr)
    requires !out.Kept? && i < |out.items| && out.items[i].val == Kept(Obj(b)) && HoldsMoney(g, Kept(Obj(b)))
    ensures Exposes(g, out)
  {
    var p := [i];
    assert p[1..] == [];
    assert Walk(g, out.items[i].val, []) == Some(Kept(Obj(b)));
    assert ExposesAt(g, out, p);
  }

  /** One entry, under a key that stays, referring to an object met before. */
  lemma LastMeetsAgain(g: Graph, rank: map<Value, nat>, top: nat, slots: seq<Slot>, b: Addr, seen: set<Addr>)
    requires WellFormed(g) && Ranked(g, rank, top) && Obj(b) in rank && b in seen
    requires |slots| == 1 && slots[0].val == Obj(b) && !Financial(slots[0].key)
    ensures StripSlots(g, rank, top, slots, top, seen).0 == [Field(slots[0].key, Kept(Obj(b)))]
    ensures StripSlots(g, rank, top, slots, top, seen).1 == seen
  {
    assert slots[1..] == [];
    assert StripSpec(g, rank, top, slots[0].val, seen) == (Kept(Obj(b)), seen);
    assert StripSlots(g, rank, top, slots[1..], top, seen) == ([], seen);
  }

  lemma SharedFormed(a: Addr, b: Addr)
    requires a != b
    ensures var g := Shared(a, b);
            && WellFormed(g) && NoArrayCycle(g, Obj(a)) && a in g.objects && b in g.objects
            && |g.objects[a]| == 2 && g.objects[a][0].val == g.objects[a][1].val == Obj(b)
            && g.objects[a][0].key == Some("first") && g.objects[a][1].key == Some("again")
            && |g.objects[b]| == 1 && g.objects[b][0].key == Some("driverPay")
  {
    NoArraysNoCycle(Shared(a, b), Obj(a));
  }

  /** Reached by two keys, the object is stripped once and kept as it is the second time. */
  lemma SharedObjectIsKept(a: Addr, b: Addr)
    requires a != b
    ensures var g := Shared(a, b);
            && WellFormed(g) && NoArrayCycle(g, Obj(a)) && Held(g, Obj(a))
            && Stripped(g, Obj(a)) == NewObj(a, [Field(Some("first"), NewObj(b, [])),
                                             Field(Some("again"), Kept(Obj(b)))])
            && Exposes(g, Stripped(g, Obj(a)))
  {
    SharedFormed(a, b);
    KeptSecondTime(Shared(a, b), a, b);
  }

  lemma KeptSecondTime(g: Graph, a: Addr, b: Addr)
    requires WellFormed(g) && NoArrayCycle(g, Obj(a)) && a != b && a in g.objects && b in g.objects
    requires |g.objects[a]| == 2 && g.objects[a][0].val == g.objects[a][1].val == Obj(b)
    requires !Financial(g.objects[a][0].key) && !Financial(g.objects[a][1].key)
    requires |g.objects[b]| == 1 && g.objects[b][0].key == Some("driverPay")
    ensures Stripped(g, Obj(a)) ==
            NewObj(a, [Field(g.objects[a][0].key, NewObj(b, [])), Field(g.objects[a][1].key, Kept(Obj(b)))])
    ensures Exposes(g, Stripped(g, Obj(a)))
  {
    RankedIff(g, Obj(a));
    var rank, top :| Ranked(g, rank, top) && Known(rank, Obj(a));
    StrippedBySpec(g, rank, top, Obj(a));
    SharedResult(g, rank, top, a, b, g.objects[a]);
    PayIsMoney(g, b);
    EntryExposes(g, Stripped(g, Obj(a)), 1, b);
  }

  lemma SharedResult(g: Graph, rank: map<Value, nat>, top: nat, a: Addr, b: Addr, slots: seq<Slot>)
    requires WellFormed(g) && Ranked(g, rank, top) && a != b && Obj(a) in rank && b in g.objects
    requires g.objects[a] == slots && |slots| == 2 && slots[0].val == slots[1].val == Obj(b)
    requires !Financial(slots[0].key) && !Financial(slots[1].key)
    requires |g.objects[b]| == 1 && Financial(g.objects[b][0].key)
    ensures StripSpec(g, rank, top, Obj(a), {}).0 ==
            NewObj(a, [Field(slots[0].key, NewObj(b, [])), Field(slots[1].key, Kept(Obj(b)))])
  {
    var seen := {} + {a};
    assert g.objects[b][1..] == [];
    assert StripSlots(g, rank, top, g.objects[b][1..], top, seen + {b}) == ([], seen + {b});
    assert StripSlots(g, rank, top, g.objects[b], top, seen + {b}) == ([], seen + {b});
    assert StripSpec(g, rank, top, slots[0].val, seen) == (NewObj(b, []), seen + {b});
    LastMeetsAgain(g, rank, top, slots[1..], b, seen + {b});
    assert StripSlots(g, rank, top, slots, top, seen).0 ==
           [Field(slots[0].key, NewObj(b, []))] + StripSlots(g, rank, top, slots[1..], top, seen + {b}).0;
  }

  lemma CyclicResult(g: Graph, rank: map<Value, nat>, top: nat, a: Addr, slots: seq<Slot>)
    requires WellFormed(g) && Ranked(g, rank, top) && Obj(a) in rank && g.objects[a] == slots
    requires |slots| == 2 && Financial(slots[0].key) && !Financial(slots[1].key) && slots[1].val == Obj(a)
    ensures StripSpec(g, rank, top, Obj(a), {}).0 == NewObj(a, [Field(slots[1].key, Kept(Obj(a)))])
  {
    var seen := {} + {a};
    LastMeetsAgain(g, rank, top, slots[1..], a, seen);
    assert StripSlots(g, rank, top, slots, top, seen) == StripSlots(g, rank, top, slots[1..], top, seen);
  }

  lemma CyclicFormed(a: Addr)
    ensures var g := Cyclic(a);
            && WellFormed(g) && NoArrayCycle(g, Obj(a)) && a in g.objects && |g.objects[a]| == 2
            && g.objects[a][0].key == Some("driverPay") && g.objects[a][1] == Slot(Some("self"), Obj(a))
  {
    NoArraysNoCycle(Cyclic(a), Obj(a));
  }

  /** Referring to itself, the object comes back whole under its own copy. */
  lemma CyclicObjectIsKept(a: Addr)
    ensures var g := Cyclic(a);
            && WellFormed(g) && NoArrayCycle(g, Obj(a)) && Held(g, Obj(a))
            && Stripped(g, Obj(a)) == NewObj(a, [Field(Some("self"), Kept(Obj(a)))])
            && Exposes(g, Stripped(g, Obj(a)))
  {
    CyclicFormed(a);
    KeptUnderItself(Cyclic(a), a);
  }

  lemma KeptUnderItself(g: Graph, a: Addr)
    requires WellFormed(g) && NoArrayCycle(g, Obj(a)) && a in g.objects && |g.objects[a]| == 2
    requires g.objects[a][0].key == Some("driverPay")
    requires !Financial(g.objects[a][1].key) && g.objects[a][1].val == Obj(a)
    ensures Stripped(g, Obj(a)) == NewObj(a, [Field(g.objects[a][1].key, Kept(Obj(a)))])
    ensures Exposes(g, Stripped(g, Obj(a)))
  {
    RankedIff(g, Obj(a));
    var rank, top :| Ranked(g, rank, top) && Known(rank, Obj(a));
    StrippedBySpec(g, rank, top, Obj(a));
    CyclicResult(g, rank, top, a, g.objects[a]);
    PayIsMoney(g, a);
    EntryExposes(g, Stripped(g, Obj(a)), 0, a);
  }
}
