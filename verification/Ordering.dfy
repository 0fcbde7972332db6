/** Sorted listings of maps, as the reports build them from `[...map.entries()]` and
    `sort`, and how far sorting determines a listing. */
module Ordering {

  ghost predicate TotalPreorder<T(!new)>(le: (T, T) -> bool) {
    && (forall x, y :: le(x, y) || le(y, x))
    && (forall x, y, z :: le(x, y) && le(y, z) ==> le(x, z))
  }

  ghost predicate SortedBy<T>(xs: seq<T>, le: (T, T) -> bool) {
    forall i, j :: 0 <= i < j < |xs| ==> le(xs[i], xs[j])
  }

  /** Puts `x` behind every element that may precede it. */
  method InsertSorted<T(!new)>(xs: seq<T>, x: T, le: (T, T) -> bool) returns (ys: seq<T>)
    requires TotalPreorder(le) && SortedBy(xs, le)
    ensures SortedBy(ys, le) && multiset(ys) == multiset(xs) + multiset{x}
  {
    var n: nat := |xs|;
    while n > 0 && !le(xs[n - 1], x)
      invariant 0 <= n <= |xs|
      invariant forall i :: n <= i < |xs| ==> le(x, xs[i])
    {
      n := n - 1;
    }
    ys := xs[..n] + [x] + xs[n..];
    assert xs == xs[..n] + xs[n..];
    PlacedSorted(xs, x, n, le);
  }

  lemma PlacedSorted<T(!new)>(xs: seq<T>, x: T, n: nat, le: (T, T) -> bool)
    requires TotalPreorder(le) && SortedBy(xs, le) && n <= |xs|
    requires n > 0 ==> le(xs[n - 1], x)
    requires forall i :: n <= i < |xs| ==> le(x, xs[i])
    ensures SortedBy(xs[..n] + [x] + xs[n..], le)
  {
    var ys := xs[..n] + [x] + xs[n..];
    forall i, j | 0 <= i < j < |ys|
      ensures le(ys[i], ys[j])
    {
      assert i < n ==> ys[i] == xs[i];
      assert i > n ==> ys[i] == xs[i - 1];
      assert j < n ==> ys[j] == xs[j];
      assert j > n ==> ys[j] == xs[j - 1];
      assert i < n - 1 ==> le(xs[i], xs[n - 1]);
    }
  }

  /** A sorted rearrangement of `xs`. */
  method Sort<T(!new)>(xs: seq<T>, le: (T, T) -> bool) returns (ys: seq<T>)
    requires TotalPreorder(le)
    ensures SortedBy(ys, le) && multiset(ys) == multiset(xs)
  {
    ys := [];
    for n := 0 to |xs|
      invariant SortedBy(ys, le) && multiset(ys) == multiset(xs[..n])
    {
      assert xs[..n + 1] == xs[..n] + [xs[n]];
      ys := InsertSorted(ys, xs[n], le);
    }
    assert xs[..|xs|] == xs;
  }

  ghost predicate NoDuplicates<T>(xs: seq<T>) {
    forall i, j :: 0 <= i < j < |xs| ==> xs[i] != xs[j]
  }

  /** `rows` lists the values of `cells`, one per key. */
  ghost predicate Lists<K, R(!new)>(rows: seq<R>, cells: map<K, R>) {
    && (forall r :: r in rows <==> r in cells.Values)
    && NoDuplicates(rows)
  }

  /** Different keys hold different rows (a row names its key). */
  ghost predicate Injective<K, R>(cells: map<K, R>) {
    forall k, k' :: k in cells && k' in cells && cells[k] == cells[k'] ==> k == k'
  }

  /** The values of a map with their keys dropped, sorted: what every report returns. */
  method Listing<K, R(!new)>(cells: map<K, R>, le: (R, R) -> bool) returns (rows: seq<R>)
    requires TotalPreorder(le) && Injective(cells)
    ensures Lists(rows, cells) && SortedBy(rows, le)
  {
    var unsorted: seq<R> := [];
    var rest := cells.Keys;
    while rest != {}
      invariant rest <= cells.Keys
      invariant forall i :: 0 <= i < |unsorted| ==> exists k :: k in cells && k !in rest && unsorted[i] == cells[k]
      invariant forall k :: k in cells && k !in rest ==> cells[k] in unsorted
      invariant NoDuplicates(unsorted)
      decreases rest
    {
      var k :| k in rest;
      unsorted := unsorted + [cells[k]];
      rest := rest - {k};
    }
    rows := Sort(unsorted, le);
    NoDuplicatesKept(unsorted, rows);
    assert forall r :: r in rows <==> r in multiset(rows);
    assert forall r :: r in unsorted <==> r in multiset(unsorted);
  }

  lemma NoDuplicatesKept<T>(a: seq<T>, b: seq<T>)
    requires multiset(a) == multiset(b) && NoDuplicates(a)
    ensures NoDuplicates(b)
  {
    forall i, j | 0 <= i < j < |b|
      ensures b[i] != b[j]
    {
      CountDistinct(a, b[i]);
      assert b == b[..i] + [b[i]] + b[i + 1..j] + [b[j]] + b[j + 1..];
      assert b[i] == b[j] ==> multiset(b)[b[i]] >= 2;
    }
  }

  /** Two listings of the same cells are rearrangements of each other. */
  lemma ListingsAgree<K, R(!new)>(a: seq<R>, b: seq<R>, cells: map<K, R>)
    requires Lists(a, cells) && Lists(b, cells)
    ensures multiset(a) == multiset(b)
  {
    SameElements(a, b);
  }

  /** Duplicate-free lists of the same elements are rearrangements of each other. */
  lemma SameElements<T(!new)>(a: seq<T>, b: seq<T>)
    requires forall x :: x in a <==> x in b
    requires forall i, j :: 0 <= i < j < |a| ==> a[i] != a[j]
    requires forall i, j :: 0 <= i < j < |b| ==> b[i] != b[j]
    ensures multiset(a) == multiset(b)
  {
    forall x
      ensures multiset(a)[x] == multiset(b)[x]
    {
      CountDistinct(a, x);
      CountDistinct(b, x);
    }
  }

  lemma {:induction false} CountDistinct<T>(a: seq<T>, x: T)
    requires forall i, j :: 0 <= i < j < |a| ==> a[i] != a[j]
    ensures multiset(a)[x] == if x in a then 1 else 0
  {
    if a == [] {
    } else {
      var n := |a| - 1;
      assert a == a[..n] + [a[n]];
      CountDistinct(a[..n], x);
    }
  }

  // ----- two sorted rearrangements agree up to ties -----

  /** How many elements come no later than `x`. */
  function CountLe<T>(a: seq<T>, x: T, le: (T, T) -> bool): nat {
    if a == [] then 0 else CountLe(a[..|a| - 1], x, le) + if le(a[|a| - 1], x) then 1 else 0
  }

  lemma {:induction false} CountLeConcat<T>(a: seq<T>, b: seq<T>, x: T, le: (T, T) -> bool)
    ensures CountLe(a + b, x, le) == CountLe(a, x, le) + CountLe(b, x, le)
  {
    if b == [] {
      assert a + b == a;
    } else {
      CountLeConcat(a, b[..|b| - 1], x, le);
      assert (a + b)[..|a + b| - 1] == a + b[..|b| - 1];
    }
  }

  lemma {:induction false} CountLePermutation<T>(a: seq<T>, b: seq<T>, x: T, le: (T, T) -> bool)
    requires multiset(a) == multiset(b)
    ensures CountLe(a, x, le) == CountLe(b, x, le)
    decreases |a|
  {
    if a == [] {
      assert |multiset(b)| == 0;
    } else {
      var n := |a| - 1;
      assert a == a[..n] + [a[n]];
      assert a[n] in multiset(b);
      var i :| 0 <= i < |b| && b[i] == a[n];
      assert b == b[..i] + [b[i]] + b[i + 1..];
      assert multiset(b[..i] + b[i + 1..]) == multiset(b) - multiset{b[i]};
      assert multiset(a[..n]) == multiset(a) - multiset{a[n]};
      CountLePermutation(a[..n], b[..i] + b[i + 1..], x, le);
      CountLeConcat(b[..i], b[i + 1..], x, le);
      CountLeConcat(b[..i] + [b[i]], b[i + 1..], x, le);
      CountLeConcat(b[..i], [b[i]], x, le);
    }
  }

  lemma {:induction false} CountLeBounds<T>(a: seq<T>, x: T, le: (T, T) -> bool, lo: nat, hi: nat)
    requires lo <= hi <= |a|
    requires forall i :: 0 <= i < lo ==> le(a[i], x)
    requires forall i :: hi <= i < |a| ==> !le(a[i], x)
    ensures lo <= CountLe(a, x, le) <= hi
  {
    if a == [] {
    } else {
      var n := |a| - 1;
      CountLeBounds(a[..n], x, le, if lo <= n then lo else n, if hi <= n then hi else n);
    }
  }

  /** Sorting the same rows twice puts tied elements, and only those, in each place. */
  lemma SortedAgree<T(!new)>(a: seq<T>, b: seq<T>, le: (T, T) -> bool, i: nat)
    requires TotalPreorder(le) && SortedBy(a, le) && SortedBy(b, le)
    requires multiset(a) == multiset(b) && i < |a|
    ensures |a| == |b| && le(a[i], b[i]) && le(b[i], a[i])
  {
    assert |multiset(a)| == |a| && |multiset(b)| == |b|;
    NotBefore(a, b, le, i);
    NotBefore(b, a, le, i);
  }

  lemma NotBefore<T(!new)>(a: seq<T>, b: seq<T>, le: (T, T) -> bool, i: nat)
    requires TotalPreorder(le) && SortedBy(a, le) && SortedBy(b, le)
    requires multiset(a) == multiset(b) && i < |a| == |b|
    ensures le(a[i], b[i])
  {
    if !le(a[i], b[i]) {
      CountLePermutation(a, b, b[i], le);
      CountLeBounds(a, b[i], le, 0, i);
      CountLeBounds(b, b[i], le, i + 1, |b|);
    }
  }
}
