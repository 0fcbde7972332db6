/** Finite sums over tables. `MapSum` adds the values of a map; `Filed` is the part
    of a map filed under one label. Both are first-order, so equal arguments give
    equal sums by extensionality. */
module Sums {

  ghost function MapSum<K>(m: map<K, int>): int
    decreases |m|
  {
    if m == map[] then 0
    else
      var k :| k in m;
      m[k] + MapSum(m - {k})
  }

  lemma MapSumRemove<K>(m: map<K, int>, k: K)
    requires k in m
    ensures MapSum(m) == m[k] + MapSum(m - {k})
    decreases |m|
  {
    var j :| j in m && MapSum(m) == m[j] + MapSum(m - {j});
    if j != k {
      MapSumRemove(m - {j}, k);
      MapSumRemove(m - {k}, j);
      assert m - {j} - {k} == m - {k} - {j};
    }
  }

  lemma MapSumInsert<K>(m: map<K, int>, k: K, v: int)
    requires k !in m
    ensures MapSum(m[k := v]) == MapSum(m) + v
  {
    MapSumRemove(m[k := v], k);
    assert m[k := v] - {k} == m;
  }

  lemma MapSumUpdate<K>(m: map<K, int>, k: K, v: int)
    requires k in m
    ensures MapSum(m[k := v]) == MapSum(m) - m[k] + v
  {
    MapSumRemove(m, k);
    MapSumRemove(m[k := v], k);
    assert m[k := v] - {k} == m - {k};
  }

  /** Splitting a map by key splits its sum. */
  lemma {:induction false} MapSumSplit<K>(whole: map<K, int>, a: map<K, int>, b: map<K, int>)
    requires forall k :: k in whole <==> k in a || k in b
    requires forall k :: k in a ==> k !in b && whole[k] == a[k]
    requires forall k :: k in b ==> whole[k] == b[k]
    ensures MapSum(whole) == MapSum(a) + MapSum(b)
    decreases |b|
  {
    if b == map[] {
      assert whole == a;
    } else {
      var k :| k in b;
      MapSumRemove(whole, k);
      MapSumRemove(b, k);
      MapSumSplit(whole - {k}, a, b - {k});
    }
  }

  /** Pointwise addition over the same keys. */
  lemma {:induction false} MapSumAdd<K>(a: map<K, int>, b: map<K, int>, c: map<K, int>)
    requires a.Keys == b.Keys == c.Keys
    requires forall k :: k in c ==> c[k] == a[k] + b[k]
    ensures MapSum(c) == MapSum(a) + MapSum(b)
    decreases |c|
  {
    if c == map[] {
      assert a == map[] && b == map[];
    } else {
      var k :| k in c;
      MapSumRemove(a, k);
      MapSumRemove(b, k);
      MapSumRemove(c, k);
      MapSumAdd(a - {k}, b - {k}, c - {k});
    }
  }

  lemma {:induction false} MapSumZero<K>(m: map<K, int>)
    requires forall k :: k in m ==> m[k] == 0
    ensures MapSum(m) == 0
    decreases |m|
  {
    if m == map[] {
    } else {
      var k :| k in m;
      MapSumRemove(m, k);
      MapSumZero(m - {k});
    }
  }

  /** A sum is unchanged when its keys are renamed one-to-one. */
  lemma {:induction false} MapSumRename<J, K>(a: map<J, int>, b: map<K, int>, to: map<J, K>)
    requires to.Keys == a.Keys
    requires forall j, j' :: j in to && j' in to && to[j] == to[j'] ==> j == j'
    requires forall j :: j in a ==> to[j] in b && b[to[j]] == a[j]
    requires forall k :: k in b ==> exists j :: j in to && to[j] == k
    ensures MapSum(a) == MapSum(b)
    decreases |a|
  {
    if a == map[] {
      if k :| k in b {
        assert false;
      }
      assert b == map[];
    } else {
      var j :| j in a;
      MapSumRemove(a, j);
      MapSumRemove(b, to[j]);
      var to' := to - {j};
      forall k | k in b - {to[j]}
        ensures exists i :: i in to' && to'[i] == k
      {
        var i :| i in to && to[i] == k;
        assert i in to';
      }
      MapSumRename(a - {j}, b - {to[j]}, to');
    }
  }

  lemma {:induction false} MapSumNegate<K>(a: map<K, int>, b: map<K, int>)
    requires a.Keys == b.Keys
    requires forall k :: k in a ==> b[k] == -a[k]
    ensures MapSum(b) == -MapSum(a)
    decreases |a|
  {
    if a == map[] {
    } else {
      var k :| k in a;
      MapSumRemove(a, k);
      MapSumRemove(b, k);
      MapSumNegate(a - {k}, b - {k});
    }
  }

  /** The part of `m` filed under filedAs `j`. */
  function Filed<J(==), K>(m: map<K, int>, filedAs: map<K, J>, j: J): map<K, int>
    requires m.Keys <= filedAs.Keys
  {
    map k | k in m && filedAs[k] == j :: m[k]
  }

  /** One more row changes the file it goes to, and no other. */
  lemma FiledInsert<J, K>(m: map<K, int>, filedAs: map<K, J>, k: K, v: int, under: J, j: J)
    requires m.Keys <= filedAs.Keys && k !in m
    ensures MapSum(Filed(m[k := v], filedAs[k := under], j)) ==
            MapSum(Filed(m, filedAs, j)) + if under == j then v else 0
  {
    var file := Filed(m, filedAs, j);
    if under == j {
      MapSumInsert(file, k, v);
      assert Filed(m[k := v], filedAs[k := under], j) == file[k := v];
    } else {
      assert Filed(m[k := v], filedAs[k := under], j) == file;
    }
  }

  /** Filing rows under labels and adding up the files gives the sum of the rows. */
  lemma {:induction false} FilingConserves<J, K>(m: map<K, int>, filedAs: map<K, J>, cells: map<J, int>)
    requires m.Keys <= filedAs.Keys
    requires forall k :: k in m ==> filedAs[k] in cells
    requires forall j :: j in cells ==> cells[j] == MapSum(Filed(m, filedAs, j))
    ensures MapSum(cells) == MapSum(m)
    decreases |m|
  {
    if m == map[] {
      forall j | j in cells
        ensures cells[j] == 0
      {
        assert Filed(m, filedAs, j) == map[];
      }
      MapSumZero(cells);
    } else {
      var k :| k in m;
      var m', j := m - {k}, filedAs[k];
      var cells' := cells[j := cells[j] - m[k]];
      forall i | i in cells'
        ensures cells'[i] == MapSum(Filed(m', filedAs, i))
      {
        if i == j {
          MapSumRemove(Filed(m, filedAs, j), k);
          assert Filed(m, filedAs, j) - {k} == Filed(m', filedAs, j);
        } else {
          assert Filed(m, filedAs, i) == Filed(m', filedAs, i);
        }
      }
      FilingConserves(m', filedAs, cells');
      MapSumUpdate(cells, j, cells[j] - m[k]);
      MapSumRemove(m, k);
    }
  }

  /** Adds the values of a map in any order. */
  method SumValues<K>(m: map<K, int>) returns (sum: int)
    ensures sum == MapSum(m)
  {
    sum := 0;
    var rest := m;
    while rest != map[]
      invariant sum + MapSum(rest) == MapSum(m)
      decreases |rest|
    {
      var k :| k in rest;
      MapSumRemove(rest, k);
      sum := sum + rest[k];
      rest := rest - {k};
    }
  }
}
