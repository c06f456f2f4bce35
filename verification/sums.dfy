/** Sums over the rows of a table. */
module Sums {
  ghost function SumBy<K, V>(m: map<K, V>, f: V -> int): int
    decreases |m|
  {
    if m == map[] then 0 else var k :| k in m; f(m[k]) + SumBy(m - {k}, f)
  }

  lemma {:induction false} SumRemove<K, V>(m: map<K, V>, f: V -> int, k: K)
    requires k in m
    ensures SumBy(m, f) == f(m[k]) + SumBy(m - {k}, f)
    decreases |m|
  {
    var p :| p in m && SumBy(m, f) == f(m[p]) + SumBy(m - {p}, f);
    if p != k {
      SumRemove(m - {p}, f, k);
      SumRemove(m - {k}, f, p);
      assert m - {p} - {k} == m - {k} - {p};
    }
  }

  /** Writing one row changes the sum by that row's change. */
  lemma {:induction false} SumUpdate<K, V>(m: map<K, V>, f: V -> int, k: K, v: V)
    ensures SumBy(m[k := v], f) == SumBy(m, f) - (if k in m then f(m[k]) else 0) + f(v)
  {
    SumRemove(m[k := v], f, k);
    assert m[k := v] - {k} == m - {k};
    if k in m {
      SumRemove(m, f, k);
    } else {
      assert m - {k} == m;
    }
  }

  /** Where every row counts the same in `f` and `g`, the sums agree. */
  lemma {:induction false} SumSame<K, V>(m: map<K, V>, f: V -> int, g: V -> int)
    requires forall k :: k in m ==> f(m[k]) == g(m[k])
    ensures SumBy(m, f) == SumBy(m, g)
    decreases |m|
  {
    if m != map[] {
      var k :| k in m;
      SumRemove(m, f, k);
      SumRemove(m, g, k);
      SumSame(m - {k}, f, g);
    }
  }

  /** Two tables with the same keys whose rows count the same have the same sum. */
  lemma {:induction false} SumSameRows<K, V>(m: map<K, V>, n: map<K, V>, f: V -> int)
    requires m.Keys == n.Keys && forall k :: k in m ==> f(m[k]) == f(n[k])
    ensures SumBy(m, f) == SumBy(n, f)
    decreases |m|
  {
    if m == map[] {
      assert n == map[];
    } else {
      var k :| k in m;
      SumRemove(m, f, k);
      SumRemove(n, f, k);
      SumSameRows(m - {k}, n - {k}, f);
    }
  }

  /** Where every row's `h` is its `f` plus its `g`, so are the sums. */
  lemma {:induction false} SumSplit<K, V>(m: map<K, V>, h: V -> int, f: V -> int, g: V -> int)
    requires forall k :: k in m ==> h(m[k]) == f(m[k]) + g(m[k])
    ensures SumBy(m, h) == SumBy(m, f) + SumBy(m, g)
    decreases |m|
  {
    if m != map[] {
      var k :| k in m;
      SumRemove(m, h, k);
      SumRemove(m, f, k);
      SumRemove(m, g, k);
      SumSplit(m - {k}, h, f, g);
    }
  }

  lemma {:induction false} SumZero<K, V>(m: map<K, V>, f: V -> int)
    requires forall k :: k in m ==> f(m[k]) == 0
    ensures SumBy(m, f) == 0
    decreases |m|
  {
    if m != map[] {
      var k :| k in m;
      SumRemove(m, f, k);
      SumZero(m - {k}, f);
    }
  }

  /** Where `f` never exceeds `g`, the sums are equal only if every row is. */
  lemma {:induction false} SumBelow<K, V>(m: map<K, V>, f: V -> int, g: V -> int)
    requires forall k :: k in m ==> f(m[k]) <= g(m[k])
    ensures SumBy(m, f) <= SumBy(m, g)
    ensures SumBy(m, f) == SumBy(m, g) <==> forall k :: k in m ==> f(m[k]) == g(m[k])
    decreases |m|
  {
    if m != map[] {
      var k :| k in m;
      SumRemove(m, f, k);
      SumRemove(m, g, k);
      SumBelow(m - {k}, f, g);
      assert forall j :: j in m ==> j == k || j in m - {k};
      assert forall j :: j in m - {k} ==> (m - {k})[j] == m[j];
    }
  }
}
