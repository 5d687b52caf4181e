/** Sums over finite maps, the shape of every ledger in these programs. */
module Sums {

  /** The sum of `f` over the entries of `m`. */
  ghost function Sum<K(!new), V(!new)>(m: map<K, V>, f: (K, V) -> nat): nat {
    if m == map[] then 0
    else
      var k :| k in m;
      f(k, m[k]) + Sum(m - {k}, f)
  }

  /** The entry of `k`, or nothing. */
  ghost function At<K, V>(m: map<K, V>, k: K, f: (K, V) -> nat): nat {
    if k in m then f(k, m[k]) else 0
  }

  lemma {:induction false} SumRemove<K(!new), V(!new)>(m: map<K, V>, k: K, f: (K, V) -> nat)
    ensures Sum(m, f) == At(m, k, f) + Sum(m - {k}, f)
    decreases |m|
  {
    if k !in m {
      assert m - {k} == m;
    } else {
      var j :| j in m && Sum(m, f) == f(j, m[j]) + Sum(m - {j}, f);
      if j != k {
        SumRemove(m - {j}, k, f);
        SumRemove(m - {k}, j, f);
        assert m - {j} - {k} == m - {k} - {j};
      }
    }
  }

  lemma SumUpdate<K(!new), V(!new)>(m: map<K, V>, k: K, v: V, f: (K, V) -> nat)
    ensures Sum(m[k := v], f) + At(m, k, f) == Sum(m, f) + f(k, v)
  {
    SumRemove(m[k := v], k, f);
    SumRemove(m, k, f);
    assert m[k := v] - {k} == m - {k};
  }

  lemma SumAtLeast<K(!new), V(!new)>(m: map<K, V>, k: K, f: (K, V) -> nat)
    ensures At(m, k, f) <= Sum(m, f)
  {
    SumRemove(m, k, f);
  }

  /** Two different entries together are no more than the sum. */
  lemma SumAtLeastTwo<K(!new), V(!new)>(m: map<K, V>, j: K, k: K, f: (K, V) -> nat)
    requires j != k
    ensures At(m, j, f) + At(m, k, f) <= Sum(m, f)
  {
    SumRemove(m, j, f);
    SumRemove(m - {j}, k, f);
  }

  /** Functions that agree on the entries of `m` have the same sum. */
  lemma {:induction false} SumCongruence<K(!new), V(!new)>(m: map<K, V>, f: (K, V) -> nat, g: (K, V) -> nat)
    requires forall k :: k in m ==> f(k, m[k]) == g(k, m[k])
    ensures Sum(m, f) == Sum(m, g)
    decreases |m|
  {
    if m != map[] {
      var k :| k in m;
      SumRemove(m, k, f);
      SumRemove(m, k, g);
      SumCongruence(m - {k}, f, g);
    }
  }

  lemma {:induction false} SumZero<K(!new), V(!new)>(m: map<K, V>, f: (K, V) -> nat)
    requires forall k :: k in m ==> f(k, m[k]) == 0
    ensures Sum(m, f) == 0
    decreases |m|
  {
    if m != map[] {
      var k :| k in m;
      SumRemove(m, k, f);
      SumZero(m - {k}, f);
    }
  }

  /** Counts one for every entry. */
  ghost function One<K, V>(): (K, V) -> nat {
    (k: K, v: V) => 1
  }

  /** The number of entries of `m`, as a sum. */
  ghost function Size<K(!new), V(!new)>(m: map<K, V>): nat {
    Sum(m, One<K, V>())
  }

  lemma {:induction false} SizeIsCardinality<K(!new), V(!new)>(m: map<K, V>)
    ensures Size(m) == |m|
    decreases |m|
  {
    if m != map[] {
      var k :| k in m;
      SumRemove(m, k, One<K, V>());
      SizeIsCardinality(m - {k});
      assert (m - {k}).Keys == m.Keys - {k} && |m.Keys| == |m|;
      assert |(m - {k}).Keys| == |m - {k}|;
    }
  }

  lemma SizeRemove<K(!new), V(!new)>(m: map<K, V>, k: K)
    requires k in m
    ensures Size(m) == Size(m - {k}) + 1
  {
    SumRemove(m, k, One<K, V>());
  }

  lemma SizeUpdate<K(!new), V(!new)>(m: map<K, V>, k: K, v: V)
    ensures Size(m[k := v]) == if k in m then Size(m) else Size(m) + 1
  {
    SumUpdate(m, k, v, One<K, V>());
  }
}
