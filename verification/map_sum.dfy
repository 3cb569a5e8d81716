/**
 * The sum of a valuation over the values of a finite map, for stating that
 * the counters of an index add up to the number of records counted.
 */
module MapSum {

  /** The sum of `f` over the values of `m`. */
  ghost function Sum<K(!new), V>(m: map<K, V>, f: V -> int): int
    decreases |m|
  {
    if |m| == 0 then 0
    else
      var k :| k in m;
      f(m[k]) + Sum(m - {k}, f)
  }

  /** The key the definition of `Sum` splits at. */
  lemma Pick<K(!new), V>(m: map<K, V>, f: V -> int) returns (j: K)
    requires |m| > 0
    ensures j in m && Sum(m, f) == f(m[j]) + Sum(m - {j}, f)
  {
    j :| j in m && Sum(m, f) == f(m[j]) + Sum(m - {j}, f);
  }

  /** The sum can be split at any key, not only at the one its definition picks. */
  lemma {:induction false} SumRemove<K(!new), V>(m: map<K, V>, f: V -> int, k: K)
    requires k in m
    ensures Sum(m, f) == f(m[k]) + Sum(m - {k}, f)
    decreases |m|
  {
    var j := Pick(m, f);
    if j != k {
      var mj, mk := m - {j}, m - {k};
      assert k in mj && mj[k] == m[k];
      assert j in mk && mk[j] == m[j];
      var rest := mj - {k};
      assert rest == mk - {j};
      SumRemove(mj, f, k);
      SumRemove(mk, f, j);
      assert Sum(mj, f) == f(m[k]) + Sum(rest, f);
      assert Sum(mk, f) == f(m[j]) + Sum(rest, f);
    }
  }

  /** Writing `v` under `k` changes the sum by `f(v)` less what `k` held before. */
  lemma SumUpdate<K(!new), V>(m: map<K, V>, f: V -> int, k: K, v: V)
    ensures Sum(m[k := v], f) == Sum(m, f) - (if k in m then f(m[k]) else 0) + f(v)
  {
    SumRemove(m[k := v], f, k);
    assert m[k := v] - {k} == m - {k};
    if k in m {
      SumRemove(m, f, k);
    } else {
      assert m - {k} == m;
    }
  }

  /** A map whose every value is worth nothing sums to zero. */
  lemma {:induction false} SumZero<K(!new), V>(m: map<K, V>, f: V -> int)
    requires forall k :: k in m ==> f(m[k]) == 0
    ensures Sum(m, f) == 0
    decreases |m|
  {
    if |m| > 0 {
      var j := Pick(m, f);
      SumZero(m - {j}, f);
    }
  }
}
