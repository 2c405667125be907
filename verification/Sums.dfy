/** Sums over finite tables. */
module Sums {

  ghost function Sum<K>(m: map<K, int>): int
    decreases m.Keys
  {
    if m == map[] then 0
    else
      var k :| k in m;
      m[k] + Sum(m - {k})
  }

  /** The sum may be taken apart at any key. */
  lemma {:induction false} SumAt<K>(m: map<K, int>, k: K)
    requires k in m
    ensures Sum(m) == m[k] + Sum(m - {k})
    decreases m.Keys
  {
    var j :| j in m && Sum(m) == m[j] + Sum(m - {j});
    if j != k {
      SumAt(m - {j}, k);
      SumAt(m - {k}, j);
      assert m - {j} - {k} == m - {k} - {j};
    }
  }

  lemma SumPut<K>(m: map<K, int>, k: K, v: int)
    ensures Sum(m[k := v]) == v + Sum(m - {k})
    ensures k !in m ==> Sum(m[k := v]) == v + Sum(m)
    ensures k in m ==> Sum(m[k := v]) == Sum(m) - m[k] + v
  {
    SumAt(m[k := v], k);
    assert m[k := v] - {k} == m - {k};
    if k in m {
      SumAt(m, k);
    } else {
      assert m - {k} == m;
    }
  }

  /** Removing rows lowers the sum by exactly what they held. */
  lemma {:induction false} SumSplit<K>(m: map<K, int>, gone: set<K>)
    ensures Sum(m) == Sum(m - gone) + Sum(map k | k in m && k in gone :: m[k])
    decreases m.Keys
  {
    var out := map k | k in m && k in gone :: m[k];
    if k :| k in m && k in gone {
      SumAt(m, k);
      SumSplit(m - {k}, gone);
      SumAt(out, k);
      assert (m - {k}) - gone == m - gone;
      assert out - {k} == map j | j in m - {k} && j in gone :: (m - {k})[j];
    } else {
      assert m - gone == m;
      assert out == map[];
    }
  }

  lemma {:induction false} SumNonNegative<K>(m: map<K, int>)
    requires forall k :: k in m ==> m[k] >= 0
    ensures Sum(m) >= 0
    decreases m.Keys
  {
    if m != map[] {
      var k :| k in m && Sum(m) == m[k] + Sum(m - {k});
      SumNonNegative(m - {k});
    }
  }
}
