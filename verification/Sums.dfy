/** Sums over the values of a dictionary, whatever order it is walked in. */
module Sums {
  ghost function SumValues<K>(m: map<K, nat>): nat {
    if m == map[] then 0
    else
      var k :| k in m;
      m[k] + SumValues(m - {k})
  }

  lemma {:induction false} SumRemove<K>(m: map<K, nat>, k: K)
    requires k in m
    ensures SumValues(m) == m[k] + SumValues(m - {k})
    decreases |m|
  {
    var j :| j in m && SumValues(m) == m[j] + SumValues(m - {j});
    if j != k {
      SumRemove(m - {j}, k);
      SumRemove(m - {k}, j);
      assert m - {j} - {k} == m - {k} - {j};
    }
  }

  lemma CountRemove<K>(m: map<K, nat>, k: K)
    requires k in m
    ensures |m| == |m - {k}| + 1
  {
  }

  /** Assigning a key replaces its old value, if it had one, by the new one. */
  lemma SumPut<K>(m: map<K, nat>, k: K, v: nat)
    ensures SumValues(m[k := v]) + (if k in m then m[k] else 0) == SumValues(m) + v
  {
    SumRemove(m[k := v], k);
    assert m[k := v] - {k} == m - {k};
    if k in m {
      SumRemove(m, k);
    } else {
      assert m - {k} == m;
    }
  }

  lemma {:induction false} SumSubmap<K>(small: map<K, nat>, big: map<K, nat>)
    requires forall k :: k in small ==> k in big && small[k] == big[k]
    ensures SumValues(small) <= SumValues(big)
    decreases |small|
  {
    if small != map[] {
      var k :| k in small && SumValues(small) == small[k] + SumValues(small - {k});
      SumRemove(big, k);
      SumSubmap(small - {k}, big - {k});
    }
  }

  ghost function SumReals<K>(m: map<K, real>): real {
    if m == map[] then 0.0
    else
      var k :| k in m;
      m[k] + SumReals(m - {k})
  }

  lemma {:induction false} SumRealsRemove<K>(m: map<K, real>, k: K)
    requires k in m
    ensures SumReals(m) == m[k] + SumReals(m - {k})
    decreases |m|
  {
    var j :| j in m && SumReals(m) == m[j] + SumReals(m - {j});
    if j != k {
      SumRealsRemove(m - {j}, k);
      SumRealsRemove(m - {k}, j);
      assert m - {j} - {k} == m - {k} - {j};
    }
  }

  lemma SumRealsPut<K>(m: map<K, real>, k: K, v: real)
    ensures SumReals(m[k := v]) + (if k in m then m[k] else 0.0) == SumReals(m) + v
  {
    SumRealsRemove(m[k := v], k);
    assert m[k := v] - {k} == m - {k};
    if k in m {
      SumRealsRemove(m, k);
    } else {
      assert m - {k} == m;
    }
  }
}
