/** The sum of the values of a map, and how it follows single updates. */
module Totals {
  ghost function Total<K>(m: map<K, int>): int
    decreases |m|
  {
    if m == map[] then 0
    else
      var k :| k in m;
      m[k] + Total(m - {k})
  }

  lemma {:induction false} TotalRemove<K>(m: map<K, int>, k: K)
    requires k in m
    ensures Total(m) == m[k] + Total(m - {k})
    decreases |m|
  {
    var first :| first in m && Total(m) == m[first] + Total(m - {first});
    if first != k {
      var both := m - {first} - {k};
      calc {
        Total(m);
        m[first] + Total(m - {first});
        { TotalRemove(m - {first}, k); }
        m[first] + m[k] + Total(both);
        { assert both == m - {k} - {first}; TotalRemove(m - {k}, first); }
        m[k] + Total(m - {k});
      }
    }
  }

  lemma TotalUpdate<K>(m: map<K, int>, k: K, v: int)
    ensures Total(m[k := v]) == Total(m) + v - (if k in m then m[k] else 0)
  {
    var updated := m[k := v];
    TotalRemove(updated, k);
    assert updated - {k} == m - {k};
    if k in m {
      TotalRemove(m, k);
    } else {
      assert m - {k} == m;
    }
  }

  lemma {:induction false} TotalNonNegative<K>(m: map<K, int>)
    requires forall k :: k in m ==> m[k] >= 0
    ensures Total(m) >= 0
    decreases |m|
  {
    if m != map[] {
      var k :| k in m;
      TotalNonNegative(m - {k});
      TotalRemove(m, k);
    }
  }
}
