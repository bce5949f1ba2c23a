/** The sum of a map's values. */
module Sums {

  ghost function Sum<K>(m: map<K, int>): int {
    if m == map[] then 0 else
      var k :| k in m;
      m[k] + Sum(m - {k})
  }

  lemma {:induction false} SumWithout<K>(m: map<K, int>, k: K)
    requires k in m
    ensures Sum(m) == m[k] + Sum(m - {k})
    decreases |m|
  {
    var first :| first in m && Sum(m) == m[first] + Sum(m - {first});
    if first != k {
      SumWithout(m - {first}, k);
      SumWithout(m - {k}, first);
      assert m - {first} - {k} == m - {k} - {first};
    }
  }

  /** Setting one value moves the sum by the difference. */
  lemma SumUpdate<K>(m: map<K, int>, k: K, v: int)
    ensures Sum(m[k := v]) == Sum(m) - (if k in m then m[k] else 0) + v
  {
    SumWithout(m[k := v], k);
    if k in m {
      SumWithout(m, k);
      assert m[k := v] - {k} == m - {k};
    } else {
      assert m[k := v] - {k} == m;
    }
  }

  lemma SumRemove<K>(m: map<K, int>, k: K)
    requires k in m
    ensures Sum(m - {k}) == Sum(m) - m[k]
  {
    SumWithout(m, k);
  }
}
