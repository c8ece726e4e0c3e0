/** Sums over the values of a finite map. */
module Sums {

  ghost function Sum(m: map<nat, nat>): nat
    decreases |m|
  {
    if m == map[] then 0
    else
      var k :| k in m;
      MapShrinks(m, k);
      m[k] + Sum(m - {k})
  }

  lemma MapShrinks<K, V>(m: map<K, V>, k: K)
    requires k in m
    ensures |m - {k}| < |m|
  {
    assert (m - {k}).Keys == m.Keys - {k};
  }

  /** Any entry may be taken out first. */
  lemma {:induction false} SumRemove(m: map<nat, nat>, k: nat)
    requires k in m
    ensures Sum(m) == m[k] + Sum(m - {k})
    decreases |m|
  {
    var j :| j in m && Sum(m) == m[j] + Sum(m - {j});
    if j != k {
      MapShrinks(m, j);
      MapShrinks(m, k);
      SumRemove(m - {j}, k);
      SumRemove(m - {k}, j);
      assert m - {k} - {j} == m - {j} - {k};
    }
  }
}
