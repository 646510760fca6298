/** Sums of a weight over the values of a finite map. */
module Sums {

  ghost function Total<K(!new), V>(m: map<K, V>, weight: V -> nat): nat
    decreases |m|
  {
    if m == map[] then 0
    else
      var k :| k in m;
      weight(m[k]) + Total(m - {k}, weight)
  }

  lemma {:induction false} TotalWithout<K(!new), V>(m: map<K, V>, weight: V -> nat, k: K)
    requires k in m
    ensures Total(m, weight) == weight(m[k]) + Total(m - {k}, weight)
    decreases |m|
  {
    var j :| j in m && Total(m, weight) == weight(m[j]) + Total(m - {j}, weight);
    if j != k {
      TotalWithout(m - {j}, weight, k);
      TotalWithout(m - {k}, weight, j);
      assert m - {j} - {k} == m - {k} - {j};
    }
  }

  /** Overwriting one key changes the sum by the difference of two weights. */
  lemma TotalUpdate<K(!new), V>(m: map<K, V>, weight: V -> nat, k: K, v: V)
    requires k in m
    ensures Total(m[k := v], weight) + weight(m[k]) == Total(m, weight) + weight(v)
  {
    TotalWithout(m, weight, k);
    TotalWithout(m[k := v], weight, k);
    assert m[k := v] - {k} == m - {k};
  }

  /** A new key adds its weight. */
  lemma TotalInsert<K(!new), V>(m: map<K, V>, weight: V -> nat, k: K, v: V)
    requires k !in m
    ensures Total(m[k := v], weight) == Total(m, weight) + weight(v)
  {
    TotalWithout(m[k := v], weight, k);
    assert m[k := v] - {k} == m;
  }

  lemma {:induction false} TotalZero<K(!new), V>(m: map<K, V>, weight: V -> nat)
    requires forall k :: k in m ==> weight(m[k]) == 0
    ensures Total(m, weight) == 0
    decreases |m|
  {
    if m != map[] {
      var k :| k in m;
      TotalWithout(m, weight, k);
      TotalZero(m - {k}, weight);
    }
  }
}
