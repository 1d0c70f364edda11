/** Sums over finite maps, and how they change when one entry is added or removed. */
module MapSums {
  ghost function Pick<T>(s: set<T>): (x: T)
    requires s != {}
    ensures x in s
  {
    var x :| x in s;
    x
  }

  /** The sum of `weight` over the values of a map. */
  ghost function Sum<K, V>(m: map<K, V>, weight: V -> nat): nat
    decreases |m|
  {
    if m.Keys == {} then 0
    else
      var k := Pick(m.Keys);
      weight(m[k]) + Sum(m - {k}, weight)
  }

  lemma DropTwice<K, V>(m: map<K, V>, j: K, k: K)
    ensures m - {j} - {k} == m - {k} - {j}
  {
  }

  lemma {:induction false} SumDrop<K, V>(m: map<K, V>, weight: V -> nat, k: K)
    requires k in m
    ensures Sum(m, weight) == weight(m[k]) + Sum(m - {k}, weight)
    decreases |m|
  {
    var j := Pick(m.Keys);
    if j != k {
      SumDrop(m - {j}, weight, k);
      SumDrop(m - {k}, weight, j);
      DropTwice(m, j, k);
    }
  }

  lemma SumPut<K, V>(m: map<K, V>, weight: V -> nat, k: K, v: V)
    requires k !in m
    ensures Sum(m[k := v], weight) == Sum(m, weight) + weight(v)
  {
    SumDrop(m[k := v], weight, k);
    assert m[k := v] - {k} == m;
  }

  lemma SumUpdate<K, V>(m: map<K, V>, weight: V -> nat, k: K, v: V)
    requires k in m
    ensures Sum(m[k := v], weight) == Sum(m, weight) - weight(m[k]) + weight(v)
  {
    SumDrop(m, weight, k);
    SumPut(m - {k}, weight, k, v);
    assert (m - {k})[k := v] == m[k := v];
  }
}
