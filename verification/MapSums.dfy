/** Sums over the values of a dictionary, independent of iteration order. */
module MapSums {

  ghost function Pick<K, V>(m: map<K, V>): (k: K)
    requires m != map[]
    ensures k in m
  {
    assert m.Keys != {};
    var k :| k in m;
    k
  }

  ghost function Sum<K, V>(m: map<K, V>, f: V -> real): real
    decreases |m|
  {
    if m == map[] then 0.0 else
    var k := Pick(m);
    assert |(m - {k}).Keys| == |m.Keys - {k}| < |m.Keys|;
    f(m[k]) + Sum(m - {k}, f)
  }

  lemma {:induction false} SumRemove<K, V>(m: map<K, V>, k: K, f: V -> real)
    requires k in m
    ensures Sum(m, f) == f(m[k]) + Sum(m - {k}, f)
    decreases |m|
  {
    var p := Pick(m);
    if p != k {
      assert |(m - {p}).Keys| == |m.Keys - {p}| < |m.Keys|;
      assert |(m - {k}).Keys| == |m.Keys - {k}| < |m.Keys|;
      SumRemove(m - {p}, k, f);
      SumRemove(m - {k}, p, f);
      assert m - {p} - {k} == m - {k} - {p};
    }
  }

  lemma SumInsert<K, V>(m: map<K, V>, k: K, v: V, f: V -> real)
    ensures Sum(m[k := v], f) == f(v) + Sum(m - {k}, f)
    ensures k !in m ==> Sum(m[k := v], f) == f(v) + Sum(m, f)
    ensures k in m ==> Sum(m[k := v], f) == f(v) - f(m[k]) + Sum(m, f)
  {
    SumRemove(m[k := v], k, f);
    assert m[k := v] - {k} == m - {k};
    if k in m {
      SumRemove(m, k, f);
    } else {
      assert m - {k} == m;
    }
  }

  /** The loop behind Python's sum(... for x in d.values()). */
  method SumValues<K(==), V>(m: map<K, V>, f: V -> real) returns (total: real)
    ensures total == Sum(m, f)
  {
    total := 0.0;
    var rest := m;
    while rest != map[]
      invariant total + Sum(rest, f) == Sum(m, f)
      decreases |rest|
    {
      assert rest.Keys != {};
      var k :| k in rest;
      SumRemove(rest, k, f);
      assert |(rest - {k}).Keys| == |rest.Keys - {k}| < |rest.Keys|;
      total := total + f(rest[k]);
      rest := rest - {k};
    }
  }
}
