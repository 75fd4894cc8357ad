/** Sums over the values of a map: Python's `sum(... for ... in d.values())`. */
module Sums {
  import opened Arithmetic

  ghost function Pick<K>(keys: set<K>): (k: K)
    requires keys != {}
    ensures k in keys
  {
    var k :| k in keys; k
  }

  ghost function Total<K>(m: map<K, real>): real
    decreases |m|
  {
    if m == map[] then 0.0 else
      var k := Pick(m.Keys);
      assert |m - {k}| < |m| by { Shrinks(m, k); }
      m[k] + Total(m - {k})
  }

  lemma Shrinks<K, V>(m: map<K, V>, k: K)
    requires k in m
    ensures |m - {k}| == |m| - 1
  {
    assert (m - {k}).Keys == m.Keys - {k};
    assert |(m - {k}).Keys| == |m - {k}|;
    assert |m.Keys| == |m|;
  }

  /** The sum does not depend on the order in which the entries are visited. */
  lemma {:induction false} TotalRemove<K>(m: map<K, real>, k: K)
    requires k in m
    ensures Total(m) == m[k] + Total(m - {k})
    decreases |m|
  {
    var p := Pick(m.Keys);
    if k != p {
      Shrinks(m, p);
      Shrinks(m, k);
      TotalRemove(m - {p}, k);
      TotalRemove(m - {k}, p);
      assert m - {p} - {k} == m - {k} - {p};
    }
  }

  lemma TotalInsert<K>(m: map<K, real>, k: K, v: real)
    requires k !in m
    ensures Total(m[k := v]) == Total(m) + v
  {
    TotalRemove(m[k := v], k);
    assert m[k := v] - {k} == m;
  }

  lemma OneMoreTimes(n: real, bound: real)
    ensures Times(n + 1.0, bound) == Times(n, bound) + bound
  {
  }

  lemma {:induction false} TotalAtMost<K>(m: map<K, real>, bound: real)
    requires forall k :: k in m ==> m[k] <= bound
    ensures Total(m) <= Times(|m| as real, bound)
    decreases |m|
  {
    if m != map[] {
      var k := Pick(m.Keys);
      Shrinks(m, k);
      TotalAtMost(m - {k}, bound);
      OneMoreTimes(|m - {k}| as real, bound);
    }
  }

  lemma {:induction false} TotalNonNegative<K>(m: map<K, real>)
    requires forall k :: k in m ==> m[k] >= 0.0
    ensures Total(m) >= 0.0
    decreases |m|
  {
    if m != map[] {
      var k := Pick(m.Keys);
      Shrinks(m, k);
      TotalNonNegative(m - {k});
    }
  }

  /** Raising no entry raises no sum. */
  lemma {:induction false} TotalMonotone<K>(m: map<K, real>, n: map<K, real>)
    requires m.Keys == n.Keys
    requires forall k :: k in m ==> m[k] <= n[k]
    ensures Total(m) <= Total(n)
    decreases |m|
  {
    if m != map[] {
      var k := Pick(m.Keys);
      Shrinks(m, k);
      TotalMonotone(m - {k}, n - {k});
      TotalRemove(n, k);
    } else {
      assert n == map[];
    }
  }

  /** Sums the entries of a dictionary, in whatever order they come. */
  method SumValues<K(==)>(values: map<K, real>) returns (total: real)
    ensures total == Total(values)
  {
    total := 0.0;
    var rest := values;
    while rest != map[]
      invariant total + Total(rest) == Total(values)
      decreases |rest|
    {
      assert rest.Keys != {};
      var k :| k in rest.Keys;
      TotalRemove(rest, k);
      Shrinks(rest, k);
      total := total + rest[k];
      rest := rest - {k};
    }
  }
}
