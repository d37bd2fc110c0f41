/** Sums over the values of a finite map, and how an update changes them. */
module Sums {

  ghost function SumOf<K(!new)>(m: map<K, int>): int
    decreases |m|
  {
    if m == map[] then 0
    else
      var k :| k in m;
      m[k] + SumOf(m - {k})
  }

  /** Any key may be taken out first. */
  lemma {:induction false} SumRemove<K(!new)>(m: map<K, int>, k: K)
    requires k in m
    ensures SumOf(m) == m[k] + SumOf(m - {k})
    decreases |m|
  {
    var c :| c in m && SumOf(m) == m[c] + SumOf(m - {c});
    if c != k {
      SumRemove(m - {c}, k);
      SumRemove(m - {k}, c);
      assert m - {c} - {k} == m - {k} - {c};
    }
  }

  lemma SumUpdate<K(!new)>(m: map<K, int>, k: K, v: int)
    ensures SumOf(m[k := v]) == SumOf(m) + v - (if k in m then m[k] else 0)
  {
    SumRemove(m[k := v], k);
    if k in m {
      SumRemove(m, k);
      assert m[k := v] - {k} == m - {k};
    } else {
      assert m[k := v] - {k} == m;
    }
  }

  /** A sum of values that are not negative bounds each of them. */
  lemma {:induction false} SumBoundsEach<K(!new)>(m: map<K, int>, k: K)
    requires forall j :: j in m ==> m[j] >= 0
    requires k in m
    ensures 0 <= m[k] <= SumOf(m)
    decreases |m|
  {
    SumRemove(m, k);
    SumNotNegative(m - {k});
  }

  lemma {:induction false} SumNotNegative<K(!new)>(m: map<K, int>)
    requires forall j :: j in m ==> m[j] >= 0
    ensures SumOf(m) >= 0
    decreases |m|
  {
    if m != map[] {
      var k :| k in m;
      SumRemove(m, k);
      SumNotNegative(m - {k});
    }
  }
}
