// Summing a weight over the values of a map, and counting the elements of a set.
module Sums {
  ghost function Sum<K, V>(m: map<K, V>, weight: V -> int): int
    decreases |m.Keys|
  {
    if m == map[] then 0
    else
      var k :| k in m;
      assert (m - {k}).Keys == m.Keys - {k};
      weight(m[k]) + Sum(m - {k}, weight)
  }

  // The sum does not depend on which entry is taken out first.
  lemma {:induction false} TakeOut<K, V>(m: map<K, V>, weight: V -> int, k: K)
    requires k in m
    ensures Sum(m, weight) == weight(m[k]) + Sum(m - {k}, weight)
    decreases |m.Keys|
  {
    var first :| first in m && Sum(m, weight) == weight(m[first]) + Sum(m - {first}, weight);
    if first != k {
      assert (m - {first}).Keys == m.Keys - {first};
      assert (m - {k}).Keys == m.Keys - {k};
      TakeOut(m - {first}, weight, k);
      TakeOut(m - {k}, weight, first);
      assert m - {first} - {k} == m - {k} - {first};
    }
  }

  // Adding or rewriting one entry moves the sum by the difference of its two weights.
  lemma Rewrite<K, V>(m: map<K, V>, weight: V -> int, k: K, v: V)
    ensures Sum(m[k := v], weight) == Sum(m, weight) - (if k in m then weight(m[k]) else 0) + weight(v)
  {
    TakeOut(m[k := v], weight, k);
    if k in m {
      TakeOut(m, weight, k);
      assert m[k := v] - {k} == m - {k};
    } else {
      assert m[k := v] - {k} == m;
    }
  }

  lemma {:induction false} NonNegative<K, V>(m: map<K, V>, weight: V -> int)
    requires forall k | k in m :: weight(m[k]) >= 0
    ensures Sum(m, weight) >= 0
    decreases |m.Keys|
  {
    if m != map[] {
      var k :| k in m;
      TakeOut(m, weight, k);
      assert (m - {k}).Keys == m.Keys - {k};
      NonNegative(m - {k}, weight);
    }
  }

  lemma {:induction false} AllZero<K, V>(m: map<K, V>, weight: V -> int)
    requires forall k | k in m :: weight(m[k]) == 0
    ensures Sum(m, weight) == 0
    decreases |m.Keys|
  {
    if m != map[] {
      var k :| k in m;
      TakeOut(m, weight, k);
      assert (m - {k}).Keys == m.Keys - {k};
      AllZero(m - {k}, weight);
    }
  }

  // A sum of non-negative weights is at least each of them.
  lemma CoversEach<K, V>(m: map<K, V>, weight: V -> int, k: K)
    requires k in m
    requires forall i | i in m :: weight(m[i]) >= 0
    ensures Sum(m, weight) >= weight(m[k])
  {
    TakeOut(m, weight, k);
    NonNegative(m - {k}, weight);
  }

  lemma {:induction false} SubsetIsNoLarger<T>(small: set<T>, big: set<T>)
    requires small <= big
    ensures |small| <= |big|
    decreases small
  {
    if small != {} {
      var x :| x in small;
      SubsetIsNoLarger(small - {x}, big - {x});
    }
  }
}
