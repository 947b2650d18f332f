/** Finite sums over a set of row keys, the way an aggregate query adds up a column. */
module Sums {

  ghost function Sum<K>(keys: set<K>, f: K -> nat): nat
    decreases |keys|
  {
    if keys == {} then 0
    else
      var k :| k in keys;
      f(k) + Sum(keys - {k}, f)
  }

  /** Any key can be taken out first, so the order of summation does not matter. */
  lemma {:induction false} SumRemove<K>(keys: set<K>, f: K -> nat, k: K)
    requires k in keys
    ensures Sum(keys, f) == f(k) + Sum(keys - {k}, f)
    decreases |keys|
  {
    var j :| j in keys && Sum(keys, f) == f(j) + Sum(keys - {j}, f);
    if j == k {
    } else {
      SumRemove(keys - {j}, f, k);
      SumRemove(keys - {k}, f, j);
      assert keys - {j} - {k} == keys - {k} - {j};
    }
  }

  lemma SumAdd<K>(keys: set<K>, f: K -> nat, k: K)
    requires k !in keys
    ensures Sum(keys + {k}, f) == Sum(keys, f) + f(k)
  {
    SumRemove(keys + {k}, f, k);
    assert keys + {k} - {k} == keys;
  }

  /** Two columns that agree on every key have the same sum. */
  lemma {:induction false} SumCongruent<K>(keys: set<K>, f: K -> nat, g: K -> nat)
    requires forall k :: k in keys ==> f(k) == g(k)
    ensures Sum(keys, f) == Sum(keys, g)
    decreases |keys|
  {
    if keys == {} {
    } else {
      var k :| k in keys;
      SumRemove(keys, f, k);
      SumRemove(keys, g, k);
      SumCongruent(keys - {k}, f, g);
    }
  }

  /** Adding two columns row by row adds their sums. */
  lemma {:induction false} SumPlus<K>(keys: set<K>, f: K -> nat, g: K -> nat, h: K -> nat)
    requires forall k :: k in keys ==> h(k) == f(k) + g(k)
    ensures Sum(keys, h) == Sum(keys, f) + Sum(keys, g)
    decreases |keys|
  {
    if keys == {} {
    } else {
      var k :| k in keys;
      SumRemove(keys, f, k);
      SumRemove(keys, g, k);
      SumRemove(keys, h, k);
      SumPlus(keys - {k}, f, g, h);
    }
  }

  lemma {:induction false} SumBound<K>(keys: set<K>, f: K -> nat, bound: nat)
    requires forall k :: k in keys ==> f(k) <= bound
    ensures Sum(keys, f) <= bound * |keys|
    decreases |keys|
  {
    if keys == {} {
    } else {
      var k :| k in keys;
      SumRemove(keys, f, k);
      SumBound(keys - {k}, f, bound);
      MultipleStep(bound, |keys - {k}|);
    }
  }

  lemma MultipleStep(bound: nat, n: nat)
    ensures bound * (n + 1) == bound * n + bound
  {
  }

  lemma {:induction false} SumMonotone<K>(keys: set<K>, f: K -> nat, g: K -> nat)
    requires forall k :: k in keys ==> f(k) <= g(k)
    ensures Sum(keys, f) <= Sum(keys, g)
    decreases |keys|
  {
    if keys == {} {
    } else {
      var k :| k in keys;
      SumRemove(keys, f, k);
      SumRemove(keys, g, k);
      SumMonotone(keys - {k}, f, g);
    }
  }

  /** A column that grows nowhere and shrinks at `k` has a smaller sum. */
  lemma SumStrict<K>(keys: set<K>, f: K -> nat, g: K -> nat, k: K)
    requires forall j :: j in keys ==> f(j) <= g(j)
    requires k in keys && f(k) < g(k)
    ensures Sum(keys, f) < Sum(keys, g)
  {
    SumRemove(keys, f, k);
    SumRemove(keys, g, k);
    SumMonotone(keys - {k}, f, g);
  }

  lemma SumPart<K>(keys: set<K>, f: K -> nat, k: K)
    requires k in keys
    ensures f(k) <= Sum(keys, f)
  {
    SumRemove(keys, f, k);
  }

  /** A set every element of which lies in a larger one is no larger. */
  lemma {:induction false} SubsetSize<K>(a: set<K>, b: set<K>)
    requires a <= b
    ensures |a| <= |b|
    decreases |a|
  {
    if a == {} {
    } else {
      var k :| k in a;
      SubsetSize(a - {k}, b - {k});
    }
  }
}
