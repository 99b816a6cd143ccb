/**
 * Sums over a sequence of records, restricted by a grouping key.
 * These are the SQL `SUM(...) GROUP BY` and the JavaScript `+=` accumulators
 * of the report stated once, generically; every sum runs from the end of the
 * sequence so that appending one record unfolds one step.
 */
module Sums {

  /** Sum of `f` over all of `xs`. */
  function Sum<T>(xs: seq<T>, f: T -> int): int
  {
    if xs == [] then 0 else Sum(xs[..|xs| - 1], f) + f(xs[|xs| - 1])
  }

  /** Sum of `f` over the elements of `xs` whose key is `k`. */
  function SumWhere<T, K(==)>(xs: seq<T>, key: T -> K, k: K, f: T -> int): int
  {
    if xs == [] then 0
    else SumWhere(xs[..|xs| - 1], key, k, f) + (if key(xs[|xs| - 1]) == k then f(xs[|xs| - 1]) else 0)
  }

  /** Sum, over the keys listed in `ks`, of the per-key sums. */
  function SumOverKeys<T, K(==)>(xs: seq<T>, key: T -> K, ks: seq<K>, f: T -> int): int
  {
    if ks == [] then 0
    else SumOverKeys(xs, key, ks[..|ks| - 1], f) + SumWhere(xs, key, ks[|ks| - 1], f)
  }

  /** No key is listed twice. */
  predicate Distinct<K(==)>(ks: seq<K>)
  {
    forall i, j :: 0 <= i < j < |ks| ==> ks[i] != ks[j]
  }

  /** The distinct keys of the elements of `xs`, in order of first appearance. */
  function DistinctKeys<T, K(==)>(xs: seq<T>, key: T -> K): (ks: seq<K>)
    ensures Distinct(ks)
    ensures forall i :: 0 <= i < |xs| ==> key(xs[i]) in ks
    ensures forall k :: k in ks ==> exists i :: 0 <= i < |xs| && key(xs[i]) == k
  {
    if xs == [] then []
    else
      var init := xs[..|xs| - 1];
      var ks := DistinctKeys(init, key);
      var k := key(xs[|xs| - 1]);
      assert forall i :: 0 <= i < |init| ==> xs[i] == init[i];
      if k in ks then ks else ks + [k]
  }

  /** The contribution of one appended element to a sum over distinct keys. */
  lemma {:induction false} SumOverKeysAppend<T, K>(xs: seq<T>, x: T, key: T -> K, ks: seq<K>, f: T -> int)
    requires Distinct(ks)
    ensures SumOverKeys(xs + [x], key, ks, f)
         == SumOverKeys(xs, key, ks, f) + (if key(x) in ks then f(x) else 0)
  {
    var ys := xs + [x];
    assert ys[..|ys| - 1] == xs;
    if ks != [] {
      var init := ks[..|ks| - 1];
      assert Distinct(init);
      SumOverKeysAppend(xs, x, key, init, f);
      assert key(x) in ks <==> key(x) in init || key(x) == ks[|ks| - 1];
      assert key(x) == ks[|ks| - 1] ==> key(x) !in init;
    }
  }

  /**
   * Partition: when every element's key is listed exactly once in `ks`,
   * the per-key sums add up to the sum over everything.
   */
  lemma {:induction false} Partition<T, K>(xs: seq<T>, key: T -> K, ks: seq<K>, f: T -> int)
    requires Distinct(ks)
    requires forall i :: 0 <= i < |xs| ==> key(xs[i]) in ks
    ensures SumOverKeys(xs, key, ks, f) == Sum(xs, f)
  {
    if xs == [] {
      EmptySumOverKeys(key, ks, f);
    } else {
      var init := xs[..|xs| - 1];
      var x := xs[|xs| - 1];
      assert xs == init + [x];
      Partition(init, key, ks, f);
      SumOverKeysAppend(init, x, key, ks, f);
    }
  }

  /** Over no elements, every per-key sum is zero. */
  lemma {:induction false} EmptySumOverKeys<T, K>(key: T -> K, ks: seq<K>, f: T -> int)
    ensures SumOverKeys([], key, ks, f) == 0
  {
    if ks != [] {
      EmptySumOverKeys(key, ks[..|ks| - 1], f);
    }
  }
}
