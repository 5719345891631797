/**
 * Sums over row sequences and `groupby(key).sum()`: summing every row equals
 * summing, over the distinct keys, each key's group total.
 */
module Grouping {
  import opened Joins

  /** The sum of `f` over `xs`. */
  function SumOf<T>(xs: seq<T>, f: T -> real): real
    decreases |xs|
  {
    if xs == [] then 0.0 else SumOf(xs[..|xs| - 1], f) + f(xs[|xs| - 1])
  }

  /** The sum of `f` over the rows of `xs` that satisfy `p`. */
  function SumWhere<T>(xs: seq<T>, p: T -> bool, f: T -> real): real
    decreases |xs|
  {
    if xs == [] then 0.0
    else SumWhere(xs[..|xs| - 1], p, f) + (if p(xs[|xs| - 1]) then f(xs[|xs| - 1]) else 0.0)
  }

  /** The total of one group: `groupby(key)[f].sum()` at key `k`. */
  function GroupTotal<T, K(==)>(xs: seq<T>, key: T -> K, f: T -> real): K -> real {
    k => SumWhere(xs, HasKey(key, k), f)
  }

  predicate Distinct<K(==)>(keys: seq<K>) {
    forall i, j :: 0 <= i < j < |keys| ==> keys[i] != keys[j]
  }

  lemma {:induction false} SumOfAppend<T>(xs: seq<T>, ys: seq<T>, f: T -> real)
    ensures SumOf(xs + ys, f) == SumOf(xs, f) + SumOf(ys, f)
    decreases |ys|
  {
    if ys == [] {
      assert xs + ys == xs;
    } else {
      assert (xs + ys)[..|xs + ys| - 1] == xs + ys[..|ys| - 1];
      SumOfAppend(xs, ys[..|ys| - 1], f);
    }
  }

  /** The sum over a single row. */
  lemma SumWhereSingle<T>(x: T, p: T -> bool, f: T -> real)
    ensures SumWhere([x], p, f) == if p(x) then f(x) else 0.0
  {
    assert [x][..0] == [];
  }

  lemma {:induction false} SumWhereAppend<T>(xs: seq<T>, ys: seq<T>, p: T -> bool, f: T -> real)
    ensures SumWhere(xs + ys, p, f) == SumWhere(xs, p, f) + SumWhere(ys, p, f)
    decreases |ys|
  {
    if ys == [] {
      assert xs + ys == xs;
    } else {
      assert (xs + ys)[..|xs + ys| - 1] == xs + ys[..|ys| - 1];
      SumWhereAppend(xs, ys[..|ys| - 1], p, f);
    }
  }

  /** Sums agree when the summands agree on every element. */
  lemma {:induction false} SumOfCongruent<T>(xs: seq<T>, f: T -> real, g: T -> real)
    requires forall i :: 0 <= i < |xs| ==> f(xs[i]) == g(xs[i])
    ensures SumOf(xs, f) == SumOf(xs, g)
    decreases |xs|
  {
    if xs != [] {
      SumOfCongruent(xs[..|xs| - 1], f, g);
    }
  }

  /** Raising one key's summand by `d` raises the sum over distinct keys by `d`. */
  lemma {:induction false} SumOfBump<K>(keys: seq<K>, g1: K -> real, g2: K -> real, k0: K, d: real)
    requires Distinct(keys) && k0 in keys
    requires forall i :: 0 <= i < |keys| ==> g2(keys[i]) == g1(keys[i]) + (if keys[i] == k0 then d else 0.0)
    ensures SumOf(keys, g2) == SumOf(keys, g1) + d
    decreases |keys|
  {
    var init := keys[..|keys| - 1];
    var last := keys[|keys| - 1];
    if last == k0 {
      assert forall i :: 0 <= i < |init| ==> init[i] != k0;
      SumOfCongruent(init, g1, g2);
    } else {
      assert k0 in init;
      SumOfBump(init, g1, g2, k0, d);
    }
  }

  /** A sum over distinct keys of zero summands is zero. */
  lemma {:induction false} SumOfZero<K>(keys: seq<K>, g: K -> real)
    requires forall i :: 0 <= i < |keys| ==> g(keys[i]) == 0.0
    ensures SumOf(keys, g) == 0.0
    decreases |keys|
  {
    if keys != [] {
      SumOfZero(keys[..|keys| - 1], g);
    }
  }

  /**
   * Summing every row equals summing the group totals over a duplicate-free
   * list of keys that covers every row's key.
   */
  lemma {:induction false} GroupedSum<T, K>(xs: seq<T>, key: T -> K, f: T -> real, keys: seq<K>)
    requires Distinct(keys)
    requires forall i :: 0 <= i < |xs| ==> key(xs[i]) in keys
    ensures SumOf(xs, f) == SumOf(keys, GroupTotal(xs, key, f))
    decreases |xs|
  {
    if xs == [] {
      SumOfZero(keys, GroupTotal(xs, key, f));
    } else {
      var init := xs[..|xs| - 1];
      var x := xs[|xs| - 1];
      GroupedSum(init, key, f, keys);
      forall i | 0 <= i < |keys|
        ensures GroupTotal(xs, key, f)(keys[i]) ==
                GroupTotal(init, key, f)(keys[i]) + (if keys[i] == key(x) then f(x) else 0.0)
      {
        assert HasKey(key, keys[i])(x) <==> key(x) == keys[i];
      }
      SumOfBump(keys, GroupTotal(init, key, f), GroupTotal(xs, key, f), key(x), f(x));
    }
  }
  /** Summands that agree on the selected rows give the same selective sum. */
  lemma {:induction false} SumWhereCongruent<T>(xs: seq<T>, p: T -> bool, f: T -> real, g: T -> real)
    requires forall i :: 0 <= i < |xs| && p(xs[i]) ==> f(xs[i]) == g(xs[i])
    ensures SumWhere(xs, p, f) == SumWhere(xs, p, g)
    decreases |xs|
  {
    if xs != [] {
      SumWhereCongruent(xs[..|xs| - 1], p, f, g);
    }
  }

  /** A common factor of the selected summands comes out of the sum. */
  lemma {:induction false} SumWhereScale<T>(xs: seq<T>, p: T -> bool, f: T -> real, h: T -> real, c: real)
    requires forall i :: 0 <= i < |xs| && p(xs[i]) ==> f(xs[i]) == c * h(xs[i])
    ensures SumWhere(xs, p, f) == c * SumWhere(xs, p, h)
    decreases |xs|
  {
    if xs != [] {
      SumWhereScale(xs[..|xs| - 1], p, f, h, c);
    }
  }

  /** A selective sum is linear in its summands. */
  lemma {:induction false} SumWhereLinear<T>(xs: seq<T>, p: T -> bool, f: T -> real, g: T -> real, h: T -> real, a: real, b: real)
    requires forall i :: 0 <= i < |xs| && p(xs[i]) ==> h(xs[i]) == a * f(xs[i]) + b * g(xs[i])
    ensures SumWhere(xs, p, h) == a * SumWhere(xs, p, f) + b * SumWhere(xs, p, g)
    decreases |xs|
  {
    if xs != [] {
      SumWhereLinear(xs[..|xs| - 1], p, f, g, h, a, b);
    }
  }

  /** Every group total is linear in the summands. */
  lemma GroupTotalLinear<T, K>(xs: seq<T>, key: T -> K, f: T -> real, g: T -> real, h: T -> real, a: real, b: real, k: K)
    requires forall i :: 0 <= i < |xs| ==> h(xs[i]) == a * f(xs[i]) + b * g(xs[i])
    ensures GroupTotal(xs, key, h)(k) == a * GroupTotal(xs, key, f)(k) + b * GroupTotal(xs, key, g)(k)
  {
    SumWhereLinear(xs, HasKey(key, k), f, g, h, a, b);
  }

  /** Summands that are pointwise no larger give a sum that is no larger. */
  lemma {:induction false} SumOfMonotone<T>(xs: seq<T>, f: T -> real, g: T -> real)
    requires forall i :: 0 <= i < |xs| ==> f(xs[i]) <= g(xs[i])
    ensures SumOf(xs, f) <= SumOf(xs, g)
    decreases |xs|
  {
    if xs != [] {
      SumOfMonotone(xs[..|xs| - 1], f, g);
    }
  }

  /** Selected summands that are pointwise no larger give a selective sum that is no larger. */
  lemma {:induction false} SumWhereMonotone<T>(xs: seq<T>, p: T -> bool, f: T -> real, g: T -> real)
    requires forall i :: 0 <= i < |xs| && p(xs[i]) ==> f(xs[i]) <= g(xs[i])
    ensures SumWhere(xs, p, f) <= SumWhere(xs, p, g)
    decreases |xs|
  {
    if xs != [] {
      SumWhereMonotone(xs[..|xs| - 1], p, f, g);
    }
  }

  /** A selective sum whose selected summands are all zero is zero. */
  lemma {:induction false} SumWhereZero<T>(xs: seq<T>, p: T -> bool, f: T -> real)
    requires forall i :: 0 <= i < |xs| && p(xs[i]) ==> f(xs[i]) == 0.0
    ensures SumWhere(xs, p, f) == 0.0
    decreases |xs|
  {
    if xs != [] {
      SumWhereZero(xs[..|xs| - 1], p, f);
    }
  }

  /** A common factor of the summands comes out of the sum. */
  lemma {:induction false} SumOfScale<T>(xs: seq<T>, f: T -> real, h: T -> real, c: real)
    requires forall i :: 0 <= i < |xs| ==> f(xs[i]) == c * h(xs[i])
    ensures SumOf(xs, f) == c * SumOf(xs, h)
    decreases |xs|
  {
    if xs != [] {
      SumOfScale(xs[..|xs| - 1], f, h, c);
    }
  }

  /** Sums over two sequences agree when their summands agree position by position. */
  lemma {:induction false} SumOfPointwise<T, U>(xs: seq<T>, ys: seq<U>, f: T -> real, g: U -> real)
    requires |xs| == |ys|
    requires forall i :: 0 <= i < |xs| ==> f(xs[i]) == g(ys[i])
    ensures SumOf(xs, f) == SumOf(ys, g)
    decreases |xs|
  {
    if xs != [] {
      SumOfPointwise(xs[..|xs| - 1], ys[..|ys| - 1], f, g);
    }
  }

  /** Selective sums agree when selection and selected summands agree position by position. */
  lemma {:induction false} SumWherePointwise<T, U>(xs: seq<T>, ys: seq<U>, p: T -> bool, q: U -> bool, f: T -> real, g: U -> real)
    requires |xs| == |ys|
    requires forall i :: 0 <= i < |xs| ==> p(xs[i]) == q(ys[i])
    requires forall i :: 0 <= i < |xs| && p(xs[i]) ==> f(xs[i]) == g(ys[i])
    ensures SumWhere(xs, p, f) == SumWhere(ys, q, g)
    decreases |xs|
  {
    if xs != [] {
      SumWherePointwise(xs[..|xs| - 1], ys[..|ys| - 1], p, q, f, g);
    }
  }

  /** With non-negative summands, a selective sum lies between zero and the full sum. */
  lemma {:induction false} SumWhereWithinSumOf<T>(xs: seq<T>, p: T -> bool, f: T -> real)
    requires forall i :: 0 <= i < |xs| ==> f(xs[i]) >= 0.0
    ensures 0.0 <= SumWhere(xs, p, f) <= SumOf(xs, f)
    decreases |xs|
  {
    if xs != [] {
      SumWhereWithinSumOf(xs[..|xs| - 1], p, f);
    }
  }

  /** With non-negative summands, the sum is at least any one summand. */
  lemma {:induction false} SumOfAtLeastOne<T>(xs: seq<T>, f: T -> real, k: int)
    requires forall i :: 0 <= i < |xs| ==> f(xs[i]) >= 0.0
    requires 0 <= k < |xs|
    ensures SumOf(xs, f) >= f(xs[k])
    decreases |xs|
  {
    var init := xs[..|xs| - 1];
    if k < |xs| - 1 {
      SumOfAtLeastOne(init, f, k);
      assert init[k] == xs[k];
    } else {
      SumWhereWithinSumOf(init, _ => false, f);
    }
  }
}
