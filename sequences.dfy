/**
 * Order-preserving row selection: boolean-mask filtering and
 * `drop_duplicates(keep='first')`, over any element and key type.
 */
module Sequences {

  /** `a` can be obtained from `b` by deleting elements (order kept). */
  predicate Subseq<T(==)>(a: seq<T>, b: seq<T>)
    decreases |b|
  {
    if a == [] then true
    else if b == [] then false
    else if a[|a| - 1] == b[|b| - 1] then Subseq(a[..|a| - 1], b[..|b| - 1])
    else Subseq(a, b[..|b| - 1])
  }

  lemma {:induction false} SubseqDropLast<T>(a: seq<T>, b: seq<T>)
    requires a != [] && Subseq(a, b)
    ensures Subseq(a[..|a| - 1], b)
    decreases |b|, 0
  {
    var a' := a[..|a| - 1];
    var b' := b[..|b| - 1];
    if a' != [] {
      if a[|a| - 1] != b[|b| - 1] {
        SubseqDropLast(a, b');
      }
      SubseqExtend(a', b', b[|b| - 1]);
      assert b' + [b[|b| - 1]] == b;
    }
  }

  lemma {:induction false} SubseqExtend<T>(a: seq<T>, b: seq<T>, x: T)
    requires Subseq(a, b)
    ensures Subseq(a, b + [x])
    decreases |b|, 1
  {
    var b' := b + [x];
    assert b'[..|b'| - 1] == b;
    if a != [] && a[|a| - 1] == x {
      SubseqDropLast(a, b);
    }
  }

  /** `a` below `b` minus its last element implies `a` below `b`. */
  lemma SubseqExtendCase<T>(a: seq<T>, b: seq<T>)
    requires b != [] && Subseq(a, b[..|b| - 1])
    ensures Subseq(a, b)
  {
    SubseqExtend(a, b[..|b| - 1], b[|b| - 1]);
    assert b[..|b| - 1] + [b[|b| - 1]] == b;
  }

  lemma {:induction false} SubseqRefl<T>(a: seq<T>)
    ensures Subseq(a, a)
    decreases |a|
  {
    if a != [] {
      SubseqRefl(a[..|a| - 1]);
    }
  }

  /** Keep the elements satisfying `p`, in order (`df[mask]`). */
  function Filter<T>(xs: seq<T>, p: T -> bool): (r: seq<T>)
    ensures |r| <= |xs|
    ensures forall x :: x in r ==> x in xs && p(x)
    decreases |xs|
  {
    if xs == [] then []
    else
      var keep := Filter(xs[..|xs| - 1], p);
      if p(xs[|xs| - 1]) then keep + [xs[|xs| - 1]] else keep
  }

  /** The filter distributes over concatenation: its result is fixed element by element. */
  lemma {:induction false} FilterAppend<T>(xs: seq<T>, ys: seq<T>, p: T -> bool)
    ensures Filter(xs + ys, p) == Filter(xs, p) + Filter(ys, p)
    decreases |ys|
  {
    if ys == [] {
      assert xs + ys == xs;
    } else {
      var y := ys[|ys| - 1];
      var ys' := ys[..|ys| - 1];
      assert (xs + ys)[..|xs + ys| - 1] == xs + ys';
      FilterAppend(xs, ys', p);
    }
  }

  /** A single element is kept exactly when it satisfies `p`. */
  lemma FilterSingleton<T>(x: T, p: T -> bool)
    ensures Filter([x], p) == (if p(x) then [x] else [])
  {
    assert [x][..0] == [];
  }

  lemma {:induction false} FilterSubseq<T>(xs: seq<T>, p: T -> bool)
    ensures Subseq(Filter(xs, p), xs)
    decreases |xs|
  {
    if xs != [] {
      var xs' := xs[..|xs| - 1];
      var keep := Filter(xs', p);
      FilterSubseq(xs', p);
      if p(xs[|xs| - 1]) {
        assert (keep + [xs[|xs| - 1]])[..|keep|] == keep;
      } else {
        SubseqExtendCase(keep, xs);
      }
    }
  }

  lemma {:induction false} FilterKeepsAll<T>(xs: seq<T>, p: T -> bool)
    ensures forall i :: 0 <= i < |xs| && p(xs[i]) ==> xs[i] in Filter(xs, p)
    decreases |xs|
  {
    if xs != [] {
      FilterKeepsAll(xs[..|xs| - 1], p);
    }
  }

  /** Filtering twice with the same mask changes nothing more. */
  lemma {:induction false} FilterIdempotent<T>(xs: seq<T>, p: T -> bool)
    ensures Filter(Filter(xs, p), p) == Filter(xs, p)
    decreases |xs|
  {
    if xs != [] {
      var xs' := xs[..|xs| - 1];
      var x := xs[|xs| - 1];
      FilterIdempotent(xs', p);
      if p(x) {
        FilterAppend(Filter(xs', p), [x], p);
        FilterSingleton(x, p);
      }
    }
  }

  /** The keys occurring in `xs`. */
  function KeySet<T, K>(xs: seq<T>, key: T -> K): (r: set<K>)
    ensures forall i :: 0 <= i < |xs| ==> key(xs[i]) in r
    ensures forall k :: k in r ==> exists i :: 0 <= i < |xs| && key(xs[i]) == k
    decreases |xs|
  {
    if xs == [] then {} else KeySet(xs[..|xs| - 1], key) + {key(xs[|xs| - 1])}
  }

  /** No two elements share a key. */
  predicate UniqueKeys<T, K(==)>(xs: seq<T>, key: T -> K) {
    forall i, j :: 0 <= i < j < |xs| ==> key(xs[i]) != key(xs[j])
  }

  /** `drop_duplicates(subset=[key], keep='first')`. */
  function Dedup<T, K(==)>(xs: seq<T>, key: T -> K): (r: seq<T>)
    ensures KeySet(r, key) == KeySet(xs, key)
    decreases |xs|
  {
    if xs == [] then []
    else
      var kept := Dedup(xs[..|xs| - 1], key);
      var x := xs[|xs| - 1];
      if key(x) in KeySet(kept, key) then kept else kept + [x]
  }

  lemma {:induction false} DedupUnique<T, K>(xs: seq<T>, key: T -> K)
    ensures UniqueKeys(Dedup(xs, key), key)
    decreases |xs|
  {
    if xs != [] {
      DedupUnique(xs[..|xs| - 1], key);
    }
  }

  lemma {:induction false} DedupSubseq<T, K>(xs: seq<T>, key: T -> K)
    ensures Subseq(Dedup(xs, key), xs)
    decreases |xs|
  {
    if xs != [] {
      var xs' := xs[..|xs| - 1];
      var kept := Dedup(xs', key);
      DedupSubseq(xs', key);
      if key(xs[|xs| - 1]) in KeySet(kept, key) {
        SubseqExtendCase(kept, xs);
      } else {
        assert (kept + [xs[|xs| - 1]])[..|kept|] == kept;
      }
    }
  }

  /** The first element of `xs` carrying key `k`. */
  function FirstWithKey<T, K(==)>(xs: seq<T>, key: T -> K, k: K): (r: T)
    requires k in KeySet(xs, key)
    ensures key(r) == k
    ensures exists i :: 0 <= i < |xs| && xs[i] == r && forall j :: 0 <= j < i ==> key(xs[j]) != k
    decreases |xs|
  {
    var xs' := xs[..|xs| - 1];
    if k in KeySet(xs', key) then FirstWithKey(xs', key, k) else xs[|xs| - 1]
  }

  /** The element kept for each key is the first one with that key. */
  lemma {:induction false} DedupKeepsFirst<T, K>(xs: seq<T>, key: T -> K)
    ensures forall i :: 0 <= i < |Dedup(xs, key)| ==>
              Dedup(xs, key)[i] == FirstWithKey(xs, key, key(Dedup(xs, key)[i]))
    decreases |xs|
  {
    if xs != [] {
      var xs' := xs[..|xs| - 1];
      DedupKeepsFirst(xs', key);
      var d := Dedup(xs, key);
      var kept := Dedup(xs', key);
      forall i | 0 <= i < |d|
        ensures d[i] == FirstWithKey(xs, key, key(d[i]))
      {
        if i < |kept| {
          assert d[i] == kept[i];
          assert key(kept[i]) in KeySet(xs', key);
        }
      }
    }
  }

  /** Input that already has unique keys is left as it is. */
  lemma {:induction false} DedupOfUnique<T, K>(xs: seq<T>, key: T -> K)
    requires UniqueKeys(xs, key)
    ensures Dedup(xs, key) == xs
    decreases |xs|
  {
    if xs != [] {
      var xs' := xs[..|xs| - 1];
      assert UniqueKeys(xs', key);
      DedupOfUnique(xs', key);
      assert xs' + [xs[|xs| - 1]] == xs;
    }
  }

  /** Deduplicating twice is the same as deduplicating once. */
  lemma DedupIdempotent<T, K>(xs: seq<T>, key: T -> K)
    ensures Dedup(Dedup(xs, key), key) == Dedup(xs, key)
  {
    DedupUnique(xs, key);
    DedupOfUnique(Dedup(xs, key), key);
  }

  /** Every element of a subsequence is an element of the whole. */
  lemma {:induction false} SubseqMembers<T>(a: seq<T>, b: seq<T>)
    requires Subseq(a, b)
    ensures forall x :: x in a ==> x in b
    ensures |a| <= |b|
    decreases |b|
  {
    if a != [] {
      var b' := b[..|b| - 1];
      if a[|a| - 1] == b[|b| - 1] {
        var a' := a[..|a| - 1];
        SubseqMembers(a', b');
        assert a == a' + [a[|a| - 1]];
      } else {
        SubseqMembers(a, b');
      }
    }
  }

  /** The distinct elements in order of first appearance (`unique()`). */
  function Unique<T(==)>(xs: seq<T>): (r: seq<T>)
    ensures forall i, j :: 0 <= i < j < |r| ==> r[i] != r[j]
    ensures forall k :: 0 <= k < |r| ==> r[k] in xs
    ensures forall i :: 0 <= i < |xs| ==> xs[i] in r
    decreases |xs|
  {
    if xs == [] then []
    else
      var init := xs[..|xs| - 1];
      var x := xs[|xs| - 1];
      var kept := Unique(init);
      assert forall i :: 0 <= i < |init| ==> init[i] == xs[i];
      if x in kept then kept
      else
        var r := kept + [x];
        assert forall k :: 0 <= k < |kept| ==> r[k] == kept[k];
        r
  }

  /** A non-empty sequence of one repeated value has that value as its only distinct element. */
  lemma {:induction false} UniqueOfConstant<T>(xs: seq<T>, v: T)
    requires xs != [] && forall i :: 0 <= i < |xs| ==> xs[i] == v
    ensures Unique(xs) == [v]
    decreases |xs|
  {
    var init := xs[..|xs| - 1];
    if init != [] {
      UniqueOfConstant(init, v);
    }
  }

  /** Filtering by a condition every element meets keeps the whole sequence. */
  lemma {:induction false} FilterKeepsEverything<T>(xs: seq<T>, p: T -> bool)
    requires forall i :: 0 <= i < |xs| ==> p(xs[i])
    ensures Filter(xs, p) == xs
    decreases |xs|
  {
    if xs != [] {
      FilterKeepsEverything(xs[..|xs| - 1], p);
      assert xs[..|xs| - 1] + [xs[|xs| - 1]] == xs;
    }
  }
}
