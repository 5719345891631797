/**
 * The `DataFrame.merge` joins the pipeline uses (`how='left'`, `'outer'` and
 * `'inner'`), over sequences of records with a key function on each side.
 * Rows of the left input keep their order; a left row with several matches
 * is repeated once per match, in the right input's order.
 */
module Joins {
  import opened Wrappers
  import opened Sequences

  function HasKey<B, K(==)>(key: B -> K, k: K): B -> bool {
    b => key(b) == k
  }

  /** The rows of `ys` whose key is `k`, in order. */
  function Matching<B, K(==)>(ys: seq<B>, key: B -> K, k: K): (r: seq<B>)
    ensures forall i :: 0 <= i < |r| ==> r[i] in ys && key(r[i]) == k
    ensures forall j :: 0 <= j < |ys| && key(ys[j]) == k ==> ys[j] in r
    ensures r == [] <==> k !in KeySet(ys, key)
  {
    FilterKeepsAll(ys, HasKey(key, k));
    var r := Filter(ys, HasKey(key, k));
    assert forall i :: 0 <= i < |r| ==> r[i] in ys && key(r[i]) == k by {
      forall i | 0 <= i < |r| ensures r[i] in ys && key(r[i]) == k {
        assert r[i] in r;
        assert HasKey(key, k)(r[i]);
      }
    }
    assert k in KeySet(ys, key) ==> r != [] by {
      if k in KeySet(ys, key) {
        var i :| 0 <= i < |ys| && key(ys[i]) == k;
        assert ys[i] in r;
      }
    }
    assert r != [] ==> k in KeySet(ys, key) by {
      if r != [] {
        var j :| 0 <= j < |ys| && ys[j] == r[0];
        assert key(ys[j]) in KeySet(ys, key);
      }
    }
    r
  }

  /** With unique right keys a key matches at most one row. */
  lemma MatchingUnique<B, K>(ys: seq<B>, key: B -> K, k: K)
    requires UniqueKeys(ys, key)
    ensures |Matching(ys, key, k)| <= 1
  {
    var r := Matching(ys, key, k);
    if |r| > 1 {
      assert r[0] in ys && r[1] in ys;
      MatchingIndices(ys, key, k);
    }
  }

  lemma {:induction false} MatchingIndices<B, K>(ys: seq<B>, key: B -> K, k: K)
    requires UniqueKeys(ys, key)
    ensures |Filter(ys, HasKey(key, k))| <= 1
    decreases |ys|
  {
    if ys != [] {
      var init := ys[..|ys| - 1];
      assert UniqueKeys(init, key) by {
        forall i, j | 0 <= i < j < |init| ensures key(init[i]) != key(init[j]) {
          assert init[i] == ys[i] && init[j] == ys[j];
        }
      }
      MatchingIndices(init, key, k);
      var last := ys[|ys| - 1];
      if key(last) == k {
        assert forall i :: 0 <= i < |init| ==> key(init[i]) != k by {
          forall i | 0 <= i < |init| ensures key(init[i]) != k {
            assert init[i] == ys[i];
          }
        }
        assert k !in KeySet(init, key);
        assert Matching(init, key, k) == [];
        assert Filter(ys, HasKey(key, k)) == Filter(init, HasKey(key, k)) + [last];
      }
    }
  }

  /** The output rows one left row produces. */
  function JoinRow<A, B>(x: A, ms: seq<B>): (r: seq<(A, Option<B>)>)
    ensures ms == [] ==> r == [(x, None)]
    ensures ms != [] ==> |r| == |ms| && forall i :: 0 <= i < |ms| ==> r[i] == (x, Some(ms[i]))
  {
    if ms == [] then [(x, None)] else seq(|ms|, i requires 0 <= i < |ms| => (x, Some(ms[i])))
  }

  /**
   * A left-join output row is well formed: a matched right row has the left
   * row's key, and a row left unmatched has a key no right row has.
   */
  ghost predicate Paired<A, B, K>(ys: seq<B>, kx: A -> K, ky: B -> K, p: (A, Option<B>)) {
    (p.1.Some? ==> p.1.value in ys && ky(p.1.value) == kx(p.0)) &&
    (p.1.None? ==> kx(p.0) !in KeySet(ys, ky))
  }

  /** `xs.merge(ys, how='left')` */
  function LeftJoin<A, B, K(==)>(xs: seq<A>, ys: seq<B>, kx: A -> K, ky: B -> K): (r: seq<(A, Option<B>)>)
    ensures |r| >= |xs|
    ensures forall i :: 0 <= i < |r| ==> r[i].0 in xs
    ensures forall i :: 0 <= i < |r| ==> Paired(ys, kx, ky, r[i])
    decreases |xs|
  {
    if xs == [] then []
    else
      var ms := Matching(ys, ky, kx(xs[0]));
      var head := JoinRow(xs[0], ms);
      var rest := LeftJoin(xs[1..], ys, kx, ky);
      var r := head + rest;
      assert forall i :: 0 <= i < |r| ==> r[i].0 in xs && Paired(ys, kx, ky, r[i]) by {
        forall i | 0 <= i < |r| ensures r[i].0 in xs && Paired(ys, kx, ky, r[i]) {
          if i < |head| {
            assert r[i] == head[i];
          } else {
            assert r[i] == rest[i - |head|];
            assert rest[i - |head|].0 in xs[1..];
          }
        }
      }
      r
  }

  /** Every pair of a left row and a matching right row appears in a left join. */
  lemma {:induction false} LeftJoinPairs<A, B, K>(xs: seq<A>, ys: seq<B>, kx: A -> K, ky: B -> K, x: A, y: B)
    requires x in xs && y in ys && ky(y) == kx(x)
    ensures (x, Some(y)) in LeftJoin(xs, ys, kx, ky)
    decreases |xs|
  {
    var ms := Matching(ys, ky, kx(xs[0]));
    if xs[0] == x {
      assert y in ms;
      var i :| 0 <= i < |ms| && ms[i] == y;
      assert JoinRow(x, ms)[i] == (x, Some(y));
    } else {
      assert x in xs[1..];
      LeftJoinPairs(xs[1..], ys, kx, ky, x, y);
    }
  }

  /** A left join keeps every left row, matched or not. */
  lemma LeftJoinKeepsLeft<A, B, K>(xs: seq<A>, ys: seq<B>, kx: A -> K, ky: B -> K, x: A)
    requires x in xs
    ensures exists i :: 0 <= i < |LeftJoin(xs, ys, kx, ky)| && LeftJoin(xs, ys, kx, ky)[i].0 == x
  {
    if kx(x) in KeySet(ys, ky) {
      var j :| 0 <= j < |ys| && ky(ys[j]) == kx(x);
      LeftJoinPairs(xs, ys, kx, ky, x, ys[j]);
    } else {
      LeftJoinUnmatched(xs, ys, kx, ky, x);
    }
  }

  lemma {:induction false} LeftJoinUnmatched<A, B, K>(xs: seq<A>, ys: seq<B>, kx: A -> K, ky: B -> K, x: A)
    requires x in xs && kx(x) !in KeySet(ys, ky)
    ensures (x, None) in LeftJoin(xs, ys, kx, ky)
    decreases |xs|
  {
    if xs[0] != x {
      assert x in xs[1..];
      LeftJoinUnmatched(xs[1..], ys, kx, ky, x);
    }
  }

  /**
   * With unique right keys, a left join has exactly one row per left row, in
   * order, matched exactly when its key occurs on the right.
   */
  lemma LeftJoinUnique<A, B, K>(xs: seq<A>, ys: seq<B>, kx: A -> K, ky: B -> K)
    requires UniqueKeys(ys, ky)
    ensures |LeftJoin(xs, ys, kx, ky)| == |xs|
    ensures forall i :: 0 <= i < |xs| ==>
              LeftJoin(xs, ys, kx, ky)[i].0 == xs[i] &&
              (LeftJoin(xs, ys, kx, ky)[i].1.Some? <==> kx(xs[i]) in KeySet(ys, ky))
  {
    LeftJoinUniqueLength(xs, ys, kx, ky);
    forall i | 0 <= i < |xs|
      ensures LeftJoin(xs, ys, kx, ky)[i].0 == xs[i] &&
              (LeftJoin(xs, ys, kx, ky)[i].1.Some? <==> kx(xs[i]) in KeySet(ys, ky))
    {
      LeftJoinUniqueAt(xs, ys, kx, ky, i);
    }
  }

  lemma {:induction false} LeftJoinUniqueLength<A, B, K>(xs: seq<A>, ys: seq<B>, kx: A -> K, ky: B -> K)
    requires UniqueKeys(ys, ky)
    ensures |LeftJoin(xs, ys, kx, ky)| == |xs|
    decreases |xs|
  {
    if xs != [] {
      LeftJoinUniqueLength(xs[1..], ys, kx, ky);
      LeftJoinHeadUnique(xs, ys, kx, ky);
    }
  }

  /** The row a left join with unique right keys makes of left row `i`. */
  lemma {:induction false} LeftJoinUniqueAt<A, B, K>(xs: seq<A>, ys: seq<B>, kx: A -> K, ky: B -> K, i: int)
    requires UniqueKeys(ys, ky) && 0 <= i < |xs|
    ensures |LeftJoin(xs, ys, kx, ky)| == |xs|
    ensures LeftJoin(xs, ys, kx, ky)[i].0 == xs[i]
    ensures LeftJoin(xs, ys, kx, ky)[i].1.Some? <==> kx(xs[i]) in KeySet(ys, ky)
    decreases i
  {
    LeftJoinUniqueLength(xs, ys, kx, ky);
    LeftJoinHeadUnique(xs, ys, kx, ky);
    if i > 0 {
      LeftJoinUniqueAt(xs[1..], ys, kx, ky, i - 1);
      assert xs[i] == xs[1..][i - 1];
    }
  }

  /** With unique right keys, the first left row gives exactly the first output row. */
  lemma LeftJoinHeadUnique<A, B, K>(xs: seq<A>, ys: seq<B>, kx: A -> K, ky: B -> K)
    requires UniqueKeys(ys, ky) && xs != []
    ensures var r := LeftJoin(xs, ys, kx, ky);
      |r| == 1 + |LeftJoin(xs[1..], ys, kx, ky)| &&
      r[0].0 == xs[0] && (r[0].1.Some? <==> kx(xs[0]) in KeySet(ys, ky)) &&
      forall i :: 1 <= i < |r| ==> r[i] == LeftJoin(xs[1..], ys, kx, ky)[i - 1]
  {
    MatchingUnique(ys, ky, kx(xs[0]));
    var ms := Matching(ys, ky, kx(xs[0]));
    var head := JoinRow(xs[0], ms);
    assert LeftJoin(xs, ys, kx, ky) == head + LeftJoin(xs[1..], ys, kx, ky);
    assert |head| == 1;
    assert head[0].0 == xs[0] && (head[0].1.Some? <==> ms != []);
  }

  /** A right row whose key no left row has leaves a left join unchanged. */
  lemma {:induction false} LeftJoinIgnoresUnmatched<A, B, K>(xs: seq<A>, ys: seq<B>, kx: A -> K, ky: B -> K, y: B)
    requires ky(y) !in KeySet(xs, kx)
    ensures LeftJoin(xs, ys + [y], kx, ky) == LeftJoin(xs, ys, kx, ky)
    decreases |xs|
  {
    if xs != [] {
      var k := kx(xs[0]);
      assert k in KeySet(xs, kx);
      FilterAppend(ys, [y], HasKey(ky, k));
      FilterSingleton(y, HasKey(ky, k));
      assert Matching(ys + [y], ky, k) == Matching(ys, ky, k);
      LeftJoinIgnoresUnmatched(xs[1..], ys, kx, ky, y);
    }
  }

  function MissingFrom<A, B, K(==)>(xs: seq<A>, kx: A -> K, ky: B -> K): B -> bool {
    y => ky(y) !in KeySet(xs, kx)
  }

  /**
   * An outer-join output row is well formed: at least one side is present,
   * a pair shares its key, and a one-sided row has a key the other input lacks.
   */
  ghost predicate OuterPaired<A, B, K>(xs: seq<A>, ys: seq<B>, kx: A -> K, ky: B -> K, p: (Option<A>, Option<B>)) {
    (p.0.Some? || p.1.Some?) &&
    (p.0.Some? ==> p.0.value in xs) &&
    (p.1.Some? ==> p.1.value in ys) &&
    (p.0.Some? && p.1.Some? ==> kx(p.0.value) == ky(p.1.value)) &&
    (p.0.Some? && p.1.None? ==> kx(p.0.value) !in KeySet(ys, ky)) &&
    (p.0.None? && p.1.Some? ==> ky(p.1.value) !in KeySet(xs, kx))
  }

  /**
   * `xs.merge(ys, how='outer')`: the left join, then the right rows whose key
   * no left row has. (pandas also sorts an outer join by key; that order is
   * not modelled.)
   */
  function OuterJoin<A, B, K(==)>(xs: seq<A>, ys: seq<B>, kx: A -> K, ky: B -> K): (r: seq<(Option<A>, Option<B>)>)
    ensures forall i :: 0 <= i < |r| ==> OuterPaired(xs, ys, kx, ky, r[i])
  {
    var l := LeftJoin(xs, ys, kx, ky);
    var extra := Filter(ys, MissingFrom(xs, kx, ky));
    var left := seq(|l|, i requires 0 <= i < |l| => (Some(l[i].0), l[i].1));
    var right := seq(|extra|, i requires 0 <= i < |extra| => (None, Some(extra[i])));
    assert forall i :: 0 <= i < |left| ==> OuterPaired(xs, ys, kx, ky, left[i]) by {
      forall i | 0 <= i < |left| ensures OuterPaired(xs, ys, kx, ky, left[i]) {
        assert Paired(ys, kx, ky, l[i]);
      }
    }
    assert forall i :: 0 <= i < |right| ==> OuterPaired(xs, ys, kx, ky, right[i]) by {
      forall i | 0 <= i < |right| ensures OuterPaired(xs, ys, kx, ky, right[i]) {
        assert extra[i] in extra;
        assert MissingFrom(xs, kx, ky)(extra[i]);
      }
    }
    var r := left + right;
    assert forall i :: 0 <= i < |r| ==> r[i] == (if i < |left| then left[i] else right[i - |left|]);
    r
  }

  /** An outer join keeps every row of both inputs. */
  lemma OuterJoinCovers<A, B, K>(xs: seq<A>, ys: seq<B>, kx: A -> K, ky: B -> K)
    ensures forall x :: x in xs ==>
              exists i :: 0 <= i < |OuterJoin(xs, ys, kx, ky)| && OuterJoin(xs, ys, kx, ky)[i].0 == Some(x)
    ensures forall y :: y in ys ==>
              exists i :: 0 <= i < |OuterJoin(xs, ys, kx, ky)| && OuterJoin(xs, ys, kx, ky)[i].1 == Some(y)
  {
    OuterJoinCoversLeft(xs, ys, kx, ky);
    OuterJoinCoversRight(xs, ys, kx, ky);
  }

  lemma OuterJoinCoversLeft<A, B, K>(xs: seq<A>, ys: seq<B>, kx: A -> K, ky: B -> K)
    ensures forall x :: x in xs ==>
              exists i :: 0 <= i < |OuterJoin(xs, ys, kx, ky)| && OuterJoin(xs, ys, kx, ky)[i].0 == Some(x)
  {
    var r := OuterJoin(xs, ys, kx, ky);
    var l := LeftJoin(xs, ys, kx, ky);
    assert forall i :: 0 <= i < |l| ==> r[i] == (Some(l[i].0), l[i].1);
    forall x | x in xs ensures exists i :: 0 <= i < |r| && r[i].0 == Some(x) {
      LeftJoinKeepsLeft(xs, ys, kx, ky, x);
      var i :| 0 <= i < |l| && l[i].0 == x;
      assert r[i].0 == Some(x);
    }
  }

  lemma OuterJoinCoversRight<A, B, K>(xs: seq<A>, ys: seq<B>, kx: A -> K, ky: B -> K)
    ensures forall y :: y in ys ==>
              exists i :: 0 <= i < |OuterJoin(xs, ys, kx, ky)| && OuterJoin(xs, ys, kx, ky)[i].1 == Some(y)
  {
    var r := OuterJoin(xs, ys, kx, ky);
    var l := LeftJoin(xs, ys, kx, ky);
    var extra := Filter(ys, MissingFrom(xs, kx, ky));
    assert forall i :: 0 <= i < |l| ==> r[i] == (Some(l[i].0), l[i].1);
    assert forall i :: 0 <= i < |extra| ==> r[|l| + i] == (None, Some(extra[i]));
    FilterKeepsAll(ys, MissingFrom(xs, kx, ky));
    forall y | y in ys ensures exists i :: 0 <= i < |r| && r[i].1 == Some(y) {
      if ky(y) in KeySet(xs, kx) {
        var a :| 0 <= a < |xs| && kx(xs[a]) == ky(y);
        LeftJoinPairs(xs, ys, kx, ky, xs[a], y);
        var j :| 0 <= j < |l| && l[j] == (xs[a], Some(y));
        assert r[j].1 == Some(y);
      } else {
        assert y in extra;
        var e :| 0 <= e < |extra| && extra[e] == y;
        assert r[|l| + e].1 == Some(y);
      }
    }
  }

  /** `xs.merge(ys, how='inner')`: every matching pair, in left order. */
  function InnerJoin<A, B, K(==)>(xs: seq<A>, ys: seq<B>, kx: A -> K, ky: B -> K): (r: seq<(A, B)>)
    ensures forall i :: 0 <= i < |r| ==> r[i].0 in xs && r[i].1 in ys && kx(r[i].0) == ky(r[i].1)
    decreases |xs|
  {
    if xs == [] then []
    else
      var ms := Matching(ys, ky, kx(xs[0]));
      var rest := InnerJoin(xs[1..], ys, kx, ky);
      assert forall i :: 0 <= i < |rest| ==> rest[i].0 in xs by {
        forall i | 0 <= i < |rest| ensures rest[i].0 in xs {
          assert rest[i].0 in xs[1..];
        }
      }
      var head := seq(|ms|, i requires 0 <= i < |ms| => (xs[0], ms[i]));
      var r := head + rest;
      assert forall i :: 0 <= i < |r| ==> r[i] == (if i < |head| then head[i] else rest[i - |head|]);
      r
  }

  /** The inner join holds exactly the matching pairs. */
  lemma {:induction false} InnerJoinExactly<A, B, K>(xs: seq<A>, ys: seq<B>, kx: A -> K, ky: B -> K, x: A, y: B)
    ensures (x, y) in InnerJoin(xs, ys, kx, ky) <==> x in xs && y in ys && kx(x) == ky(y)
    decreases |xs|
  {
    if x in xs && y in ys && kx(x) == ky(y) {
      var ms := Matching(ys, ky, kx(xs[0]));
      var head := seq(|ms|, i requires 0 <= i < |ms| => (xs[0], ms[i]));
      assert InnerJoin(xs, ys, kx, ky) == head + InnerJoin(xs[1..], ys, kx, ky);
      if xs[0] == x {
        assert y in ms;
        var i :| 0 <= i < |ms| && ms[i] == y;
        assert head[i] == (x, y);
      } else {
        assert x in xs[1..];
        InnerJoinExactly(xs[1..], ys, kx, ky, x, y);
      }
    }
  }
}
