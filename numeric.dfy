/**
 * Numbers as pandas and numpy compute them. Counts and census values are exact
 * reals (`Option<real>` when a cell may be missing); a quotient may also be one of
 * the IEEE 754 special values, which `Float` makes explicit.
 */
module Numeric {
  import opened Wrappers

  /** A float64 result: a finite number, an infinity, or NaN (signed zero is not modelled). */
  datatype Float = Finite(value: real) | PosInf | NegInf | NaN

  /** A cell that may be missing, read as a float: missing is NaN. */
  function FromOption(x: Option<real>): (r: Float)
    ensures r.NaN? <==> x.None?
    ensures x.Some? ==> r == Finite(x.value)
  {
    if x.Some? then Finite(x.value) else NaN
  }

  /** `fillna(0)` on a cell that may be missing. */
  function OrZero(x: Option<real>): real {
    x.GetOr(0.0)
  }

  /** `fillna(d)`: replaces NaN only, never an infinity. */
  function FillNa(x: Float, d: real): (r: Float)
    ensures !r.NaN?
    ensures !x.NaN? ==> r == x
  {
    if x.NaN? then Finite(d) else x
  }

  /** IEEE 754 division. A zero denominator gives an infinity of the numerator's sign, or NaN for 0/0. */
  function Div(a: Float, b: Float): (r: Float)
    ensures a.Finite? && b.Finite? && b.value != 0.0 ==> r == Finite(a.value / b.value)
    ensures a.Finite? && b == Finite(0.0) ==>
              r == (if a.value > 0.0 then PosInf else if a.value < 0.0 then NegInf else NaN)
    ensures (a.NaN? || b.NaN?) ==> r.NaN?
  {
    if a.NaN? || b.NaN? then NaN
    else if a.Finite? && b.Finite? then
      if b.value != 0.0 then Finite(a.value / b.value)
      else if a.value > 0.0 then PosInf
      else if a.value < 0.0 then NegInf
      else NaN
    else if a.Finite? then Finite(0.0)
    else if b.Finite? then
      (if (a.PosInf? && b.value >= 0.0) || (a.NegInf? && b.value < 0.0) then PosInf else NegInf)
    else NaN
  }

  /** Multiplication by a positive constant (the `* 100` and `* 1000` of the rate formulas). */
  function Scale(a: Float, k: real): (r: Float)
    requires k > 0.0
    ensures a.Finite? ==> r == Finite(a.value * k)
    ensures !a.Finite? ==> r == a
  {
    if a.Finite? then Finite(a.value * k) else a
  }

  /** `x >= c` for a float; every comparison with NaN is false. */
  predicate AtLeast(x: Float, c: real) {
    match x
    case Finite(v) => v >= c
    case PosInf => true
    case NegInf => false
    case NaN => false
  }

  /** `x > c` for a float. */
  predicate Above(x: Float, c: real) {
    match x
    case Finite(v) => v > c
    case PosInf => true
    case NegInf => false
    case NaN => false
  }

  /** `x <= c` for a float. */
  predicate AtMost(x: Float, c: real) {
    match x
    case Finite(v) => v <= c
    case PosInf => false
    case NegInf => true
    case NaN => false
  }

  /** Sum of a sequence of reals. */
  function Sum(xs: seq<real>): real
    decreases |xs|
  {
    if xs == [] then 0.0 else Sum(xs[..|xs| - 1]) + xs[|xs| - 1]
  }

  /** pandas `sum()` of a column: missing cells are skipped, so an all-missing column sums to 0. */
  function SumSkipNa(xs: seq<Option<real>>): real
    decreases |xs|
  {
    if xs == [] then 0.0 else SumSkipNa(xs[..|xs| - 1]) + OrZero(xs[|xs| - 1])
  }

  lemma {:induction false} SumAppend(xs: seq<real>, ys: seq<real>)
    ensures Sum(xs + ys) == Sum(xs) + Sum(ys)
    decreases |ys|
  {
    if ys == [] {
      assert xs + ys == xs;
    } else {
      var zs := ys[..|ys| - 1];
      assert (xs + ys)[..|xs + ys| - 1] == xs + zs;
      SumAppend(xs, zs);
    }
  }

  lemma {:induction false} SumSkipNaAppend(xs: seq<Option<real>>, ys: seq<Option<real>>)
    ensures SumSkipNa(xs + ys) == SumSkipNa(xs) + SumSkipNa(ys)
    decreases |ys|
  {
    if ys == [] {
      assert xs + ys == xs;
    } else {
      var zs := ys[..|ys| - 1];
      assert (xs + ys)[..|xs + ys| - 1] == xs + zs;
      SumSkipNaAppend(xs, zs);
    }
  }

  /** IEEE 754 addition. Opposite infinities give NaN. */
  function Add(a: Float, b: Float): (r: Float)
    ensures a.Finite? && b.Finite? ==> r == Finite(a.value + b.value)
    ensures (a.NaN? || b.NaN?) ==> r.NaN?
  {
    if a.NaN? || b.NaN? then NaN
    else if a.Finite? && b.Finite? then Finite(a.value + b.value)
    else if a.Finite? then b
    else if b.Finite? then a
    else if a == b then a
    else NaN
  }

  /** IEEE 754 multiplication. Zero times an infinity gives NaN. */
  function Mul(a: Float, b: Float): (r: Float)
    ensures a.Finite? && b.Finite? ==> r == Finite(a.value * b.value)
    ensures (a.NaN? || b.NaN?) ==> r.NaN?
  {
    if a.NaN? || b.NaN? then NaN
    else if a.Finite? && b.Finite? then Finite(a.value * b.value)
    else
      var sa := if a.Finite? then (if a.value > 0.0 then 1 else if a.value < 0.0 then -1 else 0)
                else if a.PosInf? then 1 else -1;
      var sb := if b.Finite? then (if b.value > 0.0 then 1 else if b.value < 0.0 then -1 else 0)
                else if b.PosInf? then 1 else -1;
      if sa * sb > 0 then PosInf else if sa * sb < 0 then NegInf else NaN
  }

  /**
   * pandas `sum()` of a float column: NaN entries are skipped, so an empty or
   * all-NaN column sums to 0; infinities are added as IEEE 754 does.
   */
  function NanSum(xs: seq<Float>): Float
    decreases |xs|
  {
    if xs == [] then Finite(0.0)
    else
      var last := xs[|xs| - 1];
      var acc := NanSum(xs[..|xs| - 1]);
      if last.NaN? then acc else Add(acc, last)
  }

  /** The sum of the finite entries (NaN skipped). */
  function FiniteSum(xs: seq<Float>): real
    decreases |xs|
  {
    if xs == [] then 0.0
    else FiniteSum(xs[..|xs| - 1]) + (if xs[|xs| - 1].Finite? then xs[|xs| - 1].value else 0.0)
  }

  /** Without infinities a NaN-skipping sum is finite: the sum of the finite entries. */
  lemma {:induction false} NanSumFinite(xs: seq<Float>)
    requires forall i :: 0 <= i < |xs| ==> xs[i].Finite? || xs[i].NaN?
    ensures NanSum(xs) == Finite(FiniteSum(xs))
    decreases |xs|
  {
    if xs != [] {
      NanSumFinite(xs[..|xs| - 1]);
    }
  }

  /** Extending a slice by one entry adds that entry (missing counts as 0). */
  lemma SumSkipNaExtend(xs: seq<Option<real>>, i: nat, j: nat)
    requires i <= j < |xs|
    ensures SumSkipNa(xs[i..j + 1]) == SumSkipNa(xs[i..j]) + OrZero(xs[j])
  {
    assert xs[i..j + 1][..j - i] == xs[i..j];
  }
}
