/**
 * Scalars as NumPy/xarray see them: a floating-point cell is either a real
 * number or NaN. NaN is `None`; every ordered comparison involving it is
 * false, and arithmetic on it yields NaN again.
 */
module Values {

  datatype Option<+T> = None | Some(value: T)

  /** One cell of a floating-point array; `None` stands for NaN. */
  type Value = Option<real>

  function Abs(x: real): (r: real)
    ensures r >= 0.0
    ensures r == x || r == -x
  {
    if x < 0.0 then -x else x
  }

  function AbsV(v: Value): (r: Value)
    ensures r.Some? <==> v.Some?
    ensures r.Some? ==> r.value >= 0.0 && (r.value == v.value || r.value == -v.value)
  {
    if v.Some? then Some(Abs(v.value)) else None
  }

  function Sub(a: Value, b: Value): (r: Value)
    ensures r.Some? <==> a.Some? && b.Some?
    ensures r.Some? ==> r.value + b.value == a.value
  {
    if a.Some? && b.Some? then Some(a.value - b.value) else None
  }

  function Mul(a: Value, b: Value): (r: Value)
    ensures r.Some? <==> a.Some? && b.Some?
  {
    if a.Some? && b.Some? then Some(a.value * b.value) else None
  }

  /**
   * Cell-wise division. A zero divisor gives NaN: NumPy gives +-inf for a
   * non-zero numerator, which this model does not represent, so every
   * quotient by zero is treated as undecidable.
   */
  function Div(a: Value, b: Value): (r: Value)
    ensures r.Some? <==> a.Some? && b.Some? && b.value != 0.0
    ensures r.Some? ==> r.value * b.value == a.value
  {
    if a.Some? && b.Some? && b.value != 0.0 then Some(a.value / b.value) else None
  }

  /** NumPy `a > b`: false as soon as either side is NaN. */
  predicate Gt(a: Value, b: Value)
  {
    a.Some? && b.Some? && a.value > b.value
  }

  /** NumPy `a >= b`: false as soon as either side is NaN. */
  predicate Ge(a: Value, b: Value)
  {
    a.Some? && b.Some? && a.value >= b.value
  }

  /** NumPy `v == x` for a number `x`: false when `v` is NaN. */
  predicate EqNum(v: Value, x: real)
  {
    v.Some? && v.value == x
  }

  /** A boolean array element as a number (`True` is 1, `False` is 0). */
  function FromBool(b: bool): (r: Value)
    ensures r.Some?
    ensures EqNum(r, 1.0) <==> b
  {
    Some(if b then 1.0 else 0.0)
  }

  /** Truth value of an element used as an `xr.where` condition: NaN is truthy. */
  predicate Truthy(v: Value)
  {
    v.None? || v.value != 0.0
  }

  lemma TruthyFromBool(b: bool)
    ensures Truthy(FromBool(b)) <==> b
  {
  }

  /** Sum of a sequence of reals. */
  function Sum(s: seq<real>): real
  {
    if |s| == 0 then 0.0 else s[0] + Sum(s[1..])
  }

  lemma {:induction false} SumAppend(a: seq<real>, b: seq<real>)
    ensures Sum(a + b) == Sum(a) + Sum(b)
    decreases |a|
  {
    if |a| == 0 {
      assert a + b == b;
    } else {
      assert (a + b)[1..] == a[1..] + b;
      SumAppend(a[1..], b);
    }
  }

  /** Every element bounded by `lo` and `hi` bounds the sum by `n*lo` and `n*hi`. */
  lemma {:induction false} SumBounds(s: seq<real>, lo: real, hi: real)
    requires forall k :: 0 <= k < |s| ==> lo <= s[k] <= hi
    ensures |s| as real * lo <= Sum(s) <= |s| as real * hi
    decreases |s|
  {
    if |s| > 0 {
      SumBounds(s[1..], lo, hi);
    }
  }

  predicate AllDefined(s: seq<Value>)
  {
    forall k :: 0 <= k < |s| ==> s[k].Some?
  }

  /** The numbers of a sequence with no NaN in it. */
  function Reals(s: seq<Value>): (r: seq<real>)
    requires AllDefined(s)
    ensures |r| == |s|
    ensures forall k :: 0 <= k < |s| ==> Some(r[k]) == s[k]
  {
    seq(|s|, k requires 0 <= k < |s| => s[k].value)
  }

  /**
   * Mean with xarray's default `min_periods` (the window length): a single
   * NaN in the window makes the mean NaN.
   */
  function Mean(s: seq<Value>): (r: Value)
    requires |s| > 0
    ensures r.Some? <==> AllDefined(s)
    ensures r.Some? ==> r.value * (|s| as real) == Sum(Reals(s))
  {
    if AllDefined(s) then Some(Sum(Reals(s)) / |s| as real) else None
  }

  /** A mean lies between the smallest and the largest value averaged. */
  lemma MeanWithin(s: seq<Value>, lo: real, hi: real)
    requires |s| > 0
    requires forall k :: 0 <= k < |s| ==> s[k].Some? && lo <= s[k].value <= hi
    ensures Mean(s).Some?
    ensures lo <= Mean(s).value <= hi
  {
    var xs := Reals(s);
    SumBounds(xs, lo, hi);
    var n := |s| as real;
    var m := Mean(s).value;
    assert m * n == Sum(xs);
    assert n * lo <= m * n <= n * hi;
  }

  /**
   * Dividing two means over the same number of cells is dividing their
   * sums: the window length cancels.
   */
  lemma RatioOfMeans(a: seq<Value>, p: seq<Value>)
    requires |a| == |p| > 0
    requires AllDefined(a) && AllDefined(p)
    requires Sum(Reals(p)) != 0.0
    ensures Div(Mean(a), Mean(p)) == Some(Sum(Reals(a)) / Sum(Reals(p)))
  {
    var n := |a| as real;
    var sa, sp := Sum(Reals(a)), Sum(Reals(p));
    var ma, mp := Mean(a).value, Mean(p).value;
    assert mp * n == sp;
    assert mp != 0.0;
    var q := ma / mp;
    assert q * mp == ma;
    assert q * sp == q * (mp * n) == (q * mp) * n == ma * n == sa;
    assert q == sa / sp;
  }

  /** A window whose divisor sums to zero has a zero mean: the quotient of the means is NaN. */
  lemma ZeroSumMeanQuotient(a: seq<Value>, p: seq<Value>)
    requires |a| == |p| > 0
    requires AllDefined(a) && AllDefined(p)
    requires Sum(Reals(p)) == 0.0
    ensures Div(Mean(a), Mean(p)) == None
  {
    var n := |p| as real;
    var mp := Mean(p).value;
    assert mp * n == 0.0;
  }
}
