/**
 * Water accounting: ETa depths in mm/day become per-pixel volumes in
 * m³/day, using a pixel area estimated from the coordinate spacing.
 */
module Accounting {
  import opened Values
  import opened Cubes
  import opened Datasets

  /** `np.diff`: the steps between consecutive coordinates. */
  function Diffs(c: seq<real>): (d: seq<real>)
    ensures |d| == if |c| == 0 then 0 else |c| - 1
  {
    if |c| < 2 then [] else [c[1] - c[0]] + Diffs(c[1..])
  }

  /** The steps of an axis add up to the distance from its first to its last coordinate. */
  lemma {:induction false} DiffsTelescope(c: seq<real>)
    requires |c| >= 1
    ensures Sum(Diffs(c)) == c[|c| - 1] - c[0]
    decreases |c|
  {
    if |c| >= 2 {
      var rest := c[1..];
      DiffsTelescope(rest);
      assert ([c[1] - c[0]] + Diffs(rest))[1..] == Diffs(rest);
    }
  }

  /** `np.mean` of plain numbers: NaN for an empty array. */
  function MeanOf(s: seq<real>): (r: Value)
    ensures r.Some? <==> |s| > 0
    ensures r.Some? ==> r.value * (|s| as real) == Sum(s)
  {
    if |s| == 0 then None else Some(Sum(s) / |s| as real)
  }

  /**
   * `np.abs(np.diff(c).mean())`: the mean step of an axis, NaN for fewer
   * than two coordinates.
   */
  function Spacing(c: seq<real>): (r: Value)
    ensures r.Some? <==> |c| >= 2
    ensures r.Some? ==> r.value >= 0.0
  {
    AbsV(MeanOf(Diffs(c)))
  }

  /**
   * The mean step times the number of steps is the extent of the axis,
   * whether or not the spacing is uniform.
   */
  lemma SpacingIsExtentPerStep(c: seq<real>)
    requires |c| >= 2
    ensures Spacing(c).value * ((|c| - 1) as real) == Abs(c[|c| - 1] - c[0])
  {
    var d := Diffs(c);
    var m := MeanOf(d).value;
    DiffsTelescope(c);
    var n := (|c| - 1) as real;
    assert |d| as real == n;
    SpacingOfMean(m, n, Sum(d));
  }

  /** |m| * n == |m * n| for a positive count `n`. */
  lemma SpacingOfMean(m: real, n: real, extent: real)
    requires n > 0.0 && m * n == extent
    ensures Abs(m) * n == Abs(extent)
  {
    if m < 0.0 {
      assert extent < 0.0;
    }
  }

  /** Equal factors give equal products. */
  lemma FactorsEqual(a: real, b: real, c: real, d: real)
    requires a == c && b == d
    ensures a * b == c * d
  {
  }

  /** Dividing out a positive factor. */
  lemma Cancel(a: real, b: real, n: real, e: real)
    requires n > 0.0 && a * n == e && b * n == e
    ensures a == b
  {
  }

  /**
   * `compute_pixel_area`: the product of the mean spacings of the two
   * axes, NaN when either axis has fewer than two coordinates.
   */
  function PixelArea(x: seq<real>, y: seq<real>): (r: Value)
    ensures r.Some? <==> |x| >= 2 && |y| >= 2
    ensures r.Some? ==> r.value >= 0.0
    ensures r.Some? ==> r.value == Spacing(x).value * Spacing(y).value
  {
    Mul(Spacing(x), Spacing(y))
  }

  /** On an evenly spaced axis the mean spacing is the step itself. */
  lemma EvenSpacing(c: seq<real>, h: real)
    requires |c| >= 2
    requires forall k :: 0 <= k < |c| ==> c[k] == c[0] + (k as real) * h
    ensures Spacing(c) == Some(Abs(h))
  {
    var n := (|c| - 1) as real;
    var s := Spacing(c).value;
    SpacingIsExtentPerStep(c);
    assert c[|c| - 1] - c[0] == n * h;
    SpacingOfMean(h, n, n * h);
    assert s * n == Abs(h) * n;
  }

  /** A regular grid with steps `hx` and `hy` has pixels of area |hx|·|hy|. */
  lemma RegularGridArea(x: seq<real>, y: seq<real>, hx: real, hy: real)
    requires |x| >= 2 && |y| >= 2
    requires forall k :: 0 <= k < |x| ==> x[k] == x[0] + (k as real) * hx
    requires forall k :: 0 <= k < |y| ==> y[k] == y[0] + (k as real) * hy
    ensures PixelArea(x, y) == Some(Abs(hx) * Abs(hy))
  {
    EvenSpacing(x, hx);
    EvenSpacing(y, hy);
    assert PixelArea(x, y).Some?;
    assert PixelArea(x, y).value == Spacing(x).value * Spacing(y).value;
    assert PixelArea(x, y).value == Abs(hx) * Abs(hy);
  }

  function Reverse(c: seq<real>): (r: seq<real>)
    ensures |r| == |c|
    ensures forall k :: 0 <= k < |c| ==> r[k] == c[|c| - 1 - k]
  {
    seq(|c|, k requires 0 <= k < |c| => c[|c| - 1 - k])
  }

  /**
   * The spacing does not depend on the direction of the axis: a `y`
   * coordinate that decreases, as north-up rasters have it, gives the same
   * pixel area as the same axis increasing.
   */
  lemma ReversedAxisSpacing(c: seq<real>)
    ensures Spacing(Reverse(c)) == Spacing(c)
  {
    if |c| >= 2 {
      var r := Reverse(c);
      SpacingIsExtentPerStep(c);
      SpacingIsExtentPerStep(r);
      assert r[0] == c[|c| - 1] && r[|r| - 1] == c[0];
      var a, b, n := Spacing(r).value, Spacing(c).value, (|c| - 1) as real;
      var e := Abs(c[|c| - 1] - c[0]);
      assert Abs(r[|r| - 1] - r[0]) == e;
      FactorsEqual(a, (|r| - 1) as real, a, n);
      Cancel(a, b, n, e);
    }
  }

  /**
   * `et_mm_day_to_m3_day` on one cell: a depth of `eta` millimetres over
   * `area` square metres is `eta * area / 1000` cubic metres.
   */
  function Volume(eta: Value, area: Value): (r: Value)
    ensures r.Some? <==> eta.Some? && area.Some?
    ensures r.Some? ==> r.value * 1000.0 == eta.value * area.value
  {
    Mul(Div(eta, Some(1000.0)), area)
  }

  /** The depth a volume spreads to over a pixel: the inverse of `Volume`. */
  function Depth(volume: Value, area: Value): (r: Value)
    ensures r.Some? <==> volume.Some? && area.Some? && area.value != 0.0
    ensures r.Some? ==> r.value * area.value == volume.value * 1000.0
  {
    Div(Mul(volume, Some(1000.0)), area)
  }

  /** Converting a depth to a volume and back over a pixel of non-zero area gives the depth again. */
  lemma DepthOfVolume(eta: Value, area: Value)
    requires area.Some? && area.value != 0.0
    ensures Depth(Volume(eta, area), area) == eta
  {
    if eta.Some? {
      var v := Volume(eta, area).value;
      var d := Depth(Volume(eta, area), area).value;
      assert d * area.value == eta.value * area.value;
    }
  }

  /** The conversion is linear in the depth: scaling and adding depths scales and adds volumes. */
  lemma VolumeLinear(k: real, e1: real, e2: real, area: real)
    ensures Volume(Some(k * e1 + e2), Some(area)).value
         == k * Volume(Some(e1), Some(area)).value + Volume(Some(e2), Some(area)).value
  {
    var v1, v2 := Volume(Some(e1), Some(area)).value, Volume(Some(e2), Some(area)).value;
    var v := Volume(Some(k * e1 + e2), Some(area)).value;
    assert v * 1000.0 == (k * e1 + e2) * area;
    assert (k * v1 + v2) * 1000.0 == k * (e1 * area) + e2 * area;
  }

  /** More evapotranspiration over the same pixel is never less volume, and none is none. */
  lemma VolumeMonotone(e1: real, e2: real, area: real)
    requires 0.0 <= e1 <= e2 && area >= 0.0
    ensures 0.0 <= Volume(Some(e1), Some(area)).value <= Volume(Some(e2), Some(area)).value
    ensures Volume(Some(0.0), Some(area)) == Some(0.0)
  {
    var v1, v2 := Volume(Some(e1), Some(area)).value, Volume(Some(e2), Some(area)).value;
    assert v1 * 1000.0 == e1 * area && v2 * 1000.0 == e2 * area;
    assert e1 * area <= e2 * area;
  }

  /** `et_mm_day_to_m3_day` on a whole (time, y, x) variable with one pixel area. */
  function EtToVolume(c: Cube<Value>, ny: nat, nx: nat, area: Value): (r: Cube<Value>)
    requires IsCube(c, |c|, ny, nx)
    ensures IsCube(r, |c|, ny, nx)
    ensures forall t, i, j :: 0 <= t < |c| && 0 <= i < ny && 0 <= j < nx ==>
      r[t][i][j] == Volume(c[t][i][j], area)
  {
    MapCube(c, ny, nx, v => Volume(v, area))
  }

  /**
   * `compute_water_accounting` before its temporal resampling: the ETa
   * variable (a `KeyError` when absent) converted cell by cell to m³/day
   * with the pixel area of the dataset's grid.
   */
  function ComputeWaterAccounting(ds: Dataset, variable: string): (r: Result<Cube<Value>>)
    requires WellFormed(ds)
    ensures r.Ok? <==> variable in ds.vars
    ensures r.Ok? ==> Shaped(ds, r.value)
    ensures r.Ok? ==> forall t, i, j :: 0 <= t < ds.nt && 0 <= i < |ds.y| && 0 <= j < |ds.x| ==>
      && (r.value[t][i][j].Some? <==> ds.vars[variable][t][i][j].Some? && |ds.x| >= 2 && |ds.y| >= 2)
      && (r.value[t][i][j].Some? ==>
            r.value[t][i][j].value * 1000.0 == ds.vars[variable][t][i][j].value * PixelArea(ds.x, ds.y).value)
  {
    if variable !in ds.vars then Err(MissingVariable(variable))
    else
      var eta := ds.vars[variable];
      Ok(EtToVolume(eta, |ds.y|, |ds.x|, PixelArea(ds.x, ds.y)))
  }
}
