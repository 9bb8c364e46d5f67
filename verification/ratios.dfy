/**
 * The ratio engine of `ETAnalysis`: the local ratio ETa/ETp and its
 * day-over-day change (`compute_ratio_ETap_local`), the spatial window
 * (`compute_regional_ETap`) and the regional ratio of windowed means and
 * its change (`compute_ratio_ETap_regional`).
 */
module Ratios {
  import opened Values
  import opened Cubes
  import opened Rolling
  import opened Datasets
  import opened Smoothing

  const LocalRatioName: string := "ratio_ETap_local"
  const LocalDiffName: string := "ratio_ETap_local_diff"
  const LocalAvgName: string := "ratio_ETap_local_time_avg"
  const RegionalRatioName: string := "ratio_ETap_regional_spatial_avg"
  const RegionalDiffName: string := "ratio_ETap_regional_diff"
  const RegionalAvgName: string := "ratio_ETap_regional_spatial_avg_time_avg"

  lemma AvgNames()
    ensures TimeAvgName(LocalRatioName) == LocalAvgName
    ensures TimeAvgName(RegionalRatioName) == RegionalAvgName
  {
  }

  /** `q` is ETa/ETp: defined where both are and ETp is non-zero, and then `q * ETp == ETa`. */
  ghost predicate IsRatioOf(q: Cube<Value>, eta: Cube<Value>, etp: Cube<Value>, nt: nat, ny: nat, nx: nat)
  {
    && IsCube(q, nt, ny, nx) && IsCube(eta, nt, ny, nx) && IsCube(etp, nt, ny, nx)
    && forall t, i, j :: 0 <= t < nt && 0 <= i < ny && 0 <= j < nx ==>
      && (q[t][i][j].Some? <==> eta[t][i][j].Some? && etp[t][i][j].Some? && etp[t][i][j].value != 0.0)
      && (q[t][i][j].Some? ==> q[t][i][j].value * etp[t][i][j].value == eta[t][i][j].value)
  }

  function RatioCube(eta: Cube<Value>, etp: Cube<Value>, ny: nat, nx: nat): (q: Cube<Value>)
    requires IsCube(eta, |eta|, ny, nx) && IsCube(etp, |eta|, ny, nx)
    ensures IsRatioOf(q, eta, etp, |eta|, ny, nx)
  {
    ZipCube(eta, etp, ny, nx, Div)
  }

  /** `d` is the size of the step from `before` to `after`. */
  predicate IsAbsStep(d: Value, before: Value, after: Value)
  {
    && (d.Some? <==> before.Some? && after.Some?)
    && (d.Some? ==> d.value >= 0.0 && (d.value == after.value - before.value || d.value == before.value - after.value))
  }

  /** `abs(r.diff(dim="time"))`: one step shorter than `r`. */
  function AbsTimeDiff(r: Cube<Value>, ny: nat, nx: nat): (d: Cube<Value>)
    requires IsCube(r, |r|, ny, nx)
    ensures IsCube(d, if |r| == 0 then 0 else |r| - 1, ny, nx)
    ensures forall t, i, j :: 0 <= t < |d| && 0 <= i < ny && 0 <= j < nx ==>
      IsAbsStep(d[t][i][j], r[t][i][j], r[t + 1][i][j])
  {
    if |r| == 0 then []
    else
      seq(|r| - 1, t requires 0 <= t < |r| - 1 =>
        seq(ny, i requires 0 <= i < ny =>
          seq(nx, j requires 0 <= j < nx => AbsV(Sub(r[t + 1][i][j], r[t][i][j])))))
  }

  /**
   * `d` is the difference as stored in the dataset: assigning it reindexes
   * it onto the full time axis, so the first step is NaN and step `t`
   * holds the change from `t - 1` to `t`.
   */
  ghost predicate IsStoredDiffOf(d: Cube<Value>, r: Cube<Value>, nt: nat, ny: nat, nx: nat)
  {
    && IsCube(d, nt, ny, nx) && IsCube(r, nt, ny, nx)
    && forall t, i, j :: 0 <= t < nt && 0 <= i < ny && 0 <= j < nx ==>
      if t == 0 then d[t][i][j].None? else IsAbsStep(d[t][i][j], r[t - 1][i][j], r[t][i][j])
  }

  function StoredTimeDiff(r: Cube<Value>, ny: nat, nx: nat): (d: Cube<Value>)
    requires IsCube(r, |r|, ny, nx)
    ensures IsStoredDiffOf(d, r, |r|, ny, nx)
  {
    if |r| == 0 then [] else [NanGrid(ny, nx)] + AbsTimeDiff(r, ny, nx)
  }

  /**
   * The tail both ratio computations share: stores `ratio` under `name`,
   * its difference under `diffName`, and, when a time window is given,
   * the smoothed ratio under `name` + `_time_avg`. Storing the difference
   * aligns it on the time index, so it fails without a time coordinate
   * (the difference is one step shorter than the dataset) or with a
   * repeated timestamp (a non-unique index cannot be aligned on).
   */
  function StoreRatio(ds: Dataset, ratio: Cube<Value>, name: string, diffName: string, timeWindow: Option<int>,
                      centring: Centring): (r: Result<Dataset>)
    requires WellFormed(ds) && Shaped(ds, ratio) && name != diffName && diffName != TimeAvgName(name)
    ensures r.Ok? <==> TimeIndexed(ds) && (timeWindow.Some? ==> timeWindow.value >= 1)
    ensures ds.time.None? ==> r == Err(MissingTimeCoordinate)
    ensures ds.time.Some? && !Distinct(ds.time.value) ==> r == Err(DuplicateTimestamps)
    ensures r.Ok? ==>
      && Extends(r.value, ds, {name, diffName} + (if timeWindow.Some? then {TimeAvgName(name)} else {}))
      && r.value.vars[name] == ratio
      && IsStoredDiffOf(r.value.vars[diffName], ratio, ds.nt, |ds.y|, |ds.x|)
      && (timeWindow.Some? ==>
            SmoothedOf(r.value.vars[TimeAvgName(name)], ratio, GapMask(ds.time.value),
                       timeWindow.value, CentreOffset(centring, timeWindow.value), ds.nt, |ds.y|, |ds.x|))
  {
    if ds.time.None? then Err(MissingTimeCoordinate)
    else if !Distinct(ds.time.value) then Err(DuplicateTimestamps)
    else
      var ds0 := Put(ds, name, ratio);
      var ds1 := Put(ds0, diffName, StoredTimeDiff(ratio, |ds.y|, |ds.x|));
      ExtendsTrans(ds1, ds0, ds, {name}, {diffName});
      assert ds1.vars[name] == ratio;
      if timeWindow.Some? then
        var r := ApplyTimeWindowMean(ds1, name, timeWindow.value, centring);
        if r.Ok? then
          ExtendsTrans(r.value, ds1, ds, {name, diffName}, {TimeAvgName(name)});
          r
        else r
      else Ok(ds1)
  }

  /**
   * `compute_ratio_ETap_local`: adds the local ratio and its stored
   * difference, then, when a time window is given, the smoothed ratio.
   * Every other variable is left as it was.
   */
  function ComputeRatioLocal(ds: Dataset, etaName: string, etpName: string, timeWindow: Option<int>,
                             centring: Centring): (r: Result<Dataset>)
    requires WellFormed(ds)
    ensures r.Ok? <==>
      && etaName in ds.vars && etpName in ds.vars
      && TimeIndexed(ds) && (timeWindow.Some? ==> timeWindow.value >= 1)
    ensures r.Ok? ==>
      && Extends(r.value, ds, {LocalRatioName, LocalDiffName} + (if timeWindow.Some? then {LocalAvgName} else {}))
      && IsRatioOf(r.value.vars[LocalRatioName], ds.vars[etaName], ds.vars[etpName], ds.nt, |ds.y|, |ds.x|)
      && IsStoredDiffOf(r.value.vars[LocalDiffName], r.value.vars[LocalRatioName], ds.nt, |ds.y|, |ds.x|)
      && (timeWindow.Some? ==>
            SmoothedOf(r.value.vars[LocalAvgName], r.value.vars[LocalRatioName], GapMask(ds.time.value),
                       timeWindow.value, CentreOffset(centring, timeWindow.value), ds.nt, |ds.y|, |ds.x|))
  {
    if etaName !in ds.vars then Err(MissingVariable(etaName))
    else if etpName !in ds.vars then Err(MissingVariable(etpName))
    else
      AvgNames();
      StoreRatio(ds, RatioCube(ds.vars[etaName], ds.vars[etpName], |ds.y|, |ds.x|),
                 LocalRatioName, LocalDiffName, timeWindow, centring)
  }

  /** Grid spacing from the first two coordinates, whichever way the axis runs. */
  function Resolution(c: seq<real>): (res: real)
    requires |c| >= 2
    ensures res >= 0.0
    ensures res == c[1] - c[0] || res == c[0] - c[1]
  {
    Abs(c[1] - c[0])
  }

  /**
   * On an evenly spaced axis the resolution is the size of the step,
   * whichever way the axis runs: an ascending axis with step `h` and a
   * descending one with step `-h` have the same resolution.
   */
  lemma EvenResolution(c: seq<real>, h: real)
    requires |c| >= 2
    requires forall k :: 0 <= k < |c| ==> c[k] == c[0] + (k as real) * h
    ensures Resolution(c) == Abs(h) == Abs(-h)
  {
    assert c[1] == c[0] + h;
  }

  /** Python's `int()` of a finite float: truncation toward zero. */
  function Trunc(r: real): (n: int)
    ensures r >= 0.0 ==> 0 <= n && n as real <= r < n as real + 1.0
    ensures r < 0.0 ==> n <= 0 && n as real - 1.0 < r <= n as real
  {
    if r >= 0.0 then r.Floor else -((-r).Floor)
  }

  lemma {:induction false} TruncMonotone(a: real, b: real)
    requires a <= b
    ensures Trunc(a) <= Trunc(b)
  {
    if a >= 0.0 {
      assert a.Floor <= b.Floor;
    } else if b < 0.0 {
      assert (-b).Floor <= (-a).Floor;
    }
  }

  /** `max(1, int(size / res))`: cells per window, never fewer than one. */
  function WindowCells(size: real, res: real): (n: nat)
    requires res > 0.0
    ensures n >= 1
  {
    var k := Trunc(size / res);
    if k > 1 then k else 1
  }

  /**
   * A window at least one cell wide holds as many whole cells as fit in
   * it; a narrower one is rounded up to a single cell.
   */
  lemma WindowCellsFit(size: real, res: real)
    requires res > 0.0
    ensures size >= res ==>
      && (WindowCells(size, res) as real) * res <= size
      && size - (WindowCells(size, res) as real) * res < res
    ensures size < 2.0 * res ==> WindowCells(size, res) == 1
  {
    var q := size / res;
    QuotientBounds(size, res, q);
    if size >= res {
      FitFromQuotient(size, res, q, Trunc(q));
    }
  }

  lemma QuotientBounds(size: real, res: real, q: real)
    requires res > 0.0 && q == size / res
    ensures q * res == size
    ensures size >= res ==> q >= 1.0
    ensures size < 2.0 * res ==> q < 2.0
  {
    ProductSigns(q - 1.0, res);
    ProductSigns(2.0 - q, res);
  }

  lemma FitFromQuotient(size: real, res: real, q: real, n: int)
    requires res > 0.0 && q * res == size && n as real <= q < n as real + 1.0
    ensures (n as real) * res <= size
    ensures size - (n as real) * res < res
  {
    var d := q - n as real;
    assert size - (n as real) * res == d * res;
    ProductSigns(d, res);
    ProductSigns(1.0 - d, res);
    assert (1.0 - d) * res == res - d * res;
  }

  lemma ProductSigns(a: real, b: real)
    requires b > 0.0
    ensures a >= 0.0 <==> a * b >= 0.0
    ensures a > 0.0 <==> a * b > 0.0
  {
  }

  /** A wider window never has fewer cells. */
  lemma WindowCellsMonotone(size1: real, size2: real, res: real)
    requires res > 0.0 && size1 <= size2
    ensures WindowCells(size1, res) <= WindowCells(size2, res)
  {
    assert size2 / res - size1 / res == (size2 - size1) / res;
    TruncMonotone(size1 / res, size2 / res);
  }

  /** The spatial prerequisites of `compute_regional_ETap`. */
  predicate SpatialOk(ds: Dataset)
  {
    && "x" in ds.dims && "y" in ds.dims
    && |ds.x| >= 2 && |ds.y| >= 2
    && ds.x[1] != ds.x[0] && ds.y[1] != ds.y[0]
  }

  /** A centred spatial window: `wy` rows, `wx` columns, with their offsets. */
  datatype SpatialWindow = SpatialWindow(wy: nat, oy: nat, wx: nat, ox: nat)
  {
    predicate Valid()
    {
      oy < wy && ox < wx
    }
  }

  /** The window for physical sizes `sizeX` by `sizeY` on the grid of `ds`. */
  function RegionalWindow(ds: Dataset, sizeX: real, sizeY: real, centring: Centring): (win: SpatialWindow)
    requires SpatialOk(ds)
    ensures win.Valid()
    ensures win.wy == WindowCells(sizeY, Resolution(ds.y)) && win.wx == WindowCells(sizeX, Resolution(ds.x))
    ensures -1 <= 2 * win.oy - (win.wy - 1) <= 1 && -1 <= 2 * win.ox - (win.wx - 1) <= 1
    ensures win.wy % 2 == 1 ==> 2 * win.oy == win.wy - 1
    ensures win.wx % 2 == 1 ==> 2 * win.ox == win.wx - 1
  {
    var wy := WindowCells(sizeY, Resolution(ds.y));
    var wx := WindowCells(sizeX, Resolution(ds.x));
    SpatialWindow(wy, CentreOffset(centring, wy), wx, CentreOffset(centring, wx))
  }

  /** `c` rolled with `win`, time step by time step. */
  ghost predicate IsRolledBy(r: Cube<Value>, c: Cube<Value>, win: SpatialWindow, nt: nat, ny: nat, nx: nat)
    requires win.Valid()
  {
    && IsCube(r, nt, ny, nx) && IsCube(c, nt, ny, nx)
    && forall t, i, j :: 0 <= t < nt && 0 <= i < ny && 0 <= j < nx ==>
      r[t][i][j] == SpatialCell(c[t], nx, i, j, win.wy, win.oy, win.wx, win.ox)
  }

  /**
   * `compute_regional_ETap`: rejects a dataset without both spatial
   * dimensions; otherwise every variable is replaced by its centred
   * spatial rolling mean. Too few coordinates (`x[1]` out of range) or a
   * zero spacing (`int()` of an infinite or NaN count) also raise.
   */
  function ComputeRegionalETap(ds: Dataset, sizeX: real, sizeY: real, centring: Centring): (r: Result<Dataset>)
    requires WellFormed(ds)
    ensures r == Err(MissingSpatialDims) <==> !("x" in ds.dims && "y" in ds.dims)
    ensures r.Ok? <==> SpatialOk(ds)
    ensures r.Ok? ==>
      && WellFormed(r.value)
      && r.value.(vars := ds.vars) == ds
      && r.value.vars.Keys == ds.vars.Keys
      && forall k :: k in ds.vars ==>
           IsRolledBy(r.value.vars[k], ds.vars[k], RegionalWindow(ds, sizeX, sizeY, centring), ds.nt, |ds.y|, |ds.x|)
  {
    if !("x" in ds.dims && "y" in ds.dims) then Err(MissingSpatialDims)
    else if |ds.x| < 2 || |ds.y| < 2 then Err(TooFewCoordinates)
    else if ds.x[1] == ds.x[0] || ds.y[1] == ds.y[0] then Err(NonFiniteWindow)
    else
      var win := RegionalWindow(ds, sizeX, sizeY, centring);
      Ok(ds.(vars := map k | k in ds.vars :: RollSpace(ds.vars[k], |ds.y|, |ds.x|, win.wy, win.oy, win.wx, win.ox)))
  }

  /** The regional ratio: the windowed mean of ETa over the windowed mean of ETp. */
  ghost predicate IsRegionalRatioOf(q: Cube<Value>, eta: Cube<Value>, etp: Cube<Value>, win: SpatialWindow,
                                    nt: nat, ny: nat, nx: nat)
    requires win.Valid()
  {
    && IsCube(q, nt, ny, nx) && IsCube(eta, nt, ny, nx) && IsCube(etp, nt, ny, nx)
    && forall t, i, j :: 0 <= t < nt && 0 <= i < ny && 0 <= j < nx ==>
      q[t][i][j] == Div(SpatialCell(eta[t], nx, i, j, win.wy, win.oy, win.wx, win.ox),
                        SpatialCell(etp[t], nx, i, j, win.wy, win.oy, win.wx, win.ox))
  }

  /**
   * `compute_ratio_ETap_regional`: with `stat == "mean"` it adds the
   * regional ratio over a square physical window of `windowSize` metres,
   * its stored difference, and the smoothed ratio when a time window is
   * given; with any other `stat` the dataset comes back unchanged.
   */
  function ComputeRatioRegional(ds: Dataset, etaName: string, etpName: string, stat: string, windowSize: real,
                                timeWindow: Option<int>, centring: Centring): (r: Result<Dataset>)
    requires WellFormed(ds)
    ensures stat != "mean" ==> r == Ok(ds)
    ensures stat == "mean" && !("x" in ds.dims && "y" in ds.dims) ==> r == Err(MissingSpatialDims)
    ensures r.Ok? <==>
      stat != "mean" || (SpatialOk(ds) && etaName in ds.vars && etpName in ds.vars
       && TimeIndexed(ds) && (timeWindow.Some? ==> timeWindow.value >= 1))
    ensures r.Ok? && stat == "mean" ==>
      && Extends(r.value, ds, {RegionalRatioName, RegionalDiffName} + (if timeWindow.Some? then {RegionalAvgName} else {}))
      && IsRegionalRatioOf(r.value.vars[RegionalRatioName], ds.vars[etaName], ds.vars[etpName],
                           RegionalWindow(ds, windowSize, windowSize, centring), ds.nt, |ds.y|, |ds.x|)
      && IsStoredDiffOf(r.value.vars[RegionalDiffName], r.value.vars[RegionalRatioName], ds.nt, |ds.y|, |ds.x|)
      && (timeWindow.Some? ==>
            SmoothedOf(r.value.vars[RegionalAvgName], r.value.vars[RegionalRatioName], GapMask(ds.time.value),
                       timeWindow.value, CentreOffset(centring, timeWindow.value), ds.nt, |ds.y|, |ds.x|))
  {
    if stat != "mean" then Ok(ds)
    else
      match ComputeRegionalETap(ds, windowSize, windowSize, centring)
      case Err(e) => Err(e)
      case Ok(reg) =>
        if etaName !in reg.vars then Err(MissingVariable(etaName))
        else if etpName !in reg.vars then Err(MissingVariable(etpName))
        else
          AvgNames();
          StoreRatio(ds, RatioCube(reg.vars[etaName], reg.vars[etpName], |ds.y|, |ds.x|),
                     RegionalRatioName, RegionalDiffName, timeWindow, centring)
  }

  /** A one-cell window: the spatial mean of a cell is the cell itself. */
  lemma SingleCellMean(g: seq<seq<Value>>, nx: nat, i: nat, j: nat)
    requires IsGrid(g, |g|, nx) && i < |g| && j < nx
    ensures SpatialCell(g, nx, i, j, 1, 0, 1, 0) == g[i][j]
  {
    var b := Block(g, i, 1, j, 1);
    assert b == Block(g, i, 0, j, 1) + g[i][j .. j + 1];
    assert b == [g[i][j]];
    if g[i][j].Some? {
      assert Reals(b) == [g[i][j].value];
      assert Sum(Reals(b)) == g[i][j].value + Sum([]);
    }
  }

  /**
   * When the requested size is under two grid spacings on both axes, the
   * regional window is the cell itself.
   */
  lemma CoarseGridSingleCell(ds: Dataset, size: real, centring: Centring)
    requires SpatialOk(ds)
    requires size < 2.0 * Resolution(ds.x) && size < 2.0 * Resolution(ds.y)
    ensures RegionalWindow(ds, size, size, centring) == SpatialWindow(1, 0, 1, 0)
  {
    WindowCellsFit(size, Resolution(ds.y));
    WindowCellsFit(size, Resolution(ds.x));
  }

  /** With a one-cell window the regional ratio is the local ratio, cell by cell. */
  lemma SingleCellRatiosAgree(q: Cube<Value>, qr: Cube<Value>, eta: Cube<Value>, etp: Cube<Value>, nt: nat, ny: nat, nx: nat)
    requires IsRatioOf(q, eta, etp, nt, ny, nx)
    requires IsRegionalRatioOf(qr, eta, etp, SpatialWindow(1, 0, 1, 0), nt, ny, nx)
    ensures forall t, i, j :: 0 <= t < nt && 0 <= i < ny && 0 <= j < nx ==> qr[t][i][j] == q[t][i][j]
  {
    forall t, i, j | 0 <= t < nt && 0 <= i < ny && 0 <= j < nx
      ensures qr[t][i][j] == q[t][i][j]
    {
      SingleCellMean(eta[t], nx, i, j);
      SingleCellMean(etp[t], nx, i, j);
      if q[t][i][j].Some? {
        QuotientUnique(q[t][i][j].value, qr[t][i][j].value, etp[t][i][j].value);
      }
    }
  }

  lemma QuotientUnique(a: real, b: real, p: real)
    requires p != 0.0 && a * p == b * p
    ensures a == b
  {
    assert (a - b) * p == 0.0;
  }

  /**
   * The regional ratio of a complete, defined window is the sum of ETa
   * over the window divided by the sum of ETp, and NaN when the ETp sum
   * is zero: a ratio of window means, not a mean of per-cell ratios.
   */
  lemma RegionalRatioOfSums(q: Cube<Value>, eta: Cube<Value>, etp: Cube<Value>, win: SpatialWindow,
                            nt: nat, ny: nat, nx: nat, t: nat, i: nat, j: nat)
    requires win.Valid() && IsRegionalRatioOf(q, eta, etp, win, nt, ny, nx)
    requires t < nt && i < ny && j < nx
    requires Fits(ny, i, win.wy, win.oy) && Fits(nx, j, win.wx, win.ox)
    requires Defined2(eta[t], i, win.wy, win.oy, j, win.wx, win.ox) && Defined2(etp[t], i, win.wy, win.oy, j, win.wx, win.ox)
    ensures var be, bp := Block(eta[t], i - win.oy, win.wy, j - win.ox, win.wx), Block(etp[t], i - win.oy, win.wy, j - win.ox, win.wx);
      && AllDefined(be) && AllDefined(bp)
      && q[t][i][j] == if Sum(Reals(bp)) == 0.0 then None else Some(Sum(Reals(be)) / Sum(Reals(bp)))
  {
    var be := Block(eta[t], i - win.oy, win.wy, j - win.ox, win.wx);
    var bp := Block(etp[t], i - win.oy, win.wy, j - win.ox, win.wx);
    WindowBlockDefined(eta[t], nx, i, j, win.wy, win.oy, win.wx, win.ox);
    WindowBlockDefined(etp[t], nx, i, j, win.wy, win.oy, win.wx, win.ox);
    assert q[t][i][j] == Div(Mean(be), Mean(bp));
    if Sum(Reals(bp)) != 0.0 {
      RatioOfMeans(be, bp);
    } else {
      ZeroSumMeanQuotient(be, bp);
    }
  }

  /**
   * The two averages differ: over ETa = [1, 1] and ETp = [1, 2] the ratio
   * of means is 2/3 while the mean of the per-cell ratios is 3/4.
   */
  lemma RatioOfMeansIsNotMeanOfRatios()
    ensures Div(Mean([Some(1.0), Some(1.0)]), Mean([Some(1.0), Some(2.0)])) == Some(2.0 / 3.0)
    ensures Mean([Div(Some(1.0), Some(1.0)), Div(Some(1.0), Some(2.0))]) == Some(0.75)
  {
    var a, p := [Some(1.0), Some(1.0)], [Some(1.0), Some(2.0)];
    assert Reals(a) == [1.0, 1.0] && Reals(p) == [1.0, 2.0];
    assert Sum([1.0, 2.0]) == 1.0 + Sum([2.0]) == 1.0 + (2.0 + Sum([]));
    assert Sum([1.0, 1.0]) == 1.0 + Sum([1.0]) == 1.0 + (1.0 + Sum([]));
    RatioOfMeans(a, p);
    var r := [Div(Some(1.0), Some(1.0)), Div(Some(1.0), Some(2.0))];
    assert r == [Some(1.0), Some(0.5)];
    assert Reals(r) == [1.0, 0.5];
    assert Sum([1.0, 0.5]) == 1.0 + Sum([0.5]) == 1.0 + (0.5 + Sum([]));
  }
}
