/**
 * Temporal smoothing: `ETAnalysis.apply_time_window_mean`, which masks the
 * steps that follow a sampling gap and then takes a centred rolling mean
 * over time, and `compute_rolling_time_mean`, a trailing three-step mean
 * of every variable.
 */
module Smoothing {
  import opened Values
  import opened Cubes
  import opened Rolling
  import opened Datasets

  /** The longest step between samples, in days, that is not a gap. */
  const MaxStepDays: real := 1.1

  /**
   * Per time step, whether it may enter a temporal mean: the first step
   * always may, a later one when the step before it was at most 1.1 days
   * earlier. An empty time axis still yields the single leading `true`.
   */
  function GapMask(t: seq<int>): (m: seq<bool>)
    ensures |m| == if |t| == 0 then 1 else |t|
    ensures m[0]
  {
    [true] + seq(if |t| == 0 then 0 else |t| - 1, i requires 0 <= i < |t| - 1 =>
      (t[i + 1] - t[i]) as real / Day as real <= MaxStepDays)
  }

  /** The day-fraction test is the exact integer test `10 * d <= 11 * Day` on seconds. */
  lemma GapMaskInSeconds(t: seq<int>, i: nat)
    requires 0 < i < |t|
    ensures GapMask(t)[i] <==> 10 * (t[i] - t[i - 1]) <= 11 * Day
  {
    var d := (t[i] - t[i - 1]) as real;
    assert GapMask(t)[i] == (d / Day as real <= 1.1);
    if d / Day as real <= 1.1 {
      assert d <= 1.1 * Day as real;
    }
    if 10.0 * d <= 11.0 * Day as real {
      assert d / Day as real <= 1.1;
    }
  }

  /** Steps no longer than a day (or going back in time) never mask anything. */
  lemma NoGapNoMask(t: seq<int>)
    requires forall i :: 0 < i < |t| ==> t[i] - t[i - 1] <= Day
    ensures forall i :: 0 <= i < |GapMask(t)| ==> GapMask(t)[i]
  {
    forall i | 0 < i < |t| ensures GapMask(t)[i] {
      GapMaskInSeconds(t, i);
    }
  }

  /** A step two days after its predecessor is masked. */
  lemma TwoDayGapMasked(t: seq<int>, i: nat)
    requires 0 < i < |t| && t[i] - t[i - 1] == 2 * Day
    ensures !GapMask(t)[i]
  {
    GapMaskInSeconds(t, i);
  }

  /** `where(mask, drop=False)`: a masked step becomes NaN everywhere. */
  function MaskSteps(c: Cube<Value>, m: seq<bool>, ny: nat, nx: nat): (r: Cube<Value>)
    requires IsCube(c, |c|, ny, nx) && |c| <= |m|
    ensures IsCube(r, |c|, ny, nx)
    ensures forall t, i, j :: 0 <= t < |c| && 0 <= i < ny && 0 <= j < nx ==>
      r[t][i][j] == if m[t] then c[t][i][j] else None
  {
    seq(|c|, t requires 0 <= t < |c| => if m[t] then c[t] else NanGrid(ny, nx))
  }

  /** Name of the smoothed copy of a variable. */
  function TimeAvgName(variable: string): (name: string)
    ensures |name| > |variable| && name[..|variable|] == variable
  {
    variable + "_time_avg"
  }

  /** The values of pixel (`i`, `j`) at the `w` steps from `lo` on. */
  function Window(c: Cube<Value>, ny: nat, nx: nat, i: nat, j: nat, lo: nat, w: nat): (s: seq<Value>)
    requires IsCube(c, |c|, ny, nx) && i < ny && j < nx && lo + w <= |c|
    ensures |s| == w
    ensures forall k :: 0 <= k < w ==> s[k] == c[lo + k][i][j]
  {
    seq(w, k requires 0 <= k < w => c[lo + k][i][j])
  }

  /** No step of the window labelled `t` is masked. */
  predicate Unmasked(m: seq<bool>, t: int, w: int, off: int)
  {
    forall s :: Covers(t, w, off, s) && 0 <= s < |m| ==> m[s]
  }

  /**
   * `out` is the gap-masked centred temporal mean of `c`: a cell is the
   * mean of its pixel over the window when the window lies on the time
   * axis and no step of it is masked (a NaN in it still makes the mean
   * NaN), and NaN otherwise.
   */
  ghost predicate SmoothedOf(out: Cube<Value>, c: Cube<Value>, m: seq<bool>, w: nat, off: nat, nt: nat, ny: nat, nx: nat)
  {
    && 0 < w && |m| >= nt
    && IsCube(c, nt, ny, nx)
    && IsCube(out, nt, ny, nx)
    && forall t, i, j :: 0 <= t < nt && 0 <= i < ny && 0 <= j < nx ==>
      out[t][i][j] == if Fits(nt, t, w, off) && Unmasked(m, t, w, off) then Mean(Window(c, ny, nx, i, j, t - off, w)) else None
  }

  /** The masked rolling mean of a whole cube. */
  function SmoothCube(c: Cube<Value>, m: seq<bool>, ny: nat, nx: nat, w: nat, off: nat): (r: Cube<Value>)
    requires IsCube(c, |c|, ny, nx) && |c| <= |m| && off < w
    ensures SmoothedOf(r, c, m, w, off, |c|, ny, nx)
  {
    var masked := MaskSteps(c, m, ny, nx);
    var r := RollTime(masked, ny, nx, w, off);
    forall t, i, j | 0 <= t < |c| && 0 <= i < ny && 0 <= j < nx
      ensures r[t][i][j] == if Fits(|c|, t, w, off) && Unmasked(m, t, w, off) then Mean(Window(c, ny, nx, i, j, t - off, w)) else None
    {
      SmoothCell(c, m, ny, nx, w, off, t, i, j);
    }
    r
  }

  lemma SmoothCell(c: Cube<Value>, m: seq<bool>, ny: nat, nx: nat, w: nat, off: nat, t: nat, i: nat, j: nat)
    requires IsCube(c, |c|, ny, nx) && |c| <= |m| && off < w
    requires t < |c| && i < ny && j < nx
    ensures var masked := MaskSteps(c, m, ny, nx);
      RollTime(masked, ny, nx, w, off)[t][i][j]
      == if Fits(|c|, t, w, off) && Unmasked(m, t, w, off) then Mean(Window(c, ny, nx, i, j, t - off, w)) else None
  {
    var masked := MaskSteps(c, m, ny, nx);
    var col := Column(masked, ny, nx, i, j);
    assert RollTime(masked, ny, nx, w, off)[t][i][j] == RollMean(col, w, off)[t];
    if Fits(|c|, t, w, off) {
      var lo := t - off;
      var slice := col[lo .. lo + w];
      assert RollMean(col, w, off)[t] == Mean(slice);
      if Unmasked(m, t, w, off) {
        forall k | 0 <= k < w ensures slice[k] == Window(c, ny, nx, i, j, lo, w)[k] {
          assert Covers(t, w, off, lo + k);
        }
        assert slice == Window(c, ny, nx, i, j, lo, w);
      } else {
        var s :| Covers(t, w, off, s) && 0 <= s < |m| && !m[s];
        assert slice[s - lo].None?;
      }
    }
  }

  /**
   * `apply_time_window_mean`: adds `{variable}_time_avg`, of the same
   * shape, and changes nothing else. Fails when the time coordinate or the
   * variable is absent, or the window is below one step.
   */
  function ApplyTimeWindowMean(ds: Dataset, variable: string, w: int, centring: Centring): (r: Result<Dataset>)
    requires WellFormed(ds)
    ensures r.Ok? <==> ds.time.Some? && variable in ds.vars && w >= 1
    ensures r.Err? && ds.time.None? ==> r.error == MissingTimeCoordinate
    ensures r.Ok? ==>
      && Extends(r.value, ds, {TimeAvgName(variable)})
      && SmoothedOf(r.value.vars[TimeAvgName(variable)], ds.vars[variable], GapMask(ds.time.value),
                    w, CentreOffset(centring, w), ds.nt, |ds.y|, |ds.x|)
  {
    if ds.time.None? then Err(MissingTimeCoordinate)
    else if variable !in ds.vars then Err(MissingVariable(variable))
    else if w < 1 then Err(NonPositiveWindow)
    else
      var smoothed := SmoothCube(ds.vars[variable], GapMask(ds.time.value), |ds.y|, |ds.x|, w, CentreOffset(centring, w));
      Ok(Put(ds, TimeAvgName(variable), smoothed))
  }

  /**
   * Smoothing never reaches across a gap: a masked step makes every
   * window that covers it undefined.
   */
  lemma GapPoisonsCoveringWindows(out: Cube<Value>, c: Cube<Value>, m: seq<bool>, w: nat, off: nat,
                                  nt: nat, ny: nat, nx: nat, s: nat, t: nat, i: nat, j: nat)
    requires SmoothedOf(out, c, m, w, off, nt, ny, nx)
    requires s < nt && !m[s]
    requires t < nt && i < ny && j < nx && Covers(t, w, off, s)
    ensures out[t][i][j].None?
  {
    assert !Unmasked(m, t, w, off);
  }

  /** A window wholly on unmasked, defined steps is defined. */
  lemma UnmaskedWindowDefined(out: Cube<Value>, c: Cube<Value>, m: seq<bool>, w: nat, off: nat,
                              nt: nat, ny: nat, nx: nat, t: nat, i: nat, j: nat)
    requires SmoothedOf(out, c, m, w, off, nt, ny, nx)
    requires t < nt && i < ny && j < nx && Fits(nt, t, w, off)
    requires forall s :: Covers(t, w, off, s) ==> m[s] && c[s][i][j].Some?
    ensures out[t][i][j].Some?
  {
    var win := Window(c, ny, nx, i, j, t - off, w);
    forall k | 0 <= k < w ensures win[k].Some? {
      assert Covers(t, w, off, t - off + k);
    }
  }

  /** The smoothed cube depends only on the cells of its input: equal inputs smooth alike. */
  lemma SmoothedAgree(o1: Cube<Value>, o2: Cube<Value>, c1: Cube<Value>, c2: Cube<Value>, m: seq<bool>, w: nat, off: nat,
                      nt: nat, ny: nat, nx: nat)
    requires SmoothedOf(o1, c1, m, w, off, nt, ny, nx) && SmoothedOf(o2, c2, m, w, off, nt, ny, nx)
    requires forall t, i, j :: 0 <= t < nt && 0 <= i < ny && 0 <= j < nx ==> c1[t][i][j] == c2[t][i][j]
    ensures forall t, i, j :: 0 <= t < nt && 0 <= i < ny && 0 <= j < nx ==> o1[t][i][j] == o2[t][i][j]
  {
    forall t, i, j | 0 <= t < nt && 0 <= i < ny && 0 <= j < nx
      ensures o1[t][i][j] == o2[t][i][j]
    {
      if Fits(nt, t, w, off) && Unmasked(m, t, w, off) {
        assert Window(c1, ny, nx, i, j, t - off, w) == Window(c2, ny, nx, i, j, t - off, w);
      }
    }
  }

  /** A NaN on the time axis makes every smoothed value whose window covers it NaN. */
  lemma NanPoisonsCoveringWindows(out: Cube<Value>, c: Cube<Value>, m: seq<bool>, w: nat, off: nat,
                                  nt: nat, ny: nat, nx: nat, s: nat, t: nat, i: nat, j: nat)
    requires SmoothedOf(out, c, m, w, off, nt, ny, nx)
    requires s < nt && t < nt && i < ny && j < nx && Covers(t, w, off, s)
    requires c[s][i][j].None?
    ensures out[t][i][j].None?
  {
    if Fits(nt, t, w, off) && Unmasked(m, t, w, off) {
      var win := Window(c, ny, nx, i, j, t - off, w);
      assert win[s - (t - off)].None?;
    }
  }

  /**
   * `compute_rolling_time_mean`: a trailing mean over the current and the
   * two previous steps, for every variable.
   */
  function ComputeRollingTimeMean(ds: Dataset): (r: Dataset)
    requires WellFormed(ds)
    ensures WellFormed(r)
    ensures r.(vars := ds.vars) == ds
    ensures r.vars.Keys == ds.vars.Keys
    ensures forall k :: k in ds.vars ==> SmoothedOf(r.vars[k], ds.vars[k], seq(ds.nt, s => true), 3, 2, ds.nt, |ds.y|, |ds.x|)
  {
    var m := seq(ds.nt, s => true);
    ds.(vars := map k | k in ds.vars :: SmoothCube(ds.vars[k], m, |ds.y|, |ds.x|, 3, 2))
  }

  /** The trailing mean is undefined for the first two steps. */
  lemma RollingTimeMeanWarmUp(ds: Dataset, k: string, t: nat, i: nat, j: nat)
    requires WellFormed(ds) && k in ds.vars
    requires t < 2 && t < ds.nt && i < |ds.y| && j < |ds.x|
    ensures ComputeRollingTimeMean(ds).vars[k][t][i][j].None?
  {
  }
}
