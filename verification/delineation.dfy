/**
 * `ETAnalysis.irrigation_delineation`: the local and regional ratios,
 * their temporal smoothing, the two threshold flags, the two rules and
 * the classification, chained on one dataset, and what the chain decides
 * for every cell.
 */
module Delineation {
  import opened Values
  import opened Cubes
  import opened Rolling
  import opened Datasets
  import opened Smoothing
  import opened Ratios
  import opened Decision

  /**
   * The keyword arguments forwarded to both ratio computations: the two
   * variable names, the regional statistic and the regional window size.
   */
  datatype Options = Options(etaName: string, etpName: string, stat: string, windowSize: real)

  /** The defaults the ratio computations fall back on. */
  function DefaultOptions(): (o: Options)
    ensures o.stat == "mean" && o.windowSize == 10.0
    ensures o.etaName == DefaultAnalysis().etaName && o.etpName == DefaultAnalysis().etpName
  {
    Options("ETa", "ETp", "mean", 10.0)
  }

  /** The annotated dataset and the event code of every cell. */
  datatype Delineated = Delineated(ds: Dataset, eventType: Cube<int>)

  /**
   * An irrigation event, stated on the two smoothed ratios of a cell: the
   * local ratio is above the local threshold and more than one and a half
   * times the size of the regional one.
   */
  predicate IrrigationAt(a: ETAnalysis, local: Value, regional: Value)
  {
    && local.Some? && regional.Some?
    && local.value > a.thresholdLocal
    && Abs(local.value) > 1.5 * Abs(regional.value)
  }

  /**
   * A rain event: the regional ratio is above the regional threshold and
   * at least the size of the local one.
   */
  predicate RainAt(a: ETAnalysis, local: Value, regional: Value)
  {
    && local.Some? && regional.Some?
    && regional.value > a.thresholdRegional
    && Abs(regional.value) >= Abs(local.value)
  }

  /**
   * `ev` is the event cube the smoothed ratios `local` and `regional`
   * call for: 1 for irrigation, 2 for rain, 0 for neither.
   */
  ghost predicate EventsOf(a: ETAnalysis, ev: Cube<int>, local: Cube<Value>, regional: Cube<Value>, nt: nat, ny: nat, nx: nat)
  {
    && IsCube(ev, nt, ny, nx) && IsCube(local, nt, ny, nx) && IsCube(regional, nt, ny, nx)
    && forall t, i, j :: 0 <= t < nt && 0 <= i < ny && 0 <= j < nx ==>
      && ev[t][i][j] in {0, 1, 2}
      && (ev[t][i][j] == 1 <==> IrrigationAt(a, local[t][i][j], regional[t][i][j]))
      && (ev[t][i][j] == 2 <==> RainAt(a, local[t][i][j], regional[t][i][j]))
  }

  /** The variables the local ratio step adds. */
  function LocalNames(timeWindow: Option<int>): set<string>
  {
    {LocalRatioName, LocalDiffName} + (if timeWindow.Some? then {LocalAvgName} else {})
  }

  /** The variables the regional ratio step adds. */
  function RegionalNames(timeWindow: Option<int>, stat: string): set<string>
  {
    if stat == "mean" then {RegionalRatioName, RegionalDiffName} + (if timeWindow.Some? then {RegionalAvgName} else {}) else {}
  }

  const ThresholdNames: set<string> := {ThresholdLocalName, ThresholdRegionalName}

  const ConditionNames: set<string> :=
    {CondRain1Name, CondRain2Name, CondRainName, CondIrrigation1Name, CondIrrigation2Name, CondIrrigationName}

  /** Every variable the delineation may add. */
  function AddedNames(timeWindow: Option<int>, stat: string): (names: set<string>)
    ensures LocalRatioName in names && ThresholdLocalName in names && CondIrrigationName in names
    ensures RegionalAvgName in names <==> stat == "mean" && timeWindow.Some?
  {
    LocalNames(timeWindow) + RegionalNames(timeWindow, stat) + ThresholdNames + ConditionNames
  }

  /**
   * `out` holds the local ratio of the ETa and ETp variables of `ds` and
   * its gap-masked temporal mean over `w` steps.
   */
  ghost predicate LocalFrom(out: Dataset, ds: Dataset, opts: Options, w: int, centring: Centring)
  {
    && 1 <= w && ds.time.Some? && opts.etaName in ds.vars && opts.etpName in ds.vars
    && LocalRatioName in out.vars && LocalAvgName in out.vars
    && IsRatioOf(out.vars[LocalRatioName], ds.vars[opts.etaName], ds.vars[opts.etpName], ds.nt, |ds.y|, |ds.x|)
    && SmoothedOf(out.vars[LocalAvgName], out.vars[LocalRatioName], GapMask(ds.time.value),
                  w, CentreOffset(centring, w), ds.nt, |ds.y|, |ds.x|)
  }

  /**
   * `out` holds the regional ratio of the ETa and ETp variables of `ds`
   * over the spatial window of the delineation, and its gap-masked
   * temporal mean over `w` steps.
   */
  ghost predicate RegionalFrom(out: Dataset, ds: Dataset, opts: Options, w: int, centring: Centring)
  {
    && 1 <= w && ds.time.Some? && SpatialOk(ds) && opts.etaName in ds.vars && opts.etpName in ds.vars
    && RegionalRatioName in out.vars && RegionalAvgName in out.vars
    && IsRegionalRatioOf(out.vars[RegionalRatioName], ds.vars[opts.etaName], ds.vars[opts.etpName],
                         RegionalWindow(ds, opts.windowSize, opts.windowSize, centring), ds.nt, |ds.y|, |ds.x|)
    && SmoothedOf(out.vars[RegionalAvgName], out.vars[RegionalRatioName], GapMask(ds.time.value),
                  w, CentreOffset(centring, w), ds.nt, |ds.y|, |ds.x|)
  }

  /** A later step that leaves the local ratio variables alone keeps the local facts. */
  lemma LocalKept(out: Dataset, mid: Dataset, added: set<string>, ds: Dataset, opts: Options, w: int, centring: Centring)
    requires Extends(out, mid, added)
    requires LocalRatioName !in added && LocalAvgName !in added
    requires LocalFrom(mid, ds, opts, w, centring)
    ensures LocalFrom(out, ds, opts, w, centring)
  {
  }

  /** A later step that leaves the regional ratio variables alone keeps the regional facts. */
  lemma RegionalKept(out: Dataset, mid: Dataset, added: set<string>, ds: Dataset, opts: Options, w: int, centring: Centring)
    requires Extends(out, mid, added)
    requires RegionalRatioName !in added && RegionalAvgName !in added
    requires RegionalFrom(mid, ds, opts, w, centring)
    ensures RegionalFrom(out, ds, opts, w, centring)
  {
  }

  /**
   * The delineation chain. It goes through when both input variables are
   * present, the time coordinate exists and repeats no timestamp (the
   * stored ratio differences are aligned on it), the time window (if any)
   * is at least one step, the spatial window
   * can be built (for `stat == "mean"`), and both smoothed ratios exist
   * afterwards, either computed now or already in the dataset. The
   * `thresholdLocal` and `thresholdRegional` arguments are accepted and
   * never read: the flags use the thresholds of the analysis `a`.
   */
  method IrrigationDelineation(a: ETAnalysis, ds: Dataset, thresholdLocal: real, thresholdRegional: real,
                               timeWindow: Option<int>, opts: Options, centring: Centring) returns (r: Result<Delineated>)
    requires WellFormed(ds)
    ensures r.Ok? <==>
      && opts.etaName in ds.vars && opts.etpName in ds.vars
      && TimeIndexed(ds) && (timeWindow.Some? ==> timeWindow.value >= 1)
      && (opts.stat == "mean" ==> SpatialOk(ds))
      && (timeWindow.Some? || LocalAvgName in ds.vars)
      && ((opts.stat == "mean" && timeWindow.Some?) || RegionalAvgName in ds.vars)
    ensures r.Ok? ==>
      && Extends(r.value.ds, ds, AddedNames(timeWindow, opts.stat))
      && EventsOf(a, r.value.eventType, r.value.ds.vars[LocalAvgName], r.value.ds.vars[RegionalAvgName], ds.nt, |ds.y|, |ds.x|)
    ensures r.Ok? && timeWindow.Some? ==> LocalFrom(r.value.ds, ds, opts, timeWindow.value, centring)
    ensures r.Ok? && timeWindow.Some? && opts.stat == "mean"
            && opts.etaName !in LocalNames(timeWindow) && opts.etpName !in LocalNames(timeWindow) ==>
      RegionalFrom(r.value.ds, ds, opts, timeWindow.value, centring)
  {
    var d2 :- RatioStages(ds, timeWindow, opts, centring);
    var d6 :- Decide(a, d2);
    Decided(a, ds, d2, d6, timeWindow, opts.stat);
    if timeWindow.Some? {
      DecisionKeeps(d6.ds, d2, ds, opts, timeWindow.value, centring);
    }
    return Ok(d6);
  }

  /**
   * `compute_ratio_ETap_local` then `compute_ratio_ETap_regional`, with
   * the keyword arguments of the delineation: the dataset they leave and
   * which smoothed ratios it holds.
   */
  method RatioStages(ds: Dataset, timeWindow: Option<int>, opts: Options, centring: Centring) returns (r: Result<Dataset>)
    requires WellFormed(ds)
    ensures r.Ok? <==>
      && opts.etaName in ds.vars && opts.etpName in ds.vars
      && TimeIndexed(ds) && (timeWindow.Some? ==> timeWindow.value >= 1)
      && (opts.stat == "mean" ==> SpatialOk(ds))
    ensures r.Ok? ==>
      && Extends(r.value, ds, LocalNames(timeWindow) + RegionalNames(timeWindow, opts.stat))
      && (LocalAvgName in r.value.vars <==> timeWindow.Some? || LocalAvgName in ds.vars)
      && (RegionalAvgName in r.value.vars <==> (opts.stat == "mean" && timeWindow.Some?) || RegionalAvgName in ds.vars)
    ensures r.Ok? && timeWindow.Some? ==> LocalFrom(r.value, ds, opts, timeWindow.value, centring)
    ensures r.Ok? && timeWindow.Some? && opts.stat == "mean"
            && opts.etaName !in LocalNames(timeWindow) && opts.etpName !in LocalNames(timeWindow) ==>
      RegionalFrom(r.value, ds, opts, timeWindow.value, centring)
  {
    var d1 :- LocalStage(ds, timeWindow, opts, centring);
    LocalKeeps(ds, d1, timeWindow);
    var d2 :- RegionalStage(d1, timeWindow, opts, centring);
    RatioKeys(ds, d1, d2, timeWindow, opts.stat);
    ExtendsTrans(d2, d1, ds, LocalNames(timeWindow), RegionalNames(timeWindow, opts.stat));
    if timeWindow.Some? {
      LocalKept(d2, d1, RegionalNames(timeWindow, opts.stat), ds, opts, timeWindow.value, centring);
      if opts.stat == "mean" && opts.etaName !in LocalNames(timeWindow) && opts.etpName !in LocalNames(timeWindow) {
        RebasedFrom(d2, d1, ds, opts, timeWindow.value, centring);
      }
    }
    return Ok(d2);
  }

  /** The regional facts stated on the dataset before the local step, which left ETa and ETp alone. */
  lemma RebasedFrom(out: Dataset, d1: Dataset, ds: Dataset, opts: Options, w: int, centring: Centring)
    requires Extends(d1, ds, LocalNames(Some(w)))
    requires opts.etaName !in LocalNames(Some(w)) && opts.etpName !in LocalNames(Some(w))
    requires opts.etaName in ds.vars && opts.etpName in ds.vars
    requires RegionalFrom(out, d1, opts, w, centring)
    ensures RegionalFrom(out, ds, opts, w, centring)
  {
    assert d1.y == ds.y && d1.x == ds.x && d1.time == ds.time && d1.nt == ds.nt && d1.dims == ds.dims;
    assert d1.vars[opts.etaName] == ds.vars[opts.etaName] && d1.vars[opts.etpName] == ds.vars[opts.etpName];
    assert RegionalWindow(d1, opts.windowSize, opts.windowSize, centring) == RegionalWindow(ds, opts.windowSize, opts.windowSize, centring);
  }

  /** `compute_ratio_ETap_local` as the delineation calls it: when it fails and what it adds. */
  method LocalStage(ds: Dataset, timeWindow: Option<int>, opts: Options, centring: Centring) returns (r: Result<Dataset>)
    requires WellFormed(ds)
    ensures r.Ok? <==>
      && opts.etaName in ds.vars && opts.etpName in ds.vars
      && TimeIndexed(ds) && (timeWindow.Some? ==> timeWindow.value >= 1)
    ensures r.Ok? ==> Extends(r.value, ds, LocalNames(timeWindow))
    ensures r.Ok? && timeWindow.Some? ==> LocalFrom(r.value, ds, opts, timeWindow.value, centring)
  {
    r := ComputeRatioLocal(ds, opts.etaName, opts.etpName, timeWindow, centring);
  }

  /** `compute_ratio_ETap_regional` as the delineation calls it: when it fails and what it adds. */
  method RegionalStage(d1: Dataset, timeWindow: Option<int>, opts: Options, centring: Centring) returns (r: Result<Dataset>)
    requires WellFormed(d1)
    ensures r.Ok? <==>
      opts.stat != "mean" || (SpatialOk(d1) && opts.etaName in d1.vars && opts.etpName in d1.vars
       && TimeIndexed(d1) && (timeWindow.Some? ==> timeWindow.value >= 1))
    ensures r.Ok? ==> Extends(r.value, d1, RegionalNames(timeWindow, opts.stat))
    ensures r.Ok? && timeWindow.Some? && opts.stat == "mean" ==> RegionalFrom(r.value, d1, opts, timeWindow.value, centring)
  {
    r := ComputeRatioRegional(d1, opts.etaName, opts.etpName, opts.stat, opts.windowSize, timeWindow, centring);
    if r.Ok? && opts.stat != "mean" {
      assert r.value == d1;
    }
  }

  /**
   * `define_decision_thresholds`, both rules and `classify_event` on the
   * dataset the ratio steps leave: it fails only when a smoothed ratio is
   * missing, and each cell gets the event its smoothed ratios call for.
   */
  method Decide(a: ETAnalysis, d2: Dataset) returns (r: Result<Delineated>)
    requires WellFormed(d2)
    ensures r.Ok? <==> LocalAvgName in d2.vars && RegionalAvgName in d2.vars
    ensures r.Ok? ==>
      && Extends(r.value.ds, d2, ThresholdNames + ConditionNames)
      && EventsOf(a, r.value.eventType, d2.vars[LocalAvgName], d2.vars[RegionalAvgName], d2.nt, |d2.y|, |d2.x|)
  {
    var d4 :- DefineDecisionThresholds(a, d2);
    Thresholded(a, d2, d4);
    var d6 := DecideEvents(a, d4);
    ExtendsTrans(d6.ds, d4, d2, ThresholdNames, ConditionNames);
    Rebased(a, d2, d4, d6.eventType);
    return Ok(d6);
  }

  /** The local step keeps the grid, the time axis and the inputs. */
  lemma LocalKeeps(ds: Dataset, d1: Dataset, timeWindow: Option<int>)
    requires Extends(d1, ds, LocalNames(timeWindow))
    ensures d1.dims == ds.dims && d1.time == ds.time && d1.nt == ds.nt && d1.y == ds.y && d1.x == ds.x
    ensures SpatialOk(d1) == SpatialOk(ds)
    ensures forall k :: k in ds.vars ==> k in d1.vars
  {
  }

  /** Which smoothed ratios exist after the two ratio steps. */
  lemma RatioKeys(ds: Dataset, d1: Dataset, d2: Dataset, timeWindow: Option<int>, stat: string)
    requires Extends(d1, ds, LocalNames(timeWindow)) && Extends(d2, d1, RegionalNames(timeWindow, stat))
    ensures LocalAvgName in d2.vars <==> timeWindow.Some? || LocalAvgName in ds.vars
    ensures RegionalAvgName in d2.vars <==> (stat == "mean" && timeWindow.Some?) || RegionalAvgName in ds.vars
  {
    assert LocalAvgName != RegionalRatioName && LocalAvgName != RegionalDiffName && LocalAvgName != RegionalAvgName;
    assert RegionalAvgName != LocalRatioName && RegionalAvgName != LocalDiffName;
  }

  /** The threshold flags, stated on the dataset that carries them. */
  lemma Thresholded(a: ETAnalysis, d2: Dataset, d4: Dataset)
    requires Extends(d4, d2, ThresholdNames)
    requires LocalAvgName in d2.vars && RegionalAvgName in d2.vars
    requires forall t, i, j :: 0 <= t < d2.nt && 0 <= i < |d2.y| && 0 <= j < |d2.x| ==>
      && (EqNum(d4.vars[ThresholdLocalName][t][i][j], 1.0) <==> Above(d2.vars[LocalAvgName][t][i][j], a.thresholdLocal))
      && (EqNum(d4.vars[ThresholdRegionalName][t][i][j], 1.0) <==> Above(d2.vars[RegionalAvgName][t][i][j], a.thresholdRegional))
    ensures FlagsSet(a, d4)
  {
    assert LocalAvgName !in ThresholdNames && RegionalAvgName !in ThresholdNames;
    assert d4.nt == d2.nt && d4.y == d2.y && d4.x == d2.x;
    assert d4.vars[LocalAvgName] == d2.vars[LocalAvgName] && d4.vars[RegionalAvgName] == d2.vars[RegionalAvgName];
  }

  /** The thresholds, rules and classification leave both smoothed ratios alone. */
  lemma DecisionKeeps(out: Dataset, mid: Dataset, ds: Dataset, opts: Options, w: int, centring: Centring)
    requires Extends(out, mid, ThresholdNames + ConditionNames)
    requires LocalFrom(mid, ds, opts, w, centring)
    ensures LocalFrom(out, ds, opts, w, centring)
    ensures RegionalFrom(mid, ds, opts, w, centring) ==> RegionalFrom(out, ds, opts, w, centring)
  {
    var added := ThresholdNames + ConditionNames;
    assert LocalRatioName !in added && LocalAvgName !in added && RegionalRatioName !in added && RegionalAvgName !in added;
    LocalKept(out, mid, added, ds, opts, w, centring);
    if RegionalFrom(mid, ds, opts, w, centring) {
      RegionalKept(out, mid, added, ds, opts, w, centring);
    }
  }

  /** The event facts of `Decide`, read off the dataset the delineation returns. */
  lemma Decided(a: ETAnalysis, ds: Dataset, d2: Dataset, d6: Delineated, timeWindow: Option<int>, stat: string)
    requires Extends(d2, ds, LocalNames(timeWindow) + RegionalNames(timeWindow, stat))
    requires Extends(d6.ds, d2, ThresholdNames + ConditionNames)
    requires LocalAvgName in d2.vars && RegionalAvgName in d2.vars
    requires EventsOf(a, d6.eventType, d2.vars[LocalAvgName], d2.vars[RegionalAvgName], d2.nt, |d2.y|, |d2.x|)
    ensures Extends(d6.ds, ds, AddedNames(timeWindow, stat))
    ensures EventsOf(a, d6.eventType, d6.ds.vars[LocalAvgName], d6.ds.vars[RegionalAvgName], ds.nt, |ds.y|, |ds.x|)
  {
    ExtendsTrans(d6.ds, d2, ds, LocalNames(timeWindow) + RegionalNames(timeWindow, stat), ThresholdNames + ConditionNames);
    assert AddedNames(timeWindow, stat) == LocalNames(timeWindow) + RegionalNames(timeWindow, stat) + (ThresholdNames + ConditionNames);
    assert LocalAvgName !in ThresholdNames + ConditionNames && RegionalAvgName !in ThresholdNames + ConditionNames;
    assert d2.nt == ds.nt && d2.y == ds.y && d2.x == ds.x;
    assert d6.ds.vars[LocalAvgName] == d2.vars[LocalAvgName];
    assert d6.ds.vars[RegionalAvgName] == d2.vars[RegionalAvgName];
  }

  /** The event facts of `DecideEvents`, stated on the dataset before the thresholds. */
  lemma Rebased(a: ETAnalysis, d2: Dataset, d4: Dataset, ev: Cube<int>)
    requires Extends(d4, d2, ThresholdNames)
    requires LocalAvgName in d2.vars && RegionalAvgName in d2.vars
    requires EventsOf(a, ev, d4.vars[LocalAvgName], d4.vars[RegionalAvgName], d4.nt, |d4.y|, |d4.x|)
    ensures EventsOf(a, ev, d2.vars[LocalAvgName], d2.vars[RegionalAvgName], d2.nt, |d2.y|, |d2.x|)
  {
    assert LocalAvgName !in ThresholdNames && RegionalAvgName !in ThresholdNames;
    assert d4.nt == d2.nt && d4.y == d2.y && d4.x == d2.x;
    assert d4.vars[LocalAvgName] == d2.vars[LocalAvgName] && d4.vars[RegionalAvgName] == d2.vars[RegionalAvgName];
  }

  /** The per-cell threshold flags `DefineDecisionThresholds` leaves on a dataset. */
  ghost predicate FlagsSet(a: ETAnalysis, d4: Dataset)
  {
    && WellFormed(d4)
    && LocalAvgName in d4.vars && RegionalAvgName in d4.vars && ThresholdLocalName in d4.vars && ThresholdRegionalName in d4.vars
    && forall t, i, j :: 0 <= t < d4.nt && 0 <= i < |d4.y| && 0 <= j < |d4.x| ==>
      && (EqNum(d4.vars[ThresholdLocalName][t][i][j], 1.0) <==> Above(d4.vars[LocalAvgName][t][i][j], a.thresholdLocal))
      && (EqNum(d4.vars[ThresholdRegionalName][t][i][j], 1.0) <==> Above(d4.vars[RegionalAvgName][t][i][j], a.thresholdRegional))
  }

  const RainNames: set<string> := {CondRain1Name, CondRain2Name, CondRainName}

  const IrrigationNames: set<string> := {CondIrrigation1Name, CondIrrigation2Name, CondIrrigationName}

  /**
   * `apply_rules_rain` after the thresholds: it cannot fail, and the rain
   * flag of a cell says exactly whether its smoothed ratios call for rain.
   */
  method RainStage(a: ETAnalysis, d4: Dataset) returns (d5: Dataset)
    requires FlagsSet(a, d4)
    ensures Extends(d5, d4, RainNames) && FlagsSet(a, d5)
    ensures forall t, i, j :: 0 <= t < d4.nt && 0 <= i < |d4.y| && 0 <= j < |d4.x| ==>
      IsFlag(d5.vars[CondRainName][t][i][j])
      && (EqNum(d5.vars[CondRainName][t][i][j], 1.0) <==> RainAt(a, d4.vars[LocalAvgName][t][i][j], d4.vars[RegionalAvgName][t][i][j]))
  {
    d5 := ApplyRulesRain(d4).value;
    RainStaged(a, d4, d5);
  }

  lemma RainStaged(a: ETAnalysis, d4: Dataset, d5: Dataset)
    requires FlagsSet(a, d4)
    requires Extends(d5, d4, RainNames)
    requires forall t, i, j :: 0 <= t < d4.nt && 0 <= i < |d4.y| && 0 <= j < |d4.x| ==>
      IsFlag(d5.vars[CondRainName][t][i][j])
      && (EqNum(d5.vars[CondRainName][t][i][j], 1.0) <==>
            RainRule(d4.vars[ThresholdRegionalName][t][i][j], d4.vars[RegionalAvgName][t][i][j], d4.vars[LocalAvgName][t][i][j]))
    ensures FlagsSet(a, d5)
    ensures forall t, i, j :: 0 <= t < d4.nt && 0 <= i < |d4.y| && 0 <= j < |d4.x| ==>
      IsFlag(d5.vars[CondRainName][t][i][j])
      && (EqNum(d5.vars[CondRainName][t][i][j], 1.0) <==> RainAt(a, d4.vars[LocalAvgName][t][i][j], d4.vars[RegionalAvgName][t][i][j]))
  {
    assert d5.nt == d4.nt && d5.y == d4.y && d5.x == d4.x;
    assert d5.vars[ThresholdLocalName] == d4.vars[ThresholdLocalName] && d5.vars[ThresholdRegionalName] == d4.vars[ThresholdRegionalName];
    assert d5.vars[LocalAvgName] == d4.vars[LocalAvgName] && d5.vars[RegionalAvgName] == d4.vars[RegionalAvgName];
    RainCells(a, d4.nt, |d4.y|, |d4.x|, d4.vars[ThresholdRegionalName], d4.vars[LocalAvgName], d4.vars[RegionalAvgName],
              d5.vars[CondRainName]);
  }

  lemma RainCells(a: ETAnalysis, nt: nat, ny: nat, nx: nat, thr: Cube<Value>, loc: Cube<Value>, reg: Cube<Value>, rain: Cube<Value>)
    requires IsCube(thr, nt, ny, nx) && IsCube(loc, nt, ny, nx) && IsCube(reg, nt, ny, nx) && IsCube(rain, nt, ny, nx)
    requires forall t, i, j :: 0 <= t < nt && 0 <= i < ny && 0 <= j < nx ==>
      (EqNum(thr[t][i][j], 1.0) <==> Above(reg[t][i][j], a.thresholdRegional))
    requires forall t, i, j :: 0 <= t < nt && 0 <= i < ny && 0 <= j < nx ==>
      (EqNum(rain[t][i][j], 1.0) <==> RainRule(thr[t][i][j], reg[t][i][j], loc[t][i][j]))
    ensures forall t, i, j :: 0 <= t < nt && 0 <= i < ny && 0 <= j < nx ==>
      (EqNum(rain[t][i][j], 1.0) <==> RainAt(a, loc[t][i][j], reg[t][i][j]))
  {
  }

  /**
   * `apply_rules_irrigation` after the thresholds: it cannot fail, and the
   * irrigation flag of a cell says exactly whether its smoothed ratios
   * call for irrigation.
   */
  method IrrigationStage(a: ETAnalysis, d5: Dataset) returns (d6: Dataset)
    requires FlagsSet(a, d5)
    ensures Extends(d6, d5, IrrigationNames)
    ensures forall t, i, j :: 0 <= t < d5.nt && 0 <= i < |d5.y| && 0 <= j < |d5.x| ==>
      IsFlag(d6.vars[CondIrrigationName][t][i][j])
      && (EqNum(d6.vars[CondIrrigationName][t][i][j], 1.0) <==>
            IrrigationAt(a, d5.vars[LocalAvgName][t][i][j], d5.vars[RegionalAvgName][t][i][j]))
  {
    d6 := ApplyRulesIrrigation(d5).value;
    IrrigationCells(a, d5.nt, |d5.y|, |d5.x|, d5.vars[ThresholdLocalName], d5.vars[LocalAvgName], d5.vars[RegionalAvgName],
                    d6.vars[CondIrrigationName]);
  }

  lemma IrrigationCells(a: ETAnalysis, nt: nat, ny: nat, nx: nat, thl: Cube<Value>, loc: Cube<Value>, reg: Cube<Value>,
                        irr: Cube<Value>)
    requires IsCube(thl, nt, ny, nx) && IsCube(loc, nt, ny, nx) && IsCube(reg, nt, ny, nx) && IsCube(irr, nt, ny, nx)
    requires forall t, i, j :: 0 <= t < nt && 0 <= i < ny && 0 <= j < nx ==>
      (EqNum(thl[t][i][j], 1.0) <==> Above(loc[t][i][j], a.thresholdLocal))
    requires forall t, i, j :: 0 <= t < nt && 0 <= i < ny && 0 <= j < nx ==>
      (EqNum(irr[t][i][j], 1.0) <==> IrrigationRule(thl[t][i][j], loc[t][i][j], reg[t][i][j]))
    ensures forall t, i, j :: 0 <= t < nt && 0 <= i < ny && 0 <= j < nx ==>
      (EqNum(irr[t][i][j], 1.0) <==> IrrigationAt(a, loc[t][i][j], reg[t][i][j]))
  {
    forall t, i, j | 0 <= t < nt && 0 <= i < ny && 0 <= j < nx
      ensures EqNum(irr[t][i][j], 1.0) <==> IrrigationAt(a, loc[t][i][j], reg[t][i][j])
    {
      if reg[t][i][j].Some? {
        ScaledAbsolute(reg[t][i][j].value);
      }
    }
  }

  /**
   * `apply_rules_rain` then `apply_rules_irrigation` after the thresholds:
   * nothing can fail, and the two condition flags of a cell say exactly
   * whether its smoothed ratios call for rain and for irrigation.
   */
  method RuleFlags(a: ETAnalysis, d4: Dataset) returns (d6: Dataset)
    requires FlagsSet(a, d4)
    ensures Extends(d6, d4, ConditionNames)
    ensures forall t, i, j :: 0 <= t < d4.nt && 0 <= i < |d4.y| && 0 <= j < |d4.x| ==>
      var local, regional := d4.vars[LocalAvgName][t][i][j], d4.vars[RegionalAvgName][t][i][j];
      && IsFlag(d6.vars[CondIrrigationName][t][i][j]) && IsFlag(d6.vars[CondRainName][t][i][j])
      && (EqNum(d6.vars[CondIrrigationName][t][i][j], 1.0) <==> IrrigationAt(a, local, regional))
      && (EqNum(d6.vars[CondRainName][t][i][j], 1.0) <==> RainAt(a, local, regional))
  {
    var d5 := RainStage(a, d4);
    d6 := IrrigationStage(a, d5);
    ExtendsTrans(d6, d5, d4, RainNames, IrrigationNames);
    RuleStages(a, d4, d5, d6);
  }

  /** The facts of the two rule steps, stated on the dataset before both. */
  lemma RuleStages(a: ETAnalysis, d4: Dataset, d5: Dataset, d6: Dataset)
    requires LocalAvgName in d4.vars && RegionalAvgName in d4.vars
    requires Extends(d5, d4, RainNames) && Extends(d6, d5, IrrigationNames)
    requires forall t, i, j :: 0 <= t < d4.nt && 0 <= i < |d4.y| && 0 <= j < |d4.x| ==>
      IsFlag(d5.vars[CondRainName][t][i][j])
      && (EqNum(d5.vars[CondRainName][t][i][j], 1.0) <==> RainAt(a, d4.vars[LocalAvgName][t][i][j], d4.vars[RegionalAvgName][t][i][j]))
    requires forall t, i, j :: 0 <= t < d5.nt && 0 <= i < |d5.y| && 0 <= j < |d5.x| ==>
      IsFlag(d6.vars[CondIrrigationName][t][i][j])
      && (EqNum(d6.vars[CondIrrigationName][t][i][j], 1.0) <==>
            IrrigationAt(a, d5.vars[LocalAvgName][t][i][j], d5.vars[RegionalAvgName][t][i][j]))
    ensures forall t, i, j :: 0 <= t < d4.nt && 0 <= i < |d4.y| && 0 <= j < |d4.x| ==>
      var local, regional := d4.vars[LocalAvgName][t][i][j], d4.vars[RegionalAvgName][t][i][j];
      && IsFlag(d6.vars[CondIrrigationName][t][i][j]) && IsFlag(d6.vars[CondRainName][t][i][j])
      && (EqNum(d6.vars[CondIrrigationName][t][i][j], 1.0) <==> IrrigationAt(a, local, regional))
      && (EqNum(d6.vars[CondRainName][t][i][j], 1.0) <==> RainAt(a, local, regional))
  {
    assert d5.nt == d4.nt && d5.y == d4.y && d5.x == d4.x;
    assert d5.vars[LocalAvgName] == d4.vars[LocalAvgName] && d5.vars[RegionalAvgName] == d4.vars[RegionalAvgName];
    assert d6.vars[CondRainName] == d5.vars[CondRainName];
  }

  /** Rain and irrigation never both hold for one cell. */
  lemma EventsExclusive(a: ETAnalysis, local: Value, regional: Value)
    ensures !(IrrigationAt(a, local, regional) && RainAt(a, local, regional))
  {
  }

  /**
   * The rules and the classification applied after the thresholds: on a
   * dataset whose flags are set from its smoothed ratios, nothing can
   * fail, and each cell gets the event its ratios call for.
   */
  method DecideEvents(a: ETAnalysis, d4: Dataset) returns (r: Delineated)
    requires FlagsSet(a, d4)
    ensures Extends(r.ds, d4, ConditionNames)
    ensures EventsOf(a, r.eventType, d4.vars[LocalAvgName], d4.vars[RegionalAvgName], d4.nt, |d4.y|, |d4.x|)
  {
    var d6 := RuleFlags(a, d4);
    var ev := ClassifyEvent(d6, CondIrrigationName, CondRainName).value;
    Classified(a, d4, d6, ev);
    return Delineated(d6, ev);
  }

  /** The classification of the two rule flags, read as events of the smoothed ratios. */
  lemma Classified(a: ETAnalysis, d4: Dataset, d6: Dataset, ev: Cube<int>)
    requires Extends(d6, d4, ConditionNames)
    requires LocalAvgName in d4.vars && RegionalAvgName in d4.vars
    requires forall t, i, j :: 0 <= t < d4.nt && 0 <= i < |d4.y| && 0 <= j < |d4.x| ==>
      var local, regional := d4.vars[LocalAvgName][t][i][j], d4.vars[RegionalAvgName][t][i][j];
      && IsFlag(d6.vars[CondIrrigationName][t][i][j]) && IsFlag(d6.vars[CondRainName][t][i][j])
      && (EqNum(d6.vars[CondIrrigationName][t][i][j], 1.0) <==> IrrigationAt(a, local, regional))
      && (EqNum(d6.vars[CondRainName][t][i][j], 1.0) <==> RainAt(a, local, regional))
    requires IsCube(ev, d6.nt, |d6.y|, |d6.x|)
    requires forall t, i, j :: 0 <= t < d6.nt && 0 <= i < |d6.y| && 0 <= j < |d6.x| ==>
      var irr, rain := d6.vars[CondIrrigationName][t][i][j], d6.vars[CondRainName][t][i][j];
      && ev[t][i][j] in {0, 1, 2}
      && (ev[t][i][j] == 1 <==> Truthy(irr))
      && (ev[t][i][j] == 2 <==> !Truthy(irr) && Truthy(rain))
    ensures EventsOf(a, ev, d4.vars[LocalAvgName], d4.vars[RegionalAvgName], d4.nt, |d4.y|, |d4.x|)
  {
    assert d6.nt == d4.nt && d6.y == d4.y && d6.x == d4.x;
    EventCells(a, d4.nt, |d4.y|, |d4.x|, d4.vars[LocalAvgName], d4.vars[RegionalAvgName],
               d6.vars[CondIrrigationName], d6.vars[CondRainName], ev);
  }

  lemma EventCells(a: ETAnalysis, nt: nat, ny: nat, nx: nat, loc: Cube<Value>, reg: Cube<Value>,
                   irr: Cube<Value>, rain: Cube<Value>, ev: Cube<int>)
    requires IsCube(loc, nt, ny, nx) && IsCube(reg, nt, ny, nx)
    requires IsCube(irr, nt, ny, nx) && IsCube(rain, nt, ny, nx) && IsCube(ev, nt, ny, nx)
    requires forall t, i, j :: 0 <= t < nt && 0 <= i < ny && 0 <= j < nx ==>
      && IsFlag(irr[t][i][j]) && IsFlag(rain[t][i][j])
      && (EqNum(irr[t][i][j], 1.0) <==> IrrigationAt(a, loc[t][i][j], reg[t][i][j]))
      && (EqNum(rain[t][i][j], 1.0) <==> RainAt(a, loc[t][i][j], reg[t][i][j]))
    requires forall t, i, j :: 0 <= t < nt && 0 <= i < ny && 0 <= j < nx ==>
      ev[t][i][j] in {0, 1, 2} && (ev[t][i][j] == 1 <==> Truthy(irr[t][i][j]))
      && (ev[t][i][j] == 2 <==> !Truthy(irr[t][i][j]) && Truthy(rain[t][i][j]))
    ensures EventsOf(a, ev, loc, reg, nt, ny, nx)
  {
    forall t, i, j | 0 <= t < nt && 0 <= i < ny && 0 <= j < nx
      ensures && (ev[t][i][j] == 1 <==> IrrigationAt(a, loc[t][i][j], reg[t][i][j]))
              && (ev[t][i][j] == 2 <==> RainAt(a, loc[t][i][j], reg[t][i][j]))
    {
      EventsExclusive(a, loc[t][i][j], reg[t][i][j]);
    }
  }

  /**
   * On a grid whose spacing exceeds half the regional window on both axes
   * the regional window is the pixel itself, so the two smoothed ratios
   * coincide: no cell is ever classified as irrigation, and rain reduces
   * to the local ratio exceeding the regional threshold.
   */
  lemma CoarseGridNoIrrigation(a: ETAnalysis, out: Dataset, ds: Dataset, opts: Options, w: int, centring: Centring, ev: Cube<int>)
    requires LocalFrom(out, ds, opts, w, centring) && RegionalFrom(out, ds, opts, w, centring)
    requires opts.windowSize < 2.0 * Resolution(ds.x) && opts.windowSize < 2.0 * Resolution(ds.y)
    requires EventsOf(a, ev, out.vars[LocalAvgName], out.vars[RegionalAvgName], ds.nt, |ds.y|, |ds.x|)
    ensures forall t, i, j :: 0 <= t < ds.nt && 0 <= i < |ds.y| && 0 <= j < |ds.x| ==>
      && ev[t][i][j] != 1
      && (ev[t][i][j] == 2 <==> Above(out.vars[LocalAvgName][t][i][j], a.thresholdRegional))
  {
    var nt, ny, nx := ds.nt, |ds.y|, |ds.x|;
    CoarseGridSingleCell(ds, opts.windowSize, centring);
    var eta, etp := ds.vars[opts.etaName], ds.vars[opts.etpName];
    SingleCellRatiosAgree(out.vars[LocalRatioName], out.vars[RegionalRatioName], eta, etp, nt, ny, nx);
    SmoothedAgree(out.vars[LocalAvgName], out.vars[RegionalAvgName], out.vars[LocalRatioName], out.vars[RegionalRatioName],
                  GapMask(ds.time.value), w, CentreOffset(centring, w), nt, ny, nx);
  }

  /**
   * The default window of 10 is read in the units of the coordinates: on
   * a grid in metres it spans a single cell on an axis exactly when that
   * axis is coarser than 5 m.
   */
  lemma DefaultWindowIsOneCell(ds: Dataset, centring: Centring)
    requires SpatialOk(ds)
    ensures var size := DefaultOptions().windowSize;
      var win := RegionalWindow(ds, size, size, centring);
      && (win.wy == 1 <==> Resolution(ds.y) > 5.0)
      && (win.wx == 1 <==> Resolution(ds.x) > 5.0)
      && (Resolution(ds.x) > 5.0 && Resolution(ds.y) > 5.0 ==> win == SpatialWindow(1, 0, 1, 0))
  {
    WindowCellsFit(10.0, Resolution(ds.y));
    WindowCellsFit(10.0, Resolution(ds.x));
  }

  /**
   * With the default options on a grid coarser than 5 m on both axes, the
   * delineation never reports irrigation, and reports rain exactly where
   * the smoothed local ratio is above the regional threshold.
   */
  lemma DefaultOptionsNoIrrigation(a: ETAnalysis, out: Dataset, ds: Dataset, w: int, centring: Centring, ev: Cube<int>)
    requires LocalFrom(out, ds, DefaultOptions(), w, centring) && RegionalFrom(out, ds, DefaultOptions(), w, centring)
    requires Resolution(ds.x) > 5.0 && Resolution(ds.y) > 5.0
    requires EventsOf(a, ev, out.vars[LocalAvgName], out.vars[RegionalAvgName], ds.nt, |ds.y|, |ds.x|)
    ensures forall t, i, j :: 0 <= t < ds.nt && 0 <= i < |ds.y| && 0 <= j < |ds.x| ==>
      && ev[t][i][j] != 1
      && (ev[t][i][j] == 2 <==> Above(out.vars[LocalAvgName][t][i][j], a.thresholdRegional))
  {
    CoarseGridNoIrrigation(a, out, ds, DefaultOptions(), w, centring, ev);
  }

  /**
   * A pixel whose local ratio is undefined at step `s` (ETa or ETp
   * missing, or ETp zero) gets no event at any step whose temporal
   * window covers `s`.
   */
  lemma UndefinedRatioNoEvent(a: ETAnalysis, out: Dataset, ds: Dataset, opts: Options, w: int, centring: Centring,
                              ev: Cube<int>, s: nat, t: nat, i: nat, j: nat)
    requires LocalFrom(out, ds, opts, w, centring) && RegionalAvgName in out.vars
    requires EventsOf(a, ev, out.vars[LocalAvgName], out.vars[RegionalAvgName], ds.nt, |ds.y|, |ds.x|)
    requires s < ds.nt && t < ds.nt && i < |ds.y| && j < |ds.x| && Covers(t, w, CentreOffset(centring, w), s)
    requires !(ds.vars[opts.etaName][s][i][j].Some? && ds.vars[opts.etpName][s][i][j].Some?
               && ds.vars[opts.etpName][s][i][j].value != 0.0)
    ensures ev[t][i][j] == 0
  {
    NanPoisonsCoveringWindows(out.vars[LocalAvgName], out.vars[LocalRatioName], GapMask(ds.time.value),
                              w, CentreOffset(centring, w), ds.nt, |ds.y|, |ds.x|, s, t, i, j);
  }
}
