/**
 * The decision stage of `ETAnalysis`: threshold flags on the smoothed
 * ratios, the rain and irrigation rules built on those flags, and the
 * classification of every cell into irrigation (1), rain (2) or no
 * event (0).
 */
module Decision {
  import opened Values
  import opened Cubes
  import opened Datasets
  import opened Ratios

  const ThresholdLocalName: string := "threshold_local"
  const ThresholdRegionalName: string := "threshold_regional"
  const CondRain1Name: string := "condRain1"
  const CondRain2Name: string := "condRain2"
  const CondRainName: string := "condRain"
  const CondIrrigation1Name: string := "condIrrigation1"
  const CondIrrigation2Name: string := "condIrrigation2"
  const CondIrrigationName: string := "condIrrigation"

  /** A boolean array element stored as a number: exactly 0 or 1. */
  predicate IsFlag(v: Value)
  {
    v == Some(1.0) || v == Some(0.0)
  }

  /** `c > threshold` at one cell: a NaN cell is never above a threshold. */
  predicate Above(v: Value, threshold: real)
  {
    v.Some? && v.value > threshold
  }

  /** `xr.where(c > threshold, True, False)` over a whole cube. */
  function ThresholdFlags(c: Cube<Value>, threshold: real, ny: nat, nx: nat): (f: Cube<Value>)
    requires IsCube(c, |c|, ny, nx)
    ensures IsCube(f, |c|, ny, nx)
    ensures forall t, i, j :: 0 <= t < |c| && 0 <= i < ny && 0 <= j < nx ==>
      IsFlag(f[t][i][j]) && (EqNum(f[t][i][j], 1.0) <==> Above(c[t][i][j], threshold))
  {
    MapCube(c, ny, nx, v => FromBool(Gt(v, Some(threshold))))
  }

  /**
   * `compute_bool_threshold_decision_local`: flags where `checkp` (by
   * default the smoothed local ratio) lies strictly above the local
   * threshold, under `threshold_local`.
   */
  function ComputeBoolThresholdLocal(a: ETAnalysis, ds: Dataset, checkp: string): (r: Result<Dataset>)
    requires WellFormed(ds)
    ensures r.Ok? <==> checkp in ds.vars
    ensures r.Err? ==> r.error == MissingVariable(checkp)
    ensures r.Ok? ==>
      && Extends(r.value, ds, {ThresholdLocalName})
      && forall t, i, j :: 0 <= t < ds.nt && 0 <= i < |ds.y| && 0 <= j < |ds.x| ==>
           IsFlag(r.value.vars[ThresholdLocalName][t][i][j])
           && (EqNum(r.value.vars[ThresholdLocalName][t][i][j], 1.0) <==> Above(ds.vars[checkp][t][i][j], a.thresholdLocal))
  {
    if checkp !in ds.vars then Err(MissingVariable(checkp))
    else Ok(Put(ds, ThresholdLocalName, ThresholdFlags(ds.vars[checkp], a.thresholdLocal, |ds.y|, |ds.x|)))
  }

  /** `compute_bool_threshold_decision_regional`: the same against the regional threshold. */
  function ComputeBoolThresholdRegional(a: ETAnalysis, ds: Dataset, checkp: string): (r: Result<Dataset>)
    requires WellFormed(ds)
    ensures r.Ok? <==> checkp in ds.vars
    ensures r.Err? ==> r.error == MissingVariable(checkp)
    ensures r.Ok? ==>
      && Extends(r.value, ds, {ThresholdRegionalName})
      && forall t, i, j :: 0 <= t < ds.nt && 0 <= i < |ds.y| && 0 <= j < |ds.x| ==>
           IsFlag(r.value.vars[ThresholdRegionalName][t][i][j])
           && (EqNum(r.value.vars[ThresholdRegionalName][t][i][j], 1.0) <==> Above(ds.vars[checkp][t][i][j], a.thresholdRegional))
  {
    if checkp !in ds.vars then Err(MissingVariable(checkp))
    else Ok(Put(ds, ThresholdRegionalName, ThresholdFlags(ds.vars[checkp], a.thresholdRegional, |ds.y|, |ds.x|)))
  }

  /**
   * `define_decision_thresholds`: both flags, each on its default
   * smoothed ratio.
   */
  function DefineDecisionThresholds(a: ETAnalysis, ds: Dataset): (r: Result<Dataset>)
    requires WellFormed(ds)
    ensures r.Ok? <==> LocalAvgName in ds.vars && RegionalAvgName in ds.vars
    ensures r.Err? ==> r.error == MissingVariable(if LocalAvgName !in ds.vars then LocalAvgName else RegionalAvgName)
    ensures r.Ok? ==>
      && Extends(r.value, ds, {ThresholdLocalName, ThresholdRegionalName})
      && forall t, i, j :: 0 <= t < ds.nt && 0 <= i < |ds.y| && 0 <= j < |ds.x| ==>
        && (EqNum(r.value.vars[ThresholdLocalName][t][i][j], 1.0) <==> Above(ds.vars[LocalAvgName][t][i][j], a.thresholdLocal))
        && (EqNum(r.value.vars[ThresholdRegionalName][t][i][j], 1.0) <==> Above(ds.vars[RegionalAvgName][t][i][j], a.thresholdRegional))
  {
    var d1 :- ComputeBoolThresholdLocal(a, ds, LocalAvgName);
    var d2 :- ComputeBoolThresholdRegional(a, d1, RegionalAvgName);
    ExtendsTrans(d2, d1, ds, {ThresholdLocalName}, {ThresholdRegionalName});
    Ok(d2)
  }

  /**
   * Re-applying a threshold to a flag gives the flag back exactly when
   * the threshold separates 0 from 1; the default of -0.25 does not, so
   * the decision cannot be fed its own output.
   */
  lemma ThresholdOnFlags(threshold: real)
    ensures (forall b: bool :: Above(FromBool(b), threshold) == b) <==> 0.0 <= threshold < 1.0
  {
    if threshold < 0.0 {
      assert Above(FromBool(false), threshold);
    } else if threshold >= 1.0 {
      assert !Above(FromBool(true), threshold);
    }
  }

  /** The rain rule at one cell: the regional flag is set and `|regional| >= |local|`. */
  predicate RainRule(thresholdRegional: Value, regional: Value, local: Value)
  {
    EqNum(thresholdRegional, 1.0) && Ge(AbsV(regional), AbsV(local))
  }

  /** The irrigation rule at one cell: the local flag is set and `|local| > |1.5 * regional|`. */
  predicate IrrigationRule(thresholdLocal: Value, local: Value, regional: Value)
  {
    EqNum(thresholdLocal, 1.0) && Gt(AbsV(local), AbsV(Mul(Some(1.5), regional)))
  }

  /** `c == 1` over a cube. */
  function EqualsOne(c: Cube<Value>, ny: nat, nx: nat): (f: Cube<Value>)
    requires IsCube(c, |c|, ny, nx)
    ensures IsCube(f, |c|, ny, nx)
    ensures forall t, i, j :: 0 <= t < |c| && 0 <= i < ny && 0 <= j < nx ==>
      IsFlag(f[t][i][j]) && (EqNum(f[t][i][j], 1.0) <==> EqNum(c[t][i][j], 1.0))
  {
    MapCube(c, ny, nx, v => FromBool(EqNum(v, 1.0)))
  }

  /** `a & b` on two boolean cubes. */
  function AndCube(a: Cube<Value>, b: Cube<Value>, ny: nat, nx: nat): (f: Cube<Value>)
    requires IsCube(a, |a|, ny, nx) && IsCube(b, |a|, ny, nx)
    ensures IsCube(f, |a|, ny, nx)
    ensures forall t, i, j :: 0 <= t < |a| && 0 <= i < ny && 0 <= j < nx ==>
      IsFlag(f[t][i][j]) && (EqNum(f[t][i][j], 1.0) <==> EqNum(a[t][i][j], 1.0) && EqNum(b[t][i][j], 1.0))
  {
    ZipCube(a, b, ny, nx, (u, v) => FromBool(EqNum(u, 1.0) && EqNum(v, 1.0)))
  }

  /** `abs(big) >= abs(small)` over a cube: false wherever either is NaN. */
  function AtLeastAsLarge(big: Cube<Value>, small: Cube<Value>, ny: nat, nx: nat): (f: Cube<Value>)
    requires IsCube(big, |big|, ny, nx) && IsCube(small, |big|, ny, nx)
    ensures IsCube(f, |big|, ny, nx)
    ensures forall t, i, j :: 0 <= t < |big| && 0 <= i < ny && 0 <= j < nx ==>
      IsFlag(f[t][i][j])
      && (EqNum(f[t][i][j], 1.0) <==>
            big[t][i][j].Some? && small[t][i][j].Some? && Abs(big[t][i][j].value) >= Abs(small[t][i][j].value))
  {
    ZipCube(big, small, ny, nx, (u, v) => FromBool(Ge(AbsV(u), AbsV(v))))
  }

  /** `abs(local) > abs(1.5 * regional)` over a cube: false wherever either is NaN. */
  function ExceedsScaled(local: Cube<Value>, regional: Cube<Value>, ny: nat, nx: nat): (f: Cube<Value>)
    requires IsCube(local, |local|, ny, nx) && IsCube(regional, |local|, ny, nx)
    ensures IsCube(f, |local|, ny, nx)
    ensures forall t, i, j :: 0 <= t < |local| && 0 <= i < ny && 0 <= j < nx ==>
      IsFlag(f[t][i][j])
      && (EqNum(f[t][i][j], 1.0) <==>
            local[t][i][j].Some? && regional[t][i][j].Some? && Abs(local[t][i][j].value) > 1.5 * Abs(regional[t][i][j].value))
  {
    var f := ZipCube(local, regional, ny, nx, (u, v) => FromBool(Gt(AbsV(u), AbsV(Mul(Some(1.5), v)))));
    ScaledCube(local, regional, f, ny, nx);
    f
  }

  lemma ScaledCube(local: Cube<Value>, regional: Cube<Value>, f: Cube<Value>, ny: nat, nx: nat)
    requires IsCube(local, |local|, ny, nx) && IsCube(regional, |local|, ny, nx)
    requires f == ZipCube(local, regional, ny, nx, (u, v) => FromBool(Gt(AbsV(u), AbsV(Mul(Some(1.5), v)))))
    ensures forall t, i, j :: 0 <= t < |local| && 0 <= i < ny && 0 <= j < nx ==>
      (EqNum(f[t][i][j], 1.0) <==> local[t][i][j].Some? && regional[t][i][j].Some?
                                   && Abs(local[t][i][j].value) > 1.5 * Abs(regional[t][i][j].value))
  {
    forall t, i, j | 0 <= t < |local| && 0 <= i < ny && 0 <= j < nx
      ensures EqNum(f[t][i][j], 1.0) <==>
        local[t][i][j].Some? && regional[t][i][j].Some? && Abs(local[t][i][j].value) > 1.5 * Abs(regional[t][i][j].value)
    {
      if regional[t][i][j].Some? {
        ScaledAbsolute(regional[t][i][j].value);
      }
    }
  }

  /**
   * `apply_rules_rain`: adds `condRain1` (the regional flag equals 1),
   * `condRain2` (`|regional| >= |local|` on the smoothed ratios) and their
   * conjunction `condRain`. Reads the regional flag, then the regional and
   * the local smoothed ratios, failing on the first one missing.
   */
  function ApplyRulesRain(ds: Dataset): (r: Result<Dataset>)
    requires WellFormed(ds)
    ensures r.Ok? <==> ThresholdRegionalName in ds.vars && RegionalAvgName in ds.vars && LocalAvgName in ds.vars
    ensures r.Err? ==> r.error == MissingVariable(
      if ThresholdRegionalName !in ds.vars then ThresholdRegionalName
      else if RegionalAvgName !in ds.vars then RegionalAvgName
      else LocalAvgName)
    ensures r.Ok? ==>
      var th, reg, loc := ds.vars[ThresholdRegionalName], ds.vars[RegionalAvgName], ds.vars[LocalAvgName];
      && Extends(r.value, ds, {CondRain1Name, CondRain2Name, CondRainName})
      && r.value.vars[CondRain1Name] == EqualsOne(th, |ds.y|, |ds.x|)
      && r.value.vars[CondRain2Name] == AtLeastAsLarge(reg, loc, |ds.y|, |ds.x|)
      && forall t, i, j :: 0 <= t < ds.nt && 0 <= i < |ds.y| && 0 <= j < |ds.x| ==>
           IsFlag(r.value.vars[CondRainName][t][i][j])
           && (EqNum(r.value.vars[CondRainName][t][i][j], 1.0) <==> RainRule(th[t][i][j], reg[t][i][j], loc[t][i][j]))
  {
    if ThresholdRegionalName !in ds.vars then Err(MissingVariable(ThresholdRegionalName))
    else
      var d1 := Put(ds, CondRain1Name, EqualsOne(ds.vars[ThresholdRegionalName], |ds.y|, |ds.x|));
      if RegionalAvgName !in ds.vars then Err(MissingVariable(RegionalAvgName))
      else if LocalAvgName !in ds.vars then Err(MissingVariable(LocalAvgName))
      else
        var d2 := Put(d1, CondRain2Name, AtLeastAsLarge(ds.vars[RegionalAvgName], ds.vars[LocalAvgName], |ds.y|, |ds.x|));
        var d3 := Put(d2, CondRainName, AndCube(d2.vars[CondRain1Name], d2.vars[CondRain2Name], |ds.y|, |ds.x|));
        RainFlagsCells(ds.vars[ThresholdRegionalName], ds.vars[RegionalAvgName], ds.vars[LocalAvgName], |ds.y|, |ds.x|);
        ExtendsTrans(d2, d1, ds, {CondRain1Name}, {CondRain2Name});
        ExtendsTrans(d3, d2, ds, {CondRain1Name, CondRain2Name}, {CondRainName});
        Ok(d3)
  }

  /**
   * `apply_rules_irrigation`: adds `condIrrigation1` (the local flag
   * equals 1), `condIrrigation2` (`|local| > |1.5 * regional|`) and their
   * conjunction `condIrrigation`. Reads the local flag, then the local and
   * the regional smoothed ratios.
   */
  function ApplyRulesIrrigation(ds: Dataset): (r: Result<Dataset>)
    requires WellFormed(ds)
    ensures r.Ok? <==> ThresholdLocalName in ds.vars && LocalAvgName in ds.vars && RegionalAvgName in ds.vars
    ensures r.Err? ==> r.error == MissingVariable(
      if ThresholdLocalName !in ds.vars then ThresholdLocalName
      else if LocalAvgName !in ds.vars then LocalAvgName
      else RegionalAvgName)
    ensures r.Ok? ==>
      var th, loc, reg := ds.vars[ThresholdLocalName], ds.vars[LocalAvgName], ds.vars[RegionalAvgName];
      && Extends(r.value, ds, {CondIrrigation1Name, CondIrrigation2Name, CondIrrigationName})
      && r.value.vars[CondIrrigation1Name] == EqualsOne(th, |ds.y|, |ds.x|)
      && r.value.vars[CondIrrigation2Name] == ExceedsScaled(loc, reg, |ds.y|, |ds.x|)
      && forall t, i, j :: 0 <= t < ds.nt && 0 <= i < |ds.y| && 0 <= j < |ds.x| ==>
           IsFlag(r.value.vars[CondIrrigationName][t][i][j])
           && (EqNum(r.value.vars[CondIrrigationName][t][i][j], 1.0) <==> IrrigationRule(th[t][i][j], loc[t][i][j], reg[t][i][j]))
  {
    if ThresholdLocalName !in ds.vars then Err(MissingVariable(ThresholdLocalName))
    else
      var d1 := Put(ds, CondIrrigation1Name, EqualsOne(ds.vars[ThresholdLocalName], |ds.y|, |ds.x|));
      if LocalAvgName !in ds.vars then Err(MissingVariable(LocalAvgName))
      else if RegionalAvgName !in ds.vars then Err(MissingVariable(RegionalAvgName))
      else
        var d2 := Put(d1, CondIrrigation2Name, ExceedsScaled(ds.vars[LocalAvgName], ds.vars[RegionalAvgName], |ds.y|, |ds.x|));
        var d3 := Put(d2, CondIrrigationName, AndCube(d2.vars[CondIrrigation1Name], d2.vars[CondIrrigation2Name], |ds.y|, |ds.x|));
        IrrigationFlagsCells(ds.vars[ThresholdLocalName], ds.vars[LocalAvgName], ds.vars[RegionalAvgName], |ds.y|, |ds.x|);
        ExtendsTrans(d2, d1, ds, {CondIrrigation1Name}, {CondIrrigation2Name});
        ExtendsTrans(d3, d2, ds, {CondIrrigation1Name, CondIrrigation2Name}, {CondIrrigationName});
        Ok(d3)
  }

  /** The conjunction `apply_rules_rain` stores is the rain rule, cell by cell. */
  lemma RainFlagsCells(th: Cube<Value>, reg: Cube<Value>, loc: Cube<Value>, ny: nat, nx: nat)
    requires IsCube(th, |th|, ny, nx) && IsCube(reg, |th|, ny, nx) && IsCube(loc, |th|, ny, nx)
    ensures var f := AndCube(EqualsOne(th, ny, nx), AtLeastAsLarge(reg, loc, ny, nx), ny, nx);
      forall t, i, j :: 0 <= t < |th| && 0 <= i < ny && 0 <= j < nx ==>
        IsFlag(f[t][i][j]) && (EqNum(f[t][i][j], 1.0) <==> RainRule(th[t][i][j], reg[t][i][j], loc[t][i][j]))
  {
    var c1, c2 := EqualsOne(th, ny, nx), AtLeastAsLarge(reg, loc, ny, nx);
    var f := AndCube(c1, c2, ny, nx);
    forall t, i, j | 0 <= t < |th| && 0 <= i < ny && 0 <= j < nx
      ensures IsFlag(f[t][i][j]) && (EqNum(f[t][i][j], 1.0) <==> RainRule(th[t][i][j], reg[t][i][j], loc[t][i][j]))
    {
      assert EqNum(c1[t][i][j], 1.0) <==> EqNum(th[t][i][j], 1.0);
    }
  }

  /** The conjunction `apply_rules_irrigation` stores is the irrigation rule, cell by cell. */
  lemma IrrigationFlagsCells(th: Cube<Value>, loc: Cube<Value>, reg: Cube<Value>, ny: nat, nx: nat)
    requires IsCube(th, |th|, ny, nx) && IsCube(loc, |th|, ny, nx) && IsCube(reg, |th|, ny, nx)
    ensures var f := AndCube(EqualsOne(th, ny, nx), ExceedsScaled(loc, reg, ny, nx), ny, nx);
      forall t, i, j :: 0 <= t < |th| && 0 <= i < ny && 0 <= j < nx ==>
        IsFlag(f[t][i][j]) && (EqNum(f[t][i][j], 1.0) <==> IrrigationRule(th[t][i][j], loc[t][i][j], reg[t][i][j]))
  {
    var c1, c2 := EqualsOne(th, ny, nx), ExceedsScaled(loc, reg, ny, nx);
    var f := AndCube(c1, c2, ny, nx);
    forall t, i, j | 0 <= t < |th| && 0 <= i < ny && 0 <= j < nx
      ensures IsFlag(f[t][i][j]) && (EqNum(f[t][i][j], 1.0) <==> IrrigationRule(th[t][i][j], loc[t][i][j], reg[t][i][j]))
    {
      assert EqNum(c1[t][i][j], 1.0) <==> EqNum(th[t][i][j], 1.0);
      if reg[t][i][j].Some? {
        ScaledAbsolute(reg[t][i][j].value);
      }
    }
  }

  /** `|1.5 * x| == 1.5 * |x|`. */
  lemma ScaledAbsolute(x: real)
    ensures Abs(1.5 * x) == 1.5 * Abs(x)
  {
  }

  /**
   * Rain and irrigation never hold together at a cell, whatever the
   * flags: rain needs `|regional| >= |local|`, irrigation
   * `|local| > 1.5 |regional|`.
   */
  lemma RulesExclusive(thresholdLocal: Value, thresholdRegional: Value, local: Value, regional: Value)
    ensures !(RainRule(thresholdRegional, regional, local) && IrrigationRule(thresholdLocal, local, regional))
  {
    if regional.Some? {
      ScaledAbsolute(regional.value);
    }
  }

  /**
   * The code of one cell: `xr.where(irrigation, 1, xr.where(rain, 2, 0))`.
   * A NaN condition counts as true, as NumPy's truth test makes it.
   */
  function EventCode(irrigation: Value, rain: Value): (e: int)
  {
    if Truthy(irrigation) then 1 else if Truthy(rain) then 2 else 0
  }

  /** The code is always one of 0, 1 and 2, and irrigation takes precedence. */
  lemma EventCodeCases(irrigation: Value, rain: Value)
    ensures EventCode(irrigation, rain) in {0, 1, 2}
    ensures EventCode(irrigation, rain) == 1 <==> Truthy(irrigation)
    ensures EventCode(irrigation, rain) == 2 <==> !Truthy(irrigation) && Truthy(rain)
    ensures EventCode(irrigation, rain) == 0 <==> !Truthy(irrigation) && !Truthy(rain)
  {
  }

  /**
   * `classify_event`: the event code of every cell from the two named
   * condition variables, read irrigation first.
   */
  function ClassifyEvent(ds: Dataset, irrigationCondition: string, rainCondition: string): (r: Result<Cube<int>>)
    requires WellFormed(ds)
    ensures r.Ok? <==> irrigationCondition in ds.vars && rainCondition in ds.vars
    ensures r.Err? ==> r.error == MissingVariable(if irrigationCondition !in ds.vars then irrigationCondition else rainCondition)
    ensures r.Ok? ==>
      && IsCube(r.value, ds.nt, |ds.y|, |ds.x|)
      && forall t, i, j :: 0 <= t < ds.nt && 0 <= i < |ds.y| && 0 <= j < |ds.x| ==>
        var irr, rain := ds.vars[irrigationCondition][t][i][j], ds.vars[rainCondition][t][i][j];
        && r.value[t][i][j] in {0, 1, 2}
        && (r.value[t][i][j] == 1 <==> Truthy(irr))
        && (r.value[t][i][j] == 2 <==> !Truthy(irr) && Truthy(rain))
  {
    if irrigationCondition !in ds.vars then Err(MissingVariable(irrigationCondition))
    else if rainCondition !in ds.vars then Err(MissingVariable(rainCondition))
    else Ok(ZipCube(ds.vars[irrigationCondition], ds.vars[rainCondition], |ds.y|, |ds.x|, EventCode))
  }

  /**
   * On flags as the rules store them, a cell is an irrigation event
   * exactly when its irrigation flag is set, and a rain event exactly when
   * its rain flag is set: since the rules exclude each other, the
   * precedence of irrigation never hides a rain event.
   */
  lemma EventOfRules(thresholdLocal: Value, thresholdRegional: Value, local: Value, regional: Value)
    ensures var e := EventCode(FromBool(IrrigationRule(thresholdLocal, local, regional)),
                               FromBool(RainRule(thresholdRegional, regional, local)));
      && (e == 1 <==> IrrigationRule(thresholdLocal, local, regional))
      && (e == 2 <==> RainRule(thresholdRegional, regional, local))
      && (e == 0 <==> !IrrigationRule(thresholdLocal, local, regional) && !RainRule(thresholdRegional, regional, local))
  {
    RulesExclusive(thresholdLocal, thresholdRegional, local, regional);
  }
}
