/**
 * `ETAnalysis.check_data_validity`: every problem found is collected, and
 * the check fails exactly when the collection is non-empty. The console
 * report of the issues is left out; the issues travel in the error.
 */
module Validation {
  import opened Values
  import opened Cubes
  import opened Datasets

  /** Every consecutive pair of timestamps is exactly one day apart. */
  predicate DailySpacing(t: seq<int>)
  {
    forall i :: 0 < i < |t| ==> t[i] - t[i - 1] == Day
  }

  function TimeIssues(ds: Dataset): (issues: seq<Issue>)
    ensures forall i :: i in issues ==> i.TimeMissing? || i.TimeGaps?
    ensures TimeMissing in issues <==> ds.time.None?
    ensures TimeGaps in issues <==> ds.time.Some? && !DailySpacing(ds.time.value)
    ensures |issues| <= 1
  {
    if ds.time.None? then [TimeMissing]
    else if DailySpacing(ds.time.value) then []
    else [TimeGaps]
  }

  /** A missing variable, or the number of NaN cells of a present one. */
  function VariableIssues(ds: Dataset, name: string): (issues: seq<Issue>)
    ensures forall i :: i in issues ==> i.VariableMissing? || i.MissingPixels?
    ensures forall n :: VariableMissing(n) in issues <==> n == name && name !in ds.vars
    ensures forall n, k :: MissingPixels(n, k) in issues <==>
      n == name && name in ds.vars && k == CountMissing(ds.vars[name]) && k > 0
    ensures |issues| <= 1
  {
    if name !in ds.vars then [VariableMissing(name)]
    else
      var n := CountMissing(ds.vars[name]);
      if n > 0 then [MissingPixels(name, n)] else []
  }

  /**
   * Every issue the validator appends: the time issue first, the ETa and
   * ETp issues next, the missing spatial reference last.
   */
  function DataIssues(a: ETAnalysis, ds: Dataset): (issues: seq<Issue>)
    ensures TimeMissing in issues <==> ds.time.None?
    ensures TimeGaps in issues <==> ds.time.Some? && !DailySpacing(ds.time.value)
    ensures CrsMissing in issues <==> !ds.hasCrs
    ensures ds.time.None? ==> issues[0] == TimeMissing
    ensures ds.time.Some? && !DailySpacing(ds.time.value) ==> issues[0] == TimeGaps
    ensures !ds.hasCrs ==> issues[|issues| - 1] == CrsMissing
    ensures forall n :: VariableMissing(n) in issues <==>
      (n == a.etaName || n == a.etpName) && n !in ds.vars
    ensures forall n, k :: MissingPixels(n, k) in issues <==>
      (n == a.etaName || n == a.etpName) && n in ds.vars && k == CountMissing(ds.vars[n]) && k > 0
    ensures |issues| <= 4
  {
    TimeIssues(ds)
    + VariableIssues(ds, a.etaName)
    + VariableIssues(ds, a.etpName)
    + (if ds.hasCrs then [] else [CrsMissing])
  }

  /** Raises, carrying every issue found, exactly when there is one. */
  function CheckDataValidity(a: ETAnalysis, ds: Dataset): (r: Outcome)
    ensures r.Fail? <==> DataIssues(a, ds) != []
    ensures r.Fail? ==> r.error == ValidationFailed(DataIssues(a, ds))
  {
    var issues := DataIssues(a, ds);
    if issues != [] then Fail(ValidationFailed(issues)) else Pass
  }

  /**
   * The check passes exactly for a daily time axis, both variables
   * present without a single NaN cell, and a spatial reference.
   */
  lemma ValidityConditions(a: ETAnalysis, ds: Dataset)
    ensures CheckDataValidity(a, ds).Pass? <==>
      && ds.time.Some? && DailySpacing(ds.time.value)
      && a.etaName in ds.vars && !HasMissing(ds.vars[a.etaName])
      && a.etpName in ds.vars && !HasMissing(ds.vars[a.etpName])
      && ds.hasCrs
  {
    if a.etaName in ds.vars {
      CountMissingPositive(ds.vars[a.etaName]);
    }
    if a.etpName in ds.vars {
      CountMissingPositive(ds.vars[a.etpName]);
    }
  }

  /**
   * A missing time axis and a missing spatial reference are both reported
   * in one failure: collection does not stop at the first problem.
   */
  lemma AllIssuesReported(a: ETAnalysis, ds: Dataset)
    requires ds.time.None? && !ds.hasCrs
    ensures CheckDataValidity(a, ds).Fail?
    ensures var e := CheckDataValidity(a, ds).error;
      e.ValidationFailed? && TimeMissing in e.issues && CrsMissing in e.issues
  {
  }
}
