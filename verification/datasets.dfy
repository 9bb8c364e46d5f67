/**
 * The dataset every stage of the ET-ratio analysis reads and extends, the
 * analysis settings, and the errors a stage can raise.
 */
module Datasets {
  import opened Values
  import opened Cubes

  /** Seconds in a day: timestamps are modelled as whole seconds. */
  const Day: int := 86400

  /**
   * An xarray Dataset of (time, y, x) variables. `dims` names the
   * dimensions present, `time` is the time coordinate when there is one,
   * `nt` the number of time steps, `y` and `x` the spatial coordinates in
   * metres, `vars` the data variables and `hasCrs` whether a spatial
   * reference is attached.
   */
  datatype Dataset = Dataset(
    dims: set<string>,
    time: Option<seq<int>>,
    nt: nat,
    y: seq<real>,
    x: seq<real>,
    vars: map<string, Cube<Value>>,
    hasCrs: bool)

  /** The shared-dimension invariant xarray keeps for every Dataset. */
  predicate WellFormed(ds: Dataset)
  {
    && (ds.time.Some? ==> |ds.time.value| == ds.nt)
    && forall k :: k in ds.vars ==> IsCube(ds.vars[k], ds.nt, |ds.y|, |ds.x|)
  }

  /** No timestamp occurs twice. */
  predicate Distinct(t: seq<int>)
  {
    forall p, q :: 0 <= p < q < |t| ==> t[p] != t[q]
  }

  /**
   * `ds` has a time index a difference along time can be aligned on: a
   * time coordinate without repeated timestamps.
   */
  predicate TimeIndexed(ds: Dataset)
  {
    ds.time.Some? && Distinct(ds.time.value)
  }

  /** `c` has the shape of every variable of `ds`. */
  predicate Shaped(ds: Dataset, c: Cube<Value>)
  {
    IsCube(c, ds.nt, |ds.y|, |ds.x|)
  }

  /** `ds[name] = c`: adds or replaces one variable and leaves the rest alone. */
  function Put(ds: Dataset, name: string, c: Cube<Value>): (r: Dataset)
    requires WellFormed(ds) && Shaped(ds, c)
    ensures Extends(r, ds, {name})
    ensures r.vars[name] == c
  {
    ds.(vars := ds.vars[name := c])
  }

  /**
   * `r` is `ds` with the variables named in `added` added or replaced:
   * coordinates, dimensions and every other variable are untouched.
   */
  ghost predicate Extends(r: Dataset, ds: Dataset, added: set<string>)
  {
    && WellFormed(r)
    && r.(vars := ds.vars) == ds
    && r.vars.Keys == ds.vars.Keys + added
    && forall k :: k in ds.vars && k !in added ==> r.vars[k] == ds.vars[k]
  }

  /** Extending twice is extending once by both sets of names. */
  lemma ExtendsTrans(r2: Dataset, r1: Dataset, ds: Dataset, a1: set<string>, a2: set<string>)
    requires Extends(r1, ds, a1) && Extends(r2, r1, a2)
    ensures Extends(r2, ds, a1 + a2)
  {
  }

  /**
   * Settings of an `ETAnalysis` instance: the variable names its
   * validator looks for and the two decision thresholds.
   */
  datatype ETAnalysis = ETAnalysis(
    etaName: string,
    etpName: string,
    thresholdLocal: real,
    thresholdRegional: real)

  /** `ETAnalysis()` with every field at its default. */
  function DefaultAnalysis(): (a: ETAnalysis)
    ensures a.thresholdLocal == a.thresholdRegional < 0.0
  {
    ETAnalysis("ETa", "ETp", -0.25, -0.25)
  }

  /** A problem the validator reports. */
  datatype Issue =
    | TimeMissing
    | TimeGaps
    | MissingPixels(variable: string, count: nat)
    | VariableMissing(variable: string)
    | CrsMissing

  /** The exceptions a stage raises, by cause. */
  datatype Error =
    | MissingVariable(name: string)
    | MissingTimeCoordinate
    | DuplicateTimestamps
    | MissingSpatialDims
    | TooFewCoordinates
    | NonFiniteWindow
    | NonPositiveWindow
    | ValidationFailed(issues: seq<Issue>)

  datatype Result<+T> = Ok(value: T) | Err(error: Error)
  {
    predicate IsFailure()
    {
      Err?
    }

    function PropagateFailure<U>(): Result<U>
      requires Err?
    {
      Err(error)
    }

    function Extract(): T
      requires Ok?
    {
      value
    }
  }

  datatype Outcome = Pass | Fail(error: Error)
}
