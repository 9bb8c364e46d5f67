# ET-ratio irrigation delineation and water accounting, in Dafny

This project models the decision core of `centum`. The core reads a daily
cube of actual evapotranspiration (ETa) and potential evapotranspiration
(ETp) over a projected (time, y, x) grid. From it the core computes:

- a **local** ratio ETa/ETp per pixel;
- a **regional** ratio, from ETa and ETp first averaged over a square
  window of the grid;
- a centred temporal mean of each ratio. A time step that follows a gap of
  more than 1.1 days is blanked out before that mean is taken.

The core then flags the cells where each smoothed ratio is strictly above
its threshold. It applies two rules:

- **rain**: the regional flag is set and |regional| ≥ |local|;
- **irrigation**: the local flag is set and |local| > 1.5·|regional|.

Finally it labels every cell 1 (irrigation), 2 (rain) or 0 (no event). A
separate validator lists every problem of an input dataset, and fails when
the list is non-empty. The water-accounting helpers convert ETa depths
(mm/day) into volumes (m³/day) per pixel. They use a pixel area estimated
from the mean coordinate spacing.

Modules, in dependency order:

- `Values` (values.dfy): a cell is `Option<real>`, where `None` is NaN. It
  holds NumPy's NaN-propagating arithmetic and comparisons, and the mean
  with xarray's default `min_periods`.
- `Cubes` (cubes.dfy): (time, y, x) cubes as nested sequences, with
  cell-wise maps and NaN counts.
- `Rolling` (rolling.dfy): centred rolling windows along one axis and over
  the two spatial axes.
- `Datasets` (datasets.dfy): the `Dataset` of named cubes, the
  `ETAnalysis` settings, and the errors.
- `Validation` (validation.dfy): `check_data_validity`.
- `Smoothing` (smoothing.dfy): the gap mask, `apply_time_window_mean`,
  `compute_rolling_time_mean`.
- `Ratios` (ratios.dfy): the local and regional ratios, their time
  differences, and the physical-to-cell window conversion.
- `Decision` (decision.dfy): the threshold flags, the two rules and
  `classify_event`.
- `Delineation` (delineation.dfy): `irrigation_delineation` as one chain,
  and what it decides for each cell.
- `Accounting` (accounting.dfy): `compute_pixel_area`,
  `et_mm_day_to_m3_day` and `compute_water_accounting`.

Behaviour worth knowing, where the model follows the code:

- **Window cell count.** The number of cells of the regional window is
  `max(1, int(size / resolution))`, which truncates toward zero. It is not
  a rounded quotient.
- **Missing pixels fail validation.** A dataset with missing pixels fails
  the check, just like one with a missing variable.
- **No partial windows.** A rolling window that runs past the edge of the
  grid or of the time axis gives NaN, because the default `min_periods`
  requires a full window.
- **Window size unit.** The regional window size of
  `compute_ratio_ETap_regional` defaults to `10`, which its comment
  describes as kilometres. `compute_regional_ETap` reads that value as
  metres. With the default, any grid coarser than 5 m therefore gets a
  one-cell regional window. The regional ratio is then the local ratio,
  and no cell is ever classified as irrigation:
  `Delineation.DefaultWindowIsOneCell` and
  `Delineation.DefaultOptionsNoIrrigation` prove this for the default, and
  `Delineation.CoarseGridNoIrrigation` for any size under two spacings.
- **The ratio differences need a time index.** Storing the day-over-day
  difference of a ratio aligns it on the dataset's time coordinate. Both
  ratio computations, and so the whole delineation, therefore fail on a
  dataset with no time coordinate or with a repeated timestamp, even
  without a time window.

Orchestration (`IrrigationDelineation` and its stages) is written as
methods that call the pure stage functions. Every stage is a total
function returning a `Result`: a missing variable, coordinate or dimension
is an `Err`, not a precondition.

## Model

| member | source | states |
|---|---|---|
| Validation.DataIssues | centum/delineation.py:124-152 | the issue list names a missing time axis, a non-daily spacing, each missing variable, each variable with NaN cells (with its NaN count) and a missing CRS, each exactly when it applies; a time issue comes first and the CRS issue last; at most four issues |
| Validation.CheckDataValidity | centum/delineation.py:154-158 | the check fails exactly when the issue list is non-empty, and the failure carries the whole list |
| Validation.ValidityConditions | centum/delineation.py:124-160 | the check passes iff the time axis exists with one-day steps, both variables are present without a NaN cell, and a CRS is attached |
| Validation.AllIssuesReported | centum/delineation.py:124-158 | a dataset missing both its time axis and its CRS fails with both issues reported, not only the first |
| Rolling.CentreOffset | centum/delineation.py:317-321 | a centred window of w cells puts at most one more cell on one side than on the other, and exactly as many on both sides when w is odd |
| Rolling.RollMean | centum/delineation.py:366-367 | a rolling mean keeps the length, and a value is defined iff its whole window fits inside the axis and holds no NaN |
| Rolling.RollMeanWithin | centum/delineation.py:366-367 | a rolling mean over defined values lies between their lower and upper bounds |
| Rolling.RollMeanConstant | centum/delineation.py:366-367 | the rolling mean of a constant window is that constant |
| Rolling.SpatialCell | centum/delineation.py:317-321 | a spatially rolled cell is defined iff its window fits both axes and holds no NaN |
| Rolling.RollSpace | centum/delineation.py:317-321 | rolling over y and x keeps the cube's shape, and each cell is the mean of its spatial window |
| Rolling.BlockDefined | centum/delineation.py:317-321 | the cells of a spatial window are all defined iff every covered grid cell is |
| Smoothing.GapMask | centum/delineation.py:359-361 | the gap mask has one entry per time step and its first entry is true |
| Smoothing.GapMaskInSeconds | centum/delineation.py:359-361 | entry i of the mask is true iff the step from t[i-1] to t[i] is at most 1.1 days |
| Smoothing.NoGapNoMask | centum/delineation.py:359-361 | a time axis with no step over one day masks nothing |
| Smoothing.TwoDayGapMasked | centum/delineation.py:359-361 | a two-day step masks the step after it |
| Smoothing.SmoothCube | centum/delineation.py:363-368 | each smoothed cell is the mean of its full, unmasked window, and NaN otherwise |
| Smoothing.SmoothCell | centum/delineation.py:363-368 | smoothing equals masking the blanked steps to NaN and then taking the plain centred rolling mean |
| Smoothing.ApplyTimeWindowMean | centum/delineation.py:340-370 | succeeds iff there is a time axis, the variable exists and the window is at least 1; then it adds only `{variable}_time_avg`, of the same shape, smoothed from the variable |
| Smoothing.GapPoisonsCoveringWindows | centum/delineation.py:361-367 | a masked step makes every smoothed value whose window covers it NaN |
| Smoothing.NanPoisonsCoveringWindows | centum/delineation.py:363-367 | a NaN input cell makes every smoothed value whose window covers it NaN |
| Smoothing.UnmaskedWindowDefined | centum/delineation.py:363-367 | a full window with no masked step and no NaN gives a defined mean |
| Smoothing.SmoothedAgree | centum/delineation.py:363-367 | smoothing depends only on the input cells: equal inputs give equal outputs |
| Smoothing.ComputeRollingTimeMean | centum/delineation.py:425-426 | every variable is replaced by its three-step trailing mean, with nothing masked; coordinates and names are unchanged |
| Smoothing.RollingTimeMeanWarmUp | centum/delineation.py:425-426 | the first two time steps of the three-step trailing mean are NaN |
| Ratios.RatioCube | centum/delineation.py:190 | the ratio is defined iff ETa and ETp are defined and ETp is non-zero (ETp zero, which the model reads as NaN), and then ratio · ETp = ETa |
| Ratios.AbsTimeDiff | centum/delineation.py:193-195 | the difference is one step shorter, and each entry is the absolute change between two consecutive steps (≥ 0, NaN if either is NaN) |
| Ratios.StoredTimeDiff | centum/delineation.py:193-195 | the stored difference is NaN at the first step, and at step t it is the absolute change from t-1 to t |
| Ratios.StoreRatio | centum/delineation.py:190-203 | stores the ratio, its difference and, with a time window, its smoothed version, and changes nothing else; it fails exactly when the time coordinate is missing, a timestamp repeats, or the time window is below one step |
| Ratios.ComputeRatioLocal | centum/delineation.py:162-205 | succeeds iff both variables exist, the time coordinate exists without a repeated timestamp, and the time window (if any) is at least one step; then it adds exactly the local ratio of ETa and ETp, its difference and its smoothed version |
| Ratios.Resolution | centum/delineation.py:296-297 | the resolution is the non-negative distance between the first two coordinates |
| Ratios.EvenResolution | centum/delineation.py:296-297 | on an evenly spaced axis the resolution is the step size, whether the axis ascends or descends |
| Ratios.Trunc | centum/delineation.py:298-299 | Python's `int()` truncates toward zero |
| Ratios.TruncMonotone | centum/delineation.py:298-299 | truncation never decreases as its argument grows |
| Ratios.WindowCells | centum/delineation.py:298-299 | the window cell count is at least 1 |
| Ratios.WindowCellsFit | centum/delineation.py:298-299 | a window of at least one resolution holds the largest whole number of cells that fits in it; one under two resolutions is a single cell |
| Ratios.WindowCellsMonotone | centum/delineation.py:298-299 | a larger window never gets fewer cells |
| Ratios.RegionalWindow | centum/delineation.py:296-321 | the window has `WindowCells(size, resolution)` cells on each axis, and its offset balances the cells before and after the centre to within one (exactly, for an odd count) |
| Ratios.ComputeRegionalETap | centum/delineation.py:268-335 | the missing-dimensions error comes exactly when x or y is not a dimension; it succeeds iff both axes also have two distinct leading coordinates, and then every variable is replaced by its spatial rolling mean over the window, with coordinates and names unchanged |
| Ratios.ComputeRatioRegional | centum/delineation.py:207-265 | returns the dataset unchanged unless the statistic is "mean"; otherwise it succeeds iff the grid allows the window, both variables exist and the time coordinate exists without a repeated timestamp, and then adds exactly the ratio of the spatially averaged ETa and ETp over a square window, its difference and its smoothed version |
| Ratios.RegionalRatioOfSums | centum/delineation.py:248-250 | over a full, defined window the regional ratio is the sum of ETa over the window divided by the sum of ETp, and NaN when that sum is zero |
| Ratios.RatioOfMeansIsNotMeanOfRatios | centum/delineation.py:248-250 | a ratio of window means differs from the mean of the per-cell ratios (2/3 against 3/4) |
| Ratios.SingleCellMean | centum/delineation.py:317-321 | the mean over a one-cell window is the cell itself |
| Ratios.CoarseGridSingleCell | centum/delineation.py:296-299 | a size under two resolutions on both axes gives a one-cell window |
| Ratios.SingleCellRatiosAgree | centum/delineation.py:248-250 | with a one-cell window the regional ratio equals the local ratio at every cell |
| Decision.ThresholdFlags | centum/delineation.py:392 | each flag is 1 exactly where the value is strictly above the threshold, and 0 elsewhere, including where the value is NaN |
| Decision.ComputeBoolThresholdLocal | centum/delineation.py:373-393 | fails iff the checked variable is missing; otherwise it adds only `threshold_local`, flagging the checked variable against the local threshold of the analysis |
| Decision.ComputeBoolThresholdRegional | centum/delineation.py:395-416 | the same as the local version, for `threshold_regional` and the regional threshold |
| Decision.DefineDecisionThresholds | centum/delineation.py:419-423 | succeeds iff both smoothed ratios exist; then it adds both flags and changes nothing else |
| Decision.ThresholdOnFlags | centum/delineation.py:37-38 | thresholding a 0/1 flag gives back the flag iff 0 ≤ threshold < 1, which the default −0.25 is not |
| Decision.ApplyRulesRain | centum/delineation.py:429-454 | fails on the first of the three inputs that is missing; otherwise it adds `condRain1`, `condRain2` and `condRain` as 0/1 flags, with `condRain` set iff the regional flag is 1 and \|regional\| ≥ \|local\| |
| Decision.ApplyRulesIrrigation | centum/delineation.py:456-481 | fails on the first of the three inputs that is missing; otherwise it adds `condIrrigation1`, `condIrrigation2` and `condIrrigation`, with `condIrrigation` set iff the local flag is 1 and \|local\| > \|1.5·regional\| |
| Decision.RulesExclusive | centum/delineation.py:444-452 | the rain rule and the irrigation rule never hold together at a cell |
| Decision.EventCodeCases | centum/delineation.py:509-513 | the code is 0, 1 or 2; it is 1 iff the irrigation condition is truthy, 2 iff only the rain condition is, and 0 iff neither is |
| Decision.ClassifyEvent | centum/delineation.py:483-514 | fails iff a condition variable is missing; otherwise every cell's code is 0, 1 or 2 and follows the irrigation-first precedence |
| Decision.EventOfRules | centum/delineation.py:444-513 | on the stored rule flags, a cell is 1 iff the irrigation rule holds and 2 iff the rain rule holds: precedence never hides a rain event |
| Delineation.IrrigationDelineation | centum/delineation.py:517-569 | succeeds iff both variables exist, the time coordinate exists without a repeated timestamp, the time window (if any) is at least one step, the spatial window can be built, and both smoothed ratios exist afterwards; then it adds only the ratio, flag and condition variables, and each cell's event is 1 iff it is irrigation and 2 iff it is rain, as the smoothed local and regional ratios of the input call for |
| Delineation.RatioStages | centum/delineation.py:536-543 | the two ratio computations in sequence: which variables they add, and the smoothed ratios they hold |
| Delineation.Decide | centum/delineation.py:545-566 | flags, rules and classification on a dataset holding both smoothed ratios give the event of every cell |
| Delineation.DecideEvents | centum/delineation.py:558-566 | the rules and the classification give the event of every cell from the two smoothed ratios and the two thresholds |
| Delineation.EventsExclusive | centum/delineation.py:444-479 | no cell is both an irrigation and a rain event |
| Delineation.CoarseGridNoIrrigation | centum/delineation.py:213-244 | with a window under two grid spacings on both axes, no cell is an irrigation event, and a cell is a rain event iff its smoothed local ratio is above the regional threshold |
| Delineation.DefaultWindowIsOneCell | centum/delineation.py:213-299 | with the default window size of 10 read in metres, the regional window is one cell wide on an axis exactly when that axis is coarser than 5 m, and a single cell when both are |
| Delineation.DefaultOptionsNoIrrigation | centum/delineation.py:213-244 | with the default options on a grid coarser than 5 m on both axes, no cell is an irrigation event, and a cell is a rain event iff its smoothed local ratio is above the regional threshold |
| Delineation.UndefinedRatioNoEvent | centum/delineation.py:190-203 | a pixel whose ratio is undefined at a step (ETa or ETp missing, or ETp zero, which the model reads as NaN) gets no event at any step whose time window covers it |
| Accounting.DiffsTelescope | centum/accounting.py:24-25 | the consecutive differences of an axis sum to its last coordinate minus its first |
| Accounting.Spacing | centum/accounting.py:24-25 | the spacing is defined iff the axis has at least two coordinates, and is then ≥ 0 |
| Accounting.SpacingIsExtentPerStep | centum/accounting.py:24-25 | the mean spacing times the number of steps is the absolute extent of the axis, uniform or not |
| Accounting.EvenSpacing | centum/accounting.py:24-25 | on an evenly spaced axis with step h the spacing is \|h\| |
| Accounting.ReversedAxisSpacing | centum/accounting.py:24-25 | reversing an axis leaves its spacing unchanged |
| Accounting.PixelArea | centum/accounting.py:12-27 | the area is defined iff both axes have at least two coordinates, and is then the non-negative product of the two spacings |
| Accounting.RegularGridArea | centum/accounting.py:24-26 | a regular grid with steps hx and hy has pixel area \|hx\|·\|hy\| |
| Accounting.Volume | centum/accounting.py:42-44 | the volume is defined iff the depth and the area are, and volume · 1000 = depth · area |
| Accounting.DepthOfVolume | centum/accounting.py:42-44 | over a pixel of non-zero area, converting a depth to a volume and back gives the depth again |
| Accounting.VolumeLinear | centum/accounting.py:42-44 | the volume is linear in the depth |
| Accounting.VolumeMonotone | centum/accounting.py:42-44 | zero depth gives zero volume, and a larger non-negative depth gives a larger non-negative volume |
| Accounting.EtToVolume | centum/accounting.py:30-44 | the conversion keeps the (time, y, x) shape and applies the one pixel area to every cell |
| Accounting.ComputeWaterAccounting | centum/accounting.py:61-79 | fails iff the variable is missing; otherwise each cell's volume is defined iff its depth is and the grid has two coordinates per axis, and volume · 1000 = depth · pixel area |

## Left out

- Logging, the rich console, the log file and the `print` calls of the validator are side effects and are not modelled. The validator returns its issue list in the error instead of printing it.
- Dask chunking and the progress bar change performance only; the spatial rolling mean is modelled directly.
- Ratios.RatioCube, Delineation.UndefinedRatioNoEvent: a zero ETp under a non-zero ETa is NaN in the model but ±inf in NumPy. In the code such a pixel can still be flagged: an infinite smoothed local ratio exceeds 1.5 times any finite regional ratio, so the cell can be classified as irrigation where the model gives no event.
- Every stage is modelled as a pure function from a dataset to a new one. The code assigns into the dataset it was given, so after a failure the caller keeps a partly extended dataset. For example, `apply_rules_rain` has already stored `condRain1` when the missing regional smoothed ratio raises, and `irrigation_delineation` has already added the local variables when the regional step raises. The model returns only the error.
- Ratios.StoreRatio: a dataset with a time dimension of length zero and no time coordinate would not raise in the code, because both the difference and the axis are empty. The model reports the missing time coordinate there too.
- Floating point is modelled by `real`. NumPy's division by zero gives ±inf for a non-zero numerator. `Values.Div` gives NaN (`None`) there instead. So a pixel with ETa > 0 and ETp = 0 is undecided in the model. In NumPy, comparisons on the infinite ratio could still set flags.
- Ratios.Trunc: models `int()` on finite floats only. Float rounding of `size / resolution` is not modelled.
- Timestamps are whole seconds. The gap test `diff / 1 day <= 1.1` is modelled exactly as `10 · diff <= 11 · 86400`.
- Rolling.CentreOffset: xarray decides internally which side of an even centred window gets the extra cell. The model takes that choice as a `Centring` parameter, and every result holds for both choices.
- Delineation.IrrigationDelineation: the `threshold_local` and `threshold_regional` arguments are never read, in the code as in the model. The `time_mask` of line 553 is computed and discarded, so it is left out. The call to the validator is commented out, so the chain does not run it.
- Delineation.IrrigationDelineation: the provenance of the regional smoothed ratio is stated only when neither input variable name collides with a name the local step writes. Such a collision would make the regional step read the local step's output.
- Delineation.IrrigationDelineation: `**kwargs` is modelled as the `Options` record of the four keyword arguments both ratio computations accept. Any other keyword would raise a `TypeError` in the code, and that case is not modelled.
- `aggregate_volume` (the calendar `resample(...).sum()`) and `plot_monthly_et` are left out. Calendar resampling is library code; the other is plotting. `Accounting.ComputeWaterAccounting` stops before the resampling step.
- `centum/utils.py`, `centum/plotting.py`, the irrigation-district helpers and the documentation scripts are reprojection wrappers, plotting and data loading, and are not part of this model.
