# md_plot numerical engine, modelled in Dafny

md_plot draws mirrored-density ("MD") plots of one-dimensional samples. This
project models the numerical engine behind those plots and proves properties of it:

- **pretty** (`PrettyBreaks`): R's `pretty`. It finds a "nice" step of 1, 2, 5 or
  10 times a power of ten, and the multiples of that step that cover a range.
- **optimal_no_bins** (`BinCount`): the Keating/Scott number of histogram bins.
- **pareto_radius** (`RadiusEstimation`): the 18th percentile of the pairwise
  distances. It has a fallback when that percentile is 0 and a shrinking factor
  for large samples.
- **pareto_density_estimation** (`DensityEstimation`): kernels from `pretty`,
  mirroring of the points near both edges, window counts around every kernel,
  and normalisation by the trapezoidal area.
- **bimodal** (`Bimodality`): the curvature of the quantile function. It uses
  filtered finite differences, the longest convex and concave stretches, and
  the Normal(7, 3) score.
- **robust_normalization** (`Normalization`): quantile rescaling with optional
  centring and capping. It works on a series, and on a data frame column by column.

The shared module `Numeric` holds the rest. Cell values are `Num`: a finite real,
NaN, +inf or -inf. A column is numeric or not. Errors are a `Result`. The
library numerics are collected in `Primitives`:

- scipy `mquantiles`;
- pandas `quantile`, `median` and `std`;
- `n**(1/3)` and `n**0.2`;
- `floor(log10 x)`;
- `norm.ppf` and `norm.cdf`.

These are given functions. The predicate `ValidPrimitives` states the only facts
the proofs use about them:

- quantiles lie between the extremes of the sample and grow with the probability;
- `std` is NaN for fewer than two values and non-negative otherwise;
- the roots of a positive count are positive;
- `floorLog10` is the floor of the logarithm;
- `norm.ppf` is increasing.

Arithmetic is over exact reals.

Where the source raises an exception, the model returns `Err`:

- "Data is not numeric!" becomes `NotNumeric`.
- "Pareto Radius could not be calculated" becomes `RadiusNotComputable`.
- Indexing the scalar radius at the end of `pareto_radius` becomes `ScalarIndex`.
  Only the as-written selection produces it (see Findings).
- `nice_step` on a zero or NaN range fails with `nf` unbound, because none of its
  four `if`s fires. This becomes `UndefinedRange`. `pareto_density_estimation`
  reaches it for empty data or data with a single distinct value.

The loops of the source are methods proved against specification functions:

- the kernel loop of the density estimate (`WindowCounts`);
- the run-length loop of `convex_concave` (`LongestRuns`);
- the masked writes into `posOrNeg` (`ClassifyCurvature`, over a fresh array);
- the per-column loop of the data-frame normalisation (`RobustNormalizationFrame`).

## Model

| member | source | states |
|---|---|---|
| Numeric.Clean | md_plot/helper/pareto_density_estimation.py:41 | the cleaned sample has only values taken from finite cells, and every finite cell's value is kept |
| Numeric.CleanAppend | md_plot/helper/pareto_density_estimation.py:41 | cleaning works cell by cell, so it distributes over concatenation and keeps the order |
| Numeric.CleanAllFinite | md_plot/helper/bimodal.py:133 | a column of finite cells is cleaned to exactly its values, in order |
| Numeric.ReplaceInfinities | md_plot/helper/robust_normalization.py:33-34 | every infinite cell becomes NaN, finite cells are kept, and no infinity is left |
| Numeric.MQuantile | md_plot/helper/optimal_no_bins.py:38 | mquantiles of an empty sample is missing (NaN); otherwise it is the library quantile |
| Numeric.SeqMin | md_plot/helper/pareto_density_estimation.py:54 | `data.min()` is an element of the sample that no element undercuts |
| Numeric.SeqMax | md_plot/helper/pareto_density_estimation.py:55 | `data.max()` is an element of the sample that no element exceeds |
| Numeric.Floor | md_plot/helper/pretty.py:62 | `np.floor` gives the integer f with f <= x < f + 1 |
| Numeric.Ceil | md_plot/helper/pretty.py:63 | `np.ceil` gives the integer c with c - 1 < x <= c |
| Numeric.FloorTimes | md_plot/helper/pretty.py:62 | floor(x/d)*d is the last multiple of d at or below x: x - d < floor(x/d)*d <= x |
| Numeric.CeilTimes | md_plot/helper/pretty.py:63 | ceil(x/d)*d is the first multiple of d at or above x: x <= ceil(x/d)*d < x + d |
| PrettyBreaks.CutsOrdered | md_plot/helper/pretty.py:25-32 | for non-negative biases the three thresholds are ordered 1 < low <= 2 < mid <= 5 < high <= 10 |
| PrettyBreaks.DefaultCuts | md_plot/helper/pretty.py:17-20 | the default biases are h = 1.5 and h5 = 2.75, which put the thresholds at 1.4, 2.8 and 7 |
| PrettyBreaks.Multiplier | md_plot/helper/pretty.py:25-32 | each of the four multipliers is chosen exactly when its own `if` condition holds (an if-and-only-if per branch), so exactly one `if` fires |
| PrettyBreaks.NiceStep | md_plot/helper/pretty.py:14-34 | the step is positive and is 1, 2, 5 or 10 times 10^floor(log10 x) |
| PrettyBreaks.MantissaRange | md_plot/helper/pretty.py:22-23 | the mantissa f = x / 10^exp lies in [1, 10) |
| PrettyBreaks.DefaultMultiplierRatio | md_plot/helper/pretty.py:25-32 | with the default biases the multiplier is between 5/7 and 25/14 of the mantissa |
| PrettyBreaks.NiceStepNearTarget | md_plot/helper/pretty.py:14-34 | with the default biases the nice step is between 5/7 and 25/14 of the requested x |
| PrettyBreaks.Arange | md_plot/helper/pretty.py:64 | `np.arange(start, stop, step)` has max(0, ceil((stop-start)/step)) elements start + i*step, all below stop, and the next one would reach stop |
| PrettyBreaks.PrettyStep | md_plot/helper/pretty.py:61 | the step of `pretty` is positive |
| PrettyBreaks.MultiplesBetween | md_plot/helper/pretty.py:62-64 | arange(lo*d, hi*d + d/2, d) is exactly the hi - lo + 1 multiples lo*d, ..., hi*d |
| PrettyBreaks.Pretty | md_plot/helper/pretty.py:37-64 | the breaks are consecutive multiples of the step, from the last one at or below `low` to the first one at or above `high` |
| PrettyBreaks.PrettyShape | md_plot/helper/pretty.py:61-64 | there are ceil(high/d) - floor(low/d) + 1 breaks, and they cover [low, high] |
| PrettyBreaks.CoversSpan | md_plot/helper/pretty.py:62-64 | the breaks span at least high - low, and overshoot by less than one step at each end |
| PrettyBreaks.PrettyStepNearTarget | md_plot/helper/pretty.py:56-61 | with the default biases the step of `pretty` is between 5/7 and 25/14 of (high - low)/n |
| PrettyBreaks.PrettyIntervalsNearRequested | md_plot/helper/pretty.py:37-64 | asked for n intervals, `pretty` returns m with 14n < 25m and 5m < 7n + 10, i.e. roughly between 0.56n and 1.4n + 2 |
| PrettyBreaks.CoversEvenlySpaced | md_plot/helper/pretty.py:64 | consecutive breaks are exactly one step apart |
| BinCount.RobustSigma | md_plot/helper/optimal_no_bins.py:40 | Python's `min(sigma, iqr/1.349)`: NaN exactly when sigma is NaN, and otherwise at most both arguments and equal to one of them |
| BinCount.InterquartileRange | md_plot/helper/optimal_no_bins.py:38-39 | the interquartile range is non-negative |
| BinCount.ScottWidth | md_plot/helper/optimal_no_bins.py:37-41 | the bin width is NaN exactly for a single value (no standard deviation), and otherwise non-negative |
| BinCount.BinsForWidth | md_plot/helper/optimal_no_bins.py:43-46 | the count is at least 10, and exactly 10 when the width is not positive; for a positive width, that many bins cover the range, and one fewer would not unless the count is the minimum 10 |
| BinCount.BinCountOf | md_plot/helper/optimal_no_bins.py:32-48 | the count is 0 exactly for no data, at least 10 otherwise, and exactly 10 for a single value |
| BinCount.OptimalNoBins | md_plot/helper/optimal_no_bins.py:24-48 | an error exactly for non-numeric data; otherwise 0 exactly when no value survives dropna, else at least 10 |
| BinCount.ConstantDataMinBins | md_plot/helper/optimal_no_bins.py:43-46 | data of one repeated value gets exactly 10 bins |
| RadiusEstimation.CheckCopy | md_plot/helper/pareto_radius.py:36-37 | the check copy turns +inf (not -inf) into NaN and keeps every other cell |
| RadiusEstimation.PreCheckWarnsOn | md_plot/helper/pareto_radius.py:36-41 | the warning fires exactly when a cell is NaN or +inf; -inf cells do not trigger it |
| RadiusEstimation.SampleSize | md_plot/helper/pareto_radius.py:43-48 | all rows are kept when rows*cols fits the cap; otherwise k rows with k*cols <= cap < (k+1)*cols |
| RadiusEstimation.SampleSizeBelowRows | md_plot/helper/pareto_radius.py:45-52 | subsampling keeps strictly fewer rows than the data has |
| RadiusEstimation.SampledRows | md_plot/helper/pareto_radius.py:52 | `data.loc[sampledIndex]` picks exactly the indexed rows, in index order |
| RadiusEstimation.Distances | md_plot/helper/pareto_radius.py:55 | pdist of one column yields non-negative distances |
| RadiusEstimation.DistancesLength | md_plot/helper/pareto_radius.py:55 | there are n(n-1)/2 distances |
| RadiusEstimation.DistancesCoverPairs | md_plot/helper/pareto_radius.py:55 | every pair i < j contributes its distance |
| RadiusEstimation.DistancesFromPairs | md_plot/helper/pareto_radius.py:55 | every distance is the distance of some pair i < j |
| RadiusEstimation.Percentiles | md_plot/helper/pareto_radius.py:61-62 | the fallback percentiles are the 1%, ..., 100% quantiles (alphap = betap = 1/3) |
| RadiusEstimation.MinPositive | md_plot/helper/pareto_radius.py:63 | `pzt[pzt > 0].min()` is missing exactly when no percentile is positive, and is otherwise the least positive one |
| RadiusEstimation.SelectRadius | md_plot/helper/pareto_radius.py:58-73 | the intended selection (see Findings): a non-zero 18% quantile is the radius; a zero one falls back to the least positive percentile, with an error exactly when there is none; no distances is an error; every radius returned is positive |
| RadiusEstimation.SelectRadiusAsWritten | md_plot/helper/pareto_radius.py:58-95 | the selection as the code runs it: succeeds exactly when the 18% quantile is non-zero, and then agrees with the intended one; fails on the final index exactly when the intended fallback would have found a radius; otherwise fails as the intended one does |
| RadiusEstimation.FallbackRaisesAsWritten | md_plot/helper/pareto_radius.py:60-95 | a zero 18% quantile with some positive percentile makes the code fail, where the intended fallback returns a positive radius no larger than that percentile |
| RadiusEstimation.ParetoRadius | md_plot/helper/pareto_radius.py:31-95 | fewer than two values is an error; any radius returned is positive; the distances are taken over the data, or over the chosen rows when there are more cells than the cap (fewer rows than the data has); the radius is the selected percentile of those distances, scaled by 4 / nData^0.2 above 1024 cells, and errors pass through unchanged |
| RadiusEstimation.LargeSampleRadius | md_plot/helper/pareto_radius.py:92-93 | scaling by 4 / nData^0.2 keeps the radius positive, and shrinks it once nData^0.2 > 4 |
| RadiusEstimation.ZeroDistancesNoRadius | md_plot/helper/pareto_radius.py:58-73 | all-zero distances have only zero percentiles, so no radius is found |
| RadiusEstimation.ConstantDataNoRadius | md_plot/helper/pareto_radius.py:55-73 | data of one repeated value (at least two points) has no radius |
| DensityEstimation.ResolveRadius | md_plot/helper/pareto_density_estimation.py:47-52 | a given radius is kept unless it is missing, NaN or 0; then the computed Pareto radius is used, and any error comes from it; the resolved radius never needs resolving again |
| DensityEstimation.KernelCount | md_plot/helper/pareto_density_estimation.py:59-68 | the count is max(minAnzKernels, bins) up to 100, three times that plus one up to 10000, and 10000 above; never more than 30001; at least 10 when the bin estimate is |
| DensityEstimation.KernelCountNotMonotone | md_plot/helper/pareto_density_estimation.py:62-68 | 10000 estimated bins give 30001 kernels but 10001 give 10000 |
| DensityEstimation.Midpoints | md_plot/helper/pareto_density_estimation.py:71 | one kernel per bin, the mean of its two breaks |
| DensityEstimation.MidpointsInsideBins | md_plot/helper/pareto_density_estimation.py:71 | each kernel lies strictly inside its bin |
| DensityEstimation.MidpointsOfCovering | md_plot/helper/pareto_density_estimation.py:70-71 | the midpoints of covering breaks are one step apart, the first within half a step of the minimum and the last within half a step of the maximum |
| DensityEstimation.StepExponent | md_plot/helper/pretty.py:22 | the exponent is floor(log10((high - low)/n)) |
| DensityEstimation.PrettyKernels | md_plot/helper/pareto_density_estimation.py:70-71 | the kernels are the midpoints of `pretty(low, high, n)`, one fewer than the breaks, spaced by exactly the step of `pretty` and reaching to within half a step of both ends |
| DensityEstimation.RangeKernels | md_plot/helper/pareto_density_estimation.py:59-71 | the kernels are the midpoints of `pretty(low, high, nBins)` with nBins from the bin rule, one pretty step apart, spanning [low, high], and between 14 nBins / 25 and (7 nBins + 10) / 5 of them |
| DensityEstimation.GeneratedKernels | md_plot/helper/pareto_density_estimation.py:54-71 | an error exactly for no data or a single distinct value (where nice_step fails); otherwise the kernels of the range [min, max] with the Scott bin estimate of the data, evenly spaced and spanning it |
| DensityEstimation.ResolveKernels | md_plot/helper/pareto_density_estimation.py:57-71 | given kernels are used unchanged; otherwise they are generated |
| DensityEstimation.LowMirror | md_plot/helper/pareto_density_estimation.py:76-77 | at most one mirrored point per data point |
| DensityEstimation.HighMirror | md_plot/helper/pareto_density_estimation.py:79-80 | at most one mirrored point per data point |
| DensityEstimation.HighMirrorCount | md_plot/helper/pareto_density_estimation.py:79-80 | the high mirror has exactly one point per data point above maxData - r |
| DensityEstimation.LowMirrorBounds | md_plot/helper/pareto_density_estimation.py:76-77 | mirrored low points lie at or below the minimum, and within one radius of it |
| DensityEstimation.HighMirrorBounds | md_plot/helper/pareto_density_estimation.py:79-80 | mirrored high points lie at or above the maximum, and within one radius of it |
| DensityEstimation.LowMirrorCount | md_plot/helper/pareto_density_estimation.py:76-77 | the low mirror has exactly one point per data point below minData + r |
| DensityEstimation.ExtendedSample | md_plot/helper/pareto_density_estimation.py:76-82 | the extended sample is the data followed by the low mirror at the minimum and the high mirror at the maximum, so its length is the data's plus the number of points within r of each edge, at most three times the data |
| DensityEstimation.NoMirrorForNonPositiveRadius | md_plot/helper/pareto_density_estimation.py:76-82 | with a radius <= 0 or -inf nothing is mirrored |
| DensityEstimation.WindowCount | md_plot/helper/pareto_density_estimation.py:86-89 | a window never counts more points than the sample has |
| DensityEstimation.WindowCountInfinite | md_plot/helper/pareto_density_estimation.py:86-89 | a +inf radius counts every point and -inf counts none |
| DensityEstimation.WindowCountMonotone | md_plot/helper/pareto_density_estimation.py:86-89 | a wider window never counts fewer points |
| DensityEstimation.WindowCountAppend | md_plot/helper/pareto_density_estimation.py:82-89 | counts over an appended sample add up, so mirrored points add to the data's own count |
| DensityEstimation.WindowCounts | md_plot/helper/pareto_density_estimation.py:84-89 | the loop yields, for every kernel in order, the number of extended-sample points in [k - r, k + r] |
| DensityEstimation.TrapzScale | md_plot/helper/pareto_density_estimation.py:91-96 | dividing every value by a divides the trapezoidal integral by a |
| DensityEstimation.Normalise | md_plot/helper/pareto_density_estimation.py:91-96 | one density value per kernel: all 0 when the trapezoidal area of the counts is below 1e-10, otherwise each count divided by that area |
| DensityEstimation.NormaliseIntegratesToOne | md_plot/helper/pareto_density_estimation.py:91-96 | when the area reaches 1e-10 the densities are non-negative and integrate to exactly 1 over the kernels; below it they are all 0 |
| DensityEstimation.NormalisePreservesRatios | md_plot/helper/pareto_density_estimation.py:96 | normalising keeps the order of the counts |
| DensityEstimation.ParetoDensityEstimation | md_plot/helper/pareto_density_estimation.py:33-99 | non-numeric data is an error; otherwise the result is an error exactly when the radius or the kernels are; the result reports the resolved radius, the kernels, the fewer-than-10 warning, and the normalised window counts over the mirrored sample |
| Bimodality.Differences | md_plot/helper/bimodal.py:68-69 | 0 followed by the difference quotients (fx[i]-fx[i-1])/(x[i]-x[i-1]) |
| Bimodality.DifferencesRoundTrip | md_plot/helper/bimodal.py:68-69 | summing the quotients times the steps gives back every fx[i] from fx[0] |
| Bimodality.LFilter | md_plot/helper/bimodal.py:71-73 | `lfilter` keeps the length |
| Bimodality.Taps | md_plot/helper/bimodal.py:71-72 | `np.repeat(1/w, w)` has w taps |
| Bimodality.EqualTapsFir | md_plot/helper/bimodal.py:71-73 | with w equal taps each partial filter sum is a trailing window sum over w |
| Bimodality.MovingAverage | md_plot/helper/bimodal.py:78-80 | the boxcar filter is the trailing moving sum of the last w values divided by w |
| Bimodality.FilterZeros | md_plot/helper/bimodal.py:71-80 | the filter maps zeros to zeros |
| Bimodality.FilterBound | md_plot/helper/bimodal.py:71-80 | the filter never produces a value larger in magnitude than the largest input |
| Bimodality.FirstDerivative | md_plot/helper/bimodal.py:68-73 | the filtered first derivative has one value per point |
| Bimodality.SecondDerivative | md_plot/helper/bimodal.py:75-80 | the filtered second derivative has one value per point |
| Bimodality.DifferencesOfConstant | md_plot/helper/bimodal.py:68-69 | a constant fx has all quotients 0 |
| Bimodality.ConstantHasNoCurvature | md_plot/helper/bimodal.py:68-80 | a constant fx has second derivative 0 everywhere |
| Bimodality.Class | md_plot/helper/bimodal.py:83-85 | 1 exactly above EPS, -1 exactly below -EPS, 0 exactly in between |
| Bimodality.ClassifyCurvature | md_plot/helper/bimodal.py:83-85 | the two masked writes leave every position holding its class |
| Bimodality.Next | md_plot/helper/bimodal.py:82 | each position's successor is the next one, the last being its own |
| Bimodality.PosRuns | md_plot/helper/bimodal.py:88 | one flag per point |
| Bimodality.NegRuns | md_plot/helper/bimodal.py:89 | one flag per point |
| Bimodality.RunsMeaning | md_plot/helper/bimodal.py:87-89 | a point is in a convex (concave) run exactly when it and its successor are both convex (concave); no point is in both; the last point needs only itself |
| Bimodality.StretchLosesLastPoint | md_plot/helper/bimodal.py:87-88 | a convex stretch followed by a non-convex point contributes all its points but the last |
| Bimodality.FlatHasNoRuns | md_plot/helper/bimodal.py:84-89 | with the curvature within [-EPS, EPS] no point is in a run |
| Bimodality.TrailingRun | md_plot/helper/bimodal.py:96-99 | the current run is no longer than the prefix |
| Bimodality.LongestRun | md_plot/helper/bimodal.py:104-105 | the longest run is no longer than the sequence |
| Bimodality.TrailingRunIsBlock | md_plot/helper/bimodal.py:96-103 | the current run is a block of true flags ending at the end, and covers every such block |
| Bimodality.LongestRunIsLongest | md_plot/helper/bimodal.py:91-105 | the maximum run length is the length of some block of true flags, and no block is longer |
| Bimodality.LongestRuns | md_plot/helper/bimodal.py:91-105 | the loop computes exactly the longest convex and the longest concave runs |
| Bimodality.Percentage | md_plot/helper/bimodal.py:107-108 | `100 * run / anz` lies in [0, 100], and is 0 exactly for an empty run |
| Bimodality.ConvexConcave | md_plot/helper/bimodal.py:66-122 | the result holds both derivatives; ProConvex and ProConcave are the longest-run percentages, in [0, 100]; Kruemmung is 100*(ProConvex - ProConcave)/anz |
| Bimodality.FlatGivesZeroPercentages | md_plot/helper/bimodal.py:107-108 | with the curvature within [-EPS, EPS] both percentages are 0 |
| Bimodality.NoTrueNoRun | md_plot/helper/bimodal.py:91-105 | with no flag set the longest run is 0 |
| Bimodality.KruemmungScaledTwice | md_plot/helper/bimodal.py:107-109 | Kruemmung divides by anz twice: Kruemmung * anz^2 = 10000 * (maxPos - maxNeg) |
| Bimodality.NormalQuantiles | md_plot/helper/bimodal.py:137-138 | the 99 standard-normal quantiles are strictly increasing |
| Bimodality.DataQuantiles | md_plot/helper/bimodal.py:135-136 | 99 data quantiles (alphap = betap = 0.5), or none for empty data |
| Bimodality.Bimodal | md_plot/helper/bimodal.py:125-149 | non-numeric data is an error; both percentages lie in [0, 100], are 0 for no data, and are otherwise the longest-run percentages of the quantile curve's curvature; the score is normCdf(min(ProConvex, ProConcave), 7, 3) |
| Bimodality.ConstantDataIsNotBimodal | md_plot/helper/bimodal.py:133-140 | data of one repeated value has no convex or concave run |
| Normalization.Prepared | md_plot/helper/robust_normalization.py:33-34 | with narm every infinity becomes NaN; finite cells are kept, and the series has a number exactly when the input has one |
| Normalization.SeriesQuantile | md_plot/helper/robust_normalization.py:39-40 | `Series.quantile` skips NaN; it is NaN exactly for a series without numbers |
| Normalization.SeriesMedian | md_plot/helper/robust_normalization.py:47 | `Series.median` skips NaN; it is NaN exactly for a series without numbers |
| Normalization.QuantilesOrdered | md_plot/helper/robust_normalization.py:39-41 | the 1% quantile never exceeds the 99% one |
| Normalization.Denominator | md_plot/helper/robust_normalization.py:41-43 | denom is maxX - minX, or 1 when that is 0, and so always positive |
| Normalization.Rescale | md_plot/helper/robust_normalization.py:44 | numbers stay numbers and NaN stays NaN; each rescaled t satisfies t*denom + minX = x |
| Normalization.Shift | md_plot/helper/robust_normalization.py:48 | subtracting a finite centre c gives values t with t + c equal to the input; subtracting NaN gives NaN everywhere |
| Normalization.ClampBelow | md_plot/helper/robust_normalization.py:50 | numbers end at or above the bound, and numbers already there, NaN cells and a NaN bound are unchanged |
| Normalization.ClampAbove | md_plot/helper/robust_normalization.py:51 | numbers end at or below the bound, and numbers already there, NaN cells and a NaN bound are unchanged |
| Normalization.QuantileScale | md_plot/helper/robust_normalization.py:39-44 | minX and maxX are the 1% and 99% quantiles, minX <= maxX, and the data is rescaled by them with a positive denominator |
| Normalization.Centre | md_plot/helper/robust_normalization.py:46-51 | the centre is the median of the rescaled numbers; uncapped values plus the centre give back the rescaled values; capped values lie in [-1, 1], and those already there are kept |
| Normalization.CapToQuantiles | md_plot/helper/robust_normalization.py:52-57 | the reported minX and maxX are the quantiles of the rescaled series; every number is clamped into [minX, maxX], and numbers already there are kept |
| Normalization.RobustNormalizeSeries | md_plot/helper/robust_normalization.py:33-63 | the output keeps the positions of numbers and NaN; denom is NaN exactly for a series without numbers and is otherwise positive; the centre is 0 when not centring |
| Normalization.Denormalize | md_plot/helper/robust_normalization.py:59-61 | the back transformation keeps the length |
| Normalization.BackTransformation | md_plot/helper/robust_normalization.py:44-48 | without capping, (t + Center)*Denom + MinX gives back every value of the series with infinities replaced by NaN |
| Normalization.CenteredCappedInUnitRange | md_plot/helper/robust_normalization.py:46-51 | centred and capped values lie in [-1, 1]; capping changes neither the centre nor values already in range |
| Normalization.CappedWithinReportedRange | md_plot/helper/robust_normalization.py:52-57 | uncentred capped values lie within the reported MinX and MaxX; these are the rescaled-space quantiles; values already in range are kept |
| Normalization.QuantilesMapToUnit | md_plot/helper/robust_normalization.py:39-44 | the 1% quantile maps to 0, and the 99% quantile maps to 1 when the two differ |
| Normalization.RobustNormalizationFrame | md_plot/helper/robust_normalization.py:66-99 | exactly the numeric columns appear in the output and in all four parameter dictionaries, each normalised on its own with the same flags |
| Normalization.Store | md_plot/helper/robust_normalization.py:81-85 | storing a column puts its normalised values and its four parameters under its name in the five dictionaries, and leaves every other column's entries as they were |
| Normalization.StoreStep | md_plot/helper/robust_normalization.py:74-85 | one turn of the column loop keeps every column done so far and adds the current one if it is numeric |
| Normalization.KeepsOthers | md_plot/helper/robust_normalization.py:74-85 | storing one column leaves a column of another name as it was |
| Normalization.NamesExtend | md_plot/helper/robust_normalization.py:74-75 | the numeric names of a longer prefix add the new column's name exactly when it is numeric |

## Findings

| source | as written | input that shows it | evidently intended | confidence | as-written member | corrected member |
|---|---|---|---|---|---|---|
| md_plot/helper/pareto_radius.py:63 | when the 18% quantile is 0, line 63 rebinds `paretoRadius` from the one-element array returned by `mquantiles` to the scalar `pzt[pzt > 0].min()`, so `return paretoRadius[0]` at line 95 fails on any radius the fallback finds; `pareto_density_estimation` does not catch it and fails too | one column [0, 0, 0, 1]: distances 0, 0, 0, 1, 1, 1, whose 18% quantile is 0 and whose 100% percentile is 1 | the fallback returns the least positive percentile as the radius | not executed | RadiusEstimation.SelectRadiusAsWritten, RadiusEstimation.FallbackRaisesAsWritten | RadiusEstimation.SelectRadius |

The rest of the model (`ParetoRadius`, `ResolveRadius`, `ParetoDensityEstimation`)
uses the corrected selection.

## Left out

- Floating point: all arithmetic is over exact reals. Rounding effects such as the
  length drift of `np.arange`, or the exact 99 entries of
  `np.arange(0.01, 1, 0.01)`, are not modelled.
- Library numerics are given functions constrained only as `ValidPrimitives` says:
  mquantiles, pandas quantile/median/std, the roots, log10, norm.ppf/norm.cdf.
- Plotting and warnings are not modelled:
  - `plotIt` in bimodal.py is not modelled.
  - `plotDistancePercentiles` in pareto_radius.py is not modelled.
  - The warnings are not modelled, apart from two booleans: the pre-check of the
    radius (`PreCheckWarns`) and the fewer-than-10 flag of the density estimate.
- Conversion of non-pandas input (`pd.Series(data)`, `pd.DataFrame(data)` and their
  failure branches) is not modelled. Inputs are already a `Column`, or a sequence
  of named columns for a data frame.
- RadiusEstimation.ParetoRadius: modelled for a single column of finite values, the
  form `pareto_density_estimation` passes it; multi-column `pdist` is not modelled.
  The NaN/inf result check of lines 66-73 is modelled as `RadiusNotComputable`: it
  fires when there are fewer than two values (no distances) and when no percentile
  is positive, as for a constant column (`ConstantDataNoRadius`).
- The random row choice of the radius is a caller-supplied sorted, distinct
  index sequence of the required size.
- DensityEstimation.ParetoDensityEstimation: `kernels == 0` (a number instead of a
  list) is modelled as an absent kernel list. The NaN test on the area is not
  modelled, because integer counts over finite kernels give no NaN area.
- BinCount.OptimalNoBins: requires a column without infinities. dropna removes only
  NaN, and the source's result for infinite cells depends on float behaviour of the
  library numerics. The density estimate only calls it on cleaned data.
- Normalization.RobustNormalizeSeries: with narm false, series holding an infinity
  are excluded by its precondition. Their quantiles depend on float behaviour of
  pandas.
- Normalization.RobustNormalizationFrame: column names must be distinct. The
  output is keyed by name, so the order of the columns is not kept.
  `withBackTransformation` only chooses whether the parameter dictionaries are
  returned; the model always returns them.
- Bimodality.Bimodal: for data with no finite value the model returns both
  percentages 0 directly. In the source, the NaN derivatives make every comparison
  with EPS false, which gives 0 in the same way.
- Bimodality.NormalQuantiles: only the strict increase of `norm.ppf` is used; the
  quantiles' values are not.
- md_plot.py (plot orchestration), stat_pde_density.py (plotting glue),
  signed_log.py (logarithms only) and load_examples.py (file I/O) are not part of
  this model.
