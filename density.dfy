/** Pareto density estimation of a one-dimensional sample
    (md_plot/helper/pareto_density_estimation.py): choose the kernels, mirror
    the points near each edge across that edge, count the extended sample in
    the closed window [k - r, k + r] around every kernel, and divide the
    counts by their trapezoidal area (or zero them when the area is tiny). */
module DensityEstimation {
  import opened Numeric
  import opened PrettyBreaks
  import opened BinCount
  import opened RadiusEstimation

  /** Below this many points the source warns. */
  const FewPointsBound: nat := 10
  /** Bin counts above this are multiplied by 3 and incremented. */
  const DenseBins: int := 100
  /** Bin counts above this are replaced by it. */
  const KernelCap: int := 10000
  /** Areas below this are treated as zero. */
  const AreaThreshold: real := 0.0000000001

  /** What `pareto_density_estimation` returns, plus the "fewer than 10
      points" warning as a flag. */
  datatype Estimate = Estimate(kernels: seq<real>, density: seq<real>, radius: Num, fewPoints: bool)

  // ---------------------------------------------------------------------
  // Radius

  /** A supplied radius is replaced by the computed one when it is absent,
      NaN or 0. */
  predicate NeedsRadius(radius: Option<Num>) {
    radius.None? || radius.value.NaN? || radius.value == Finite(0.0)
  }

  /** The row choice for the radius of `clean` is well formed. */
  predicate ValidRadiusSample(clean: seq<real>, sampleIndex: seq<nat>) {
    |clean| > MaximumNrSamples ==>
      ValidSampleIndex(sampleIndex, |clean|, SampleSize(|clean|, 1, MaximumNrSamples))
  }

  function ResolveRadius(radius: Option<Num>, clean: seq<real>, sampleIndex: seq<nat>, prims: Primitives): (r: Result<Num>)
    requires ValidPrimitives(prims) && ValidRadiusSample(clean, sampleIndex)
    ensures !NeedsRadius(radius) ==> r == Ok(radius.value)
    ensures NeedsRadius(radius) ==>
      (r.Ok? <==> ParetoRadius(clean, MaximumNrSamples, sampleIndex, prims).Ok?)
    ensures NeedsRadius(radius) && r.Ok? ==>
      r.value == Finite(ParetoRadius(clean, MaximumNrSamples, sampleIndex, prims).value) && r.value.v > 0.0
    ensures r.Err? ==> r.error == RadiusNotComputable
    ensures r.Ok? ==> !NeedsRadius(Some(r.value))
  {
    if !NeedsRadius(radius) then Ok(radius.value)
    else
      match ParetoRadius(clean, MaximumNrSamples, sampleIndex, prims)
      case Ok(v) => Ok(Finite(v))
      case Err(e) => Err(e)
  }

  /** `x < minData + r`, where r may be infinite. */
  predicate BelowLowEdge(x: real, lo: real, r: Num) {
    match r
    case Finite(v) => x < lo + v
    case PosInf => true
    case _ => false
  }

  /** `x > maxData - r`, where r may be infinite. */
  predicate AboveHighEdge(x: real, hi: real, r: Num) {
    match r
    case Finite(v) => x > hi - v
    case PosInf => true
    case _ => false
  }

  /** `lb <= x <= ub` with lb = k - r and ub = k + r, where r may be infinite. */
  predicate InWindow(x: real, k: real, r: Num) {
    match r
    case Finite(v) => k - v <= x <= k + v
    case PosInf => true
    case _ => false
  }

  // ---------------------------------------------------------------------
  // Kernels

  /** The kernel-count rule: the larger of minAnzKernels and the bin estimate;
      above 100 it is tripled plus one, unless it is above 10000, when it
      becomes 10000. */
  function KernelCount(minAnzKernels: int, optBins: int): (n: int)
    ensures MaxInt(minAnzKernels, optBins) <= DenseBins ==> n == MaxInt(minAnzKernels, optBins)
    ensures DenseBins < MaxInt(minAnzKernels, optBins) <= KernelCap ==> n == 3 * MaxInt(minAnzKernels, optBins) + 1
    ensures KernelCap < MaxInt(minAnzKernels, optBins) ==> n == KernelCap
    ensures n <= 3 * KernelCap + 1
    ensures n >= MinBins <== optBins >= MinBins
  {
    var nBins := MaxInt(minAnzKernels, optBins);
    if nBins > DenseBins then
      if nBins > KernelCap then KernelCap else nBins * 3 + 1
    else nBins
  }

  /** The rule is not monotone: 10000 estimated bins give 30001 kernels,
      10001 give 10000. */
  lemma KernelCountNotMonotone()
    ensures KernelCount(0, 10000) == 30001
    ensures KernelCount(0, 10001) == 10000
  {
  }

  /** `0.5 * (breaks[1:] + breaks[:-1])`. */
  function Midpoints(b: seq<real>): (m: seq<real>)
    ensures |m| == if |b| == 0 then 0 else |b| - 1
    ensures forall i :: 0 <= i < |m| ==> m[i] == 0.5 * (b[i + 1] + b[i])
  {
    if |b| == 0 then [] else seq(|b| - 1, i requires 0 <= i < |b| - 1 => 0.5 * (b[i + 1] + b[i]))
  }

  /** Between increasing breaks each midpoint lies strictly inside its bin. */
  lemma MidpointsInsideBins(b: seq<real>, i: int)
    requires 0 <= i < |b| - 1 && b[i] < b[i + 1]
    ensures b[i] < Midpoints(b)[i] < b[i + 1]
  {
  }

  /** Kernels one step d apart, the first and last within half a step of
      low and high. */
  predicate EvenKernels(k: seq<real>, low: real, high: real, d: real) {
    && |k| >= 1
    && (forall i :: 0 <= i < |k| - 1 ==> k[i + 1] - k[i] == d)
    && low - 0.5 * d < k[0] <= low + 0.5 * d
    && high - 0.5 * d <= k[|k| - 1] < high + 0.5 * d
  }

  /** The midpoints of breaks that cover [low, high] with step d. */
  lemma MidpointsOfCovering(b: seq<real>, low: real, high: real, d: real)
    requires Covers(b, low, high, d)
    ensures EvenKernels(Midpoints(b), low, high, d)
  {
    var m := Midpoints(b);
    forall i | 0 <= i < |b| - 1
      ensures b[i + 1] - b[i] == d
    {
      CoversEvenlySpaced(b, low, high, d, i);
    }
    forall i | 0 <= i < |m| - 1
      ensures m[i + 1] - m[i] == d
    {
      assert m[i + 1] - m[i] == 0.5 * (b[i + 2] - b[i + 1]) + 0.5 * (b[i + 1] - b[i]);
    }
  }

  /** Kernels from `pretty(minData, maxData, nBins)`: an error where the source
      fails inside nice_step (no data, or all values equal); otherwise evenly
      spaced kernels from within half a step of the minimum to within half a
      step of the maximum. */
  function GeneratedKernels(clean: seq<real>, minAnzKernels: int, prims: Primitives): (k: Result<seq<real>>)
    requires ValidPrimitives(prims)
    ensures k.Err? <==> |clean| == 0 || SeqMin(clean) == SeqMax(clean)
    ensures k.Err? ==> k.error == UndefinedRange
    ensures k.Ok? ==> exists d :: d > 0.0 && EvenKernels(k.value, SeqMin(clean), SeqMax(clean), d)
    ensures k.Ok? ==>
      |clean| > 0 && SeqMin(clean) < SeqMax(clean) &&
      k.value == RangeKernels(SeqMin(clean), SeqMax(clean), minAnzKernels, BinCountOf(clean, prims), prims)
  {
    if |clean| == 0 then Err(UndefinedRange)
    else
      var lo := SeqMin(clean);
      var hi := SeqMax(clean);
      if lo == hi then Err(UndefinedRange)
      else
        Ok(RangeKernels(lo, hi, minAnzKernels, BinCountOf(clean, prims), prims))
  }

  /** Steps 59-71 for data spanning [low, high] with `optBins` estimated
      bins: the midpoints of `pretty(low, high, nBins)`, one fewer than the
      breaks, one nice step apart, and about nBins of them. */
  function RangeKernels(low: real, high: real, minAnzKernels: int, optBins: int, prims: Primitives): (k: seq<real>)
    requires ValidPrimitives(prims) && low < high && optBins >= MinBins
    ensures var n := KernelCount(minAnzKernels, optBins);
      var e := StepExponent(low, high, n, prims);
      var b := Pretty(low, high, n, None, None, e);
      && k == Midpoints(b) && |k| == |b| - 1
      && EvenKernels(k, low, high, PrettyStep(low, high, n, None, None, e))
      && 14 * n < 25 * |k| && 5 * |k| < 7 * n + 10
    ensures exists d :: d > 0.0 && EvenKernels(k, low, high, d)
  {
    var n := KernelCount(minAnzKernels, optBins);
    var e := StepExponent(low, high, n, prims);
    PrettyIntervalsNearRequested(low, high, n, e);
    PrettyKernels(low, high, n, e)
  }

  /** floor(log10((high - low) / n)), the exponent nice_step works with. */
  function StepExponent(low: real, high: real, n: int, prims: Primitives): (e: int)
    requires ValidPrimitives(prims) && low < high && n > 0
    ensures IsFloorLog10((high - low) / n as real, e)
  {
    var x := (high - low) / n as real;
    PositiveQuotient(high - low, n as real);
    assert IsFloorLog10(x, prims.floorLog10(x));
    prims.floorLog10(x)
  }

  /** `breaks = pretty(minData, maxData, nBins)` followed by the midpoints. */
  function PrettyKernels(low: real, high: real, n: int, e: int): (k: seq<real>)
    requires low < high && n > 0
    requires IsFloorLog10((high - low) / n as real, e)
    ensures k == Midpoints(Pretty(low, high, n, None, None, e))
    ensures |k| == |Pretty(low, high, n, None, None, e)| - 1
    ensures EvenKernels(k, low, high, PrettyStep(low, high, n, None, None, e))
    ensures exists d :: d > 0.0 && EvenKernels(k, low, high, d)
  {
    var b := Pretty(low, high, n, None, None, e);
    var d := PrettyStep(low, high, n, None, None, e);
    MidpointsOfCovering(b, low, high, d);
    assert d > 0.0 && EvenKernels(Midpoints(b), low, high, d);
    Midpoints(b)
  }

  lemma PositiveQuotient(x: real, d: real)
    requires x > 0.0 && d > 0.0
    ensures x / d > 0.0
  {
  }

  /** Kernels given by the caller are used as they are. */
  function ResolveKernels(kernels: Option<seq<real>>, clean: seq<real>, minAnzKernels: int, prims: Primitives): (k: Result<seq<real>>)
    requires ValidPrimitives(prims)
    ensures kernels.Some? ==> k == Ok(kernels.value)
    ensures kernels.None? ==> k == GeneratedKernels(clean, minAnzKernels, prims)
  {
    if kernels.Some? then Ok(kernels.value) else GeneratedKernels(clean, minAnzKernels, prims)
  }

  // ---------------------------------------------------------------------
  // Mirroring at the edges

  /** `2 * minData - data[data < minData + r]`, in data order. */
  function LowMirror(s: seq<real>, lo: real, r: Num): (t: seq<real>)
    ensures |t| <= |s|
  {
    if |s| == 0 then []
    else (if BelowLowEdge(s[0], lo, r) then [2.0 * lo - s[0]] else []) + LowMirror(s[1..], lo, r)
  }

  /** `2 * maxData - data[data > maxData - r]`, in data order. */
  function HighMirror(s: seq<real>, hi: real, r: Num): (t: seq<real>)
    ensures |t| <= |s|
  {
    if |s| == 0 then []
    else (if AboveHighEdge(s[0], hi, r) then [2.0 * hi - s[0]] else []) + HighMirror(s[1..], hi, r)
  }

  /** Every point of the low mirror is the image of a data point near the
      low edge; for a finite radius it lands in (minData - r, minData]. */
  lemma {:induction false} LowMirrorBounds(s: seq<real>, lo: real, r: Num)
    requires forall i :: 0 <= i < |s| ==> lo <= s[i]
    ensures forall y :: y in LowMirror(s, lo, r) ==> y <= lo
    ensures r.Finite? ==> forall y :: y in LowMirror(s, lo, r) ==> lo - r.v < y
  {
    if |s| > 0 {
      LowMirrorBounds(s[1..], lo, r);
    }
  }

  /** For a finite radius the high mirror lands in [maxData, maxData + r). */
  lemma {:induction false} HighMirrorBounds(s: seq<real>, hi: real, r: Num)
    requires forall i :: 0 <= i < |s| ==> s[i] <= hi
    ensures forall y :: y in HighMirror(s, hi, r) ==> hi <= y
    ensures r.Finite? ==> forall y :: y in HighMirror(s, hi, r) ==> y < hi + r.v
  {
    if |s| > 0 {
      HighMirrorBounds(s[1..], hi, r);
    }
  }

  /** A point is mirrored at the low edge exactly when it lies below
      minData + r: the mirror has one point per such data point. */
  lemma {:induction false} LowMirrorCount(s: seq<real>, lo: real, r: Num)
    ensures |LowMirror(s, lo, r)| == CountBelow(s, lo, r)
  {
    if |s| > 0 {
      LowMirrorCount(s[1..], lo, r);
    }
  }

  function CountBelow(s: seq<real>, lo: real, r: Num): nat {
    if |s| == 0 then 0 else (if BelowLowEdge(s[0], lo, r) then 1 else 0) + CountBelow(s[1..], lo, r)
  }

  /** A point is mirrored at the high edge exactly when it lies above
      maxData - r: the mirror has one point per such data point. */
  lemma {:induction false} HighMirrorCount(s: seq<real>, hi: real, r: Num)
    ensures |HighMirror(s, hi, r)| == CountAbove(s, hi, r)
  {
    if |s| > 0 {
      HighMirrorCount(s[1..], hi, r);
    }
  }

  function CountAbove(s: seq<real>, hi: real, r: Num): nat {
    if |s| == 0 then 0 else (if AboveHighEdge(s[0], hi, r) then 1 else 0) + CountAbove(s[1..], hi, r)
  }

  /** `dataPlus = data.append(lowR).append(upR)`. */
  function ExtendedSample(clean: seq<real>, r: Num): (plus: seq<real>)
    ensures |clean| <= |plus| <= 3 * |clean|
    ensures plus[..|clean|] == clean
    ensures |clean| > 0 ==>
      plus == clean + LowMirror(clean, SeqMin(clean), r) + HighMirror(clean, SeqMax(clean), r)
    ensures |clean| > 0 ==>
      |plus| == |clean| + CountBelow(clean, SeqMin(clean), r) + CountAbove(clean, SeqMax(clean), r)
  {
    if |clean| == 0 then []
    else
      LowMirrorCount(clean, SeqMin(clean), r);
      HighMirrorCount(clean, SeqMax(clean), r);
      clean + LowMirror(clean, SeqMin(clean), r) + HighMirror(clean, SeqMax(clean), r)
  }

  /** With a non-positive or -inf radius nothing is mirrored. */
  lemma {:induction false} NoMirrorForNonPositiveRadius(s: seq<real>, lo: real, hi: real, r: Num)
    requires r.NegInf? || (r.Finite? && r.v <= 0.0)
    requires forall i :: 0 <= i < |s| ==> lo <= s[i] <= hi
    ensures LowMirror(s, lo, r) == [] && HighMirror(s, hi, r) == []
  {
    if |s| > 0 {
      NoMirrorForNonPositiveRadius(s[1..], lo, hi, r);
    }
  }

  // ---------------------------------------------------------------------
  // Window counts

  /** `len(dataPlus[(dataPlus >= k - r) & (dataPlus <= k + r)])`. */
  function WindowCount(s: seq<real>, k: real, r: Num): (c: nat)
    ensures c <= |s|
  {
    if |s| == 0 then 0 else (if InWindow(s[0], k, r) then 1 else 0) + WindowCount(s[1..], k, r)
  }

  /** An infinite radius counts every point; -inf counts none. */
  lemma {:induction false} WindowCountInfinite(s: seq<real>, k: real)
    ensures WindowCount(s, k, PosInf) == |s|
    ensures WindowCount(s, k, NegInf) == 0
  {
    if |s| > 0 {
      WindowCountInfinite(s[1..], k);
    }
  }

  /** A wider window never counts fewer points. */
  lemma {:induction false} WindowCountMonotone(s: seq<real>, k: real, r1: real, r2: real)
    requires r1 <= r2
    ensures WindowCount(s, k, Finite(r1)) <= WindowCount(s, k, Finite(r2))
  {
    if |s| > 0 {
      WindowCountMonotone(s[1..], k, r1, r2);
    }
  }

  /** Counting splits over appended samples, so the mirrored points add to
      the counts of the data itself. */
  lemma {:induction false} WindowCountAppend(a: seq<real>, b: seq<real>, k: real, r: Num)
    ensures WindowCount(a + b, k, r) == WindowCount(a, k, r) + WindowCount(b, k, r)
  {
    if |a| == 0 {
      assert a + b == b;
    } else {
      assert (a + b)[1..] == a[1..] + b;
      WindowCountAppend(a[1..], b, k, r);
    }
  }

  /** The count of every kernel, as the loop over the kernels builds it. */
  predicate IsWindowCounts(counts: seq<nat>, kernels: seq<real>, plus: seq<real>, r: Num) {
    && |counts| == |kernels|
    && forall i :: 0 <= i < |kernels| ==> counts[i] == WindowCount(plus, kernels[i], r)
  }

  /** The loop `for fltKernel in kernels: ... paretoDensity.append(...)`. */
  method WindowCounts(kernels: seq<real>, plus: seq<real>, r: Num) returns (counts: seq<nat>)
    ensures IsWindowCounts(counts, kernels, plus, r)
    ensures forall i :: 0 <= i < |counts| ==> counts[i] <= |plus|
  {
    counts := [];
    var i := 0;
    while i < |kernels|
      invariant 0 <= i <= |kernels|
      invariant |counts| == i
      invariant forall j :: 0 <= j < i ==> counts[j] == WindowCount(plus, kernels[j], r)
    {
      counts := counts + [WindowCount(plus, kernels[i], r)];
      i := i + 1;
    }
  }

  // ---------------------------------------------------------------------
  // Normalisation

  /** `np.trapz(y, x)`: the trapezoidal rule over consecutive points. */
  function Trapz(y: seq<real>, x: seq<real>): real
    requires |y| == |x|
  {
    if |x| < 2 then 0.0
    else (x[1] - x[0]) * (y[0] + y[1]) / 2.0 + Trapz(y[1..], x[1..])
  }

  function AsReals(c: seq<nat>): (r: seq<real>)
    ensures |r| == |c|
    ensures forall i :: 0 <= i < |c| ==> r[i] == c[i] as real
  {
    seq(|c|, i requires 0 <= i < |c| => c[i] as real)
  }

  function Scale(y: seq<real>, a: real): (z: seq<real>)
    requires a != 0.0
    ensures |z| == |y|
    ensures forall i :: 0 <= i < |y| ==> z[i] == y[i] / a
  {
    seq(|y|, i requires 0 <= i < |y| => y[i] / a)
  }

  /** Dividing every value by a divides the trapezoidal integral by a. */
  lemma {:induction false} TrapzScale(y: seq<real>, x: seq<real>, a: real)
    requires |y| == |x| && a != 0.0
    ensures Trapz(Scale(y, a), x) == Trapz(y, x) / a
  {
    if |x| >= 2 {
      var z := Scale(y, a);
      assert z[1..] == Scale(y[1..], a);
      TrapzScale(y[1..], x[1..], a);
      TrapezoidScale(x[1] - x[0], y[0], y[1], a);
      DivAdd((x[1] - x[0]) * (y[0] + y[1]) / 2.0, Trapz(y[1..], x[1..]), a);
    }
  }

  lemma TrapezoidScale(dx: real, y0: real, y1: real, a: real)
    requires a != 0.0
    ensures dx * (y0 / a + y1 / a) / 2.0 == dx * (y0 + y1) / 2.0 / a
  {
    assert y0 / a + y1 / a == (y0 + y1) / a;
  }

  /** Steps 91-96: the counts divided by their area, or all zeros when the
      area is below 1e-10 (the area of integer counts is never NaN). */
  function Normalise(counts: seq<nat>, kernels: seq<real>): (density: seq<real>)
    requires |counts| == |kernels|
    ensures |density| == |counts|
    ensures Trapz(AsReals(counts), kernels) < AreaThreshold ==>
      forall i :: 0 <= i < |density| ==> density[i] == 0.0
    ensures Trapz(AsReals(counts), kernels) >= AreaThreshold ==>
      forall i :: 0 <= i < |density| ==> density[i] == counts[i] as real / Trapz(AsReals(counts), kernels)
  {
    var area := Trapz(AsReals(counts), kernels);
    if area < AreaThreshold then seq(|counts|, i => 0.0)
    else Scale(AsReals(counts), area)
  }

  /** Either every density value is 0, or they are all non-negative and
      their trapezoidal integral over the kernels is exactly 1; which one is
      decided by the area of the counts. */
  lemma NormaliseIntegratesToOne(counts: seq<nat>, kernels: seq<real>)
    requires |counts| == |kernels|
    ensures var density := Normalise(counts, kernels);
      || (forall i :: 0 <= i < |density| ==> density[i] == 0.0)
      || ((forall i :: 0 <= i < |density| ==> density[i] >= 0.0) && Trapz(density, kernels) == 1.0)
    ensures Trapz(AsReals(counts), kernels) < AreaThreshold ==>
      forall i :: 0 <= i < |counts| ==> Normalise(counts, kernels)[i] == 0.0
    ensures Trapz(AsReals(counts), kernels) >= AreaThreshold ==>
      && (forall i :: 0 <= i < |counts| ==> Normalise(counts, kernels)[i] >= 0.0)
      && Trapz(Normalise(counts, kernels), kernels) == 1.0
  {
    var area := Trapz(AsReals(counts), kernels);
    if area >= AreaThreshold {
      assert Normalise(counts, kernels) == Scale(AsReals(counts), area);
      TrapzScale(AsReals(counts), kernels, area);
      assert area / area == 1.0;
      forall i | 0 <= i < |counts|
        ensures Normalise(counts, kernels)[i] >= 0.0
      {
        NonNegativeQuotient(counts[i] as real, area);
      }
    }
  }

  /** Normalising keeps the ratios between kernels: each value is its count
      divided by the same positive area. */
  lemma NormalisePreservesRatios(counts: seq<nat>, kernels: seq<real>, i: int, j: int)
    requires |counts| == |kernels| && 0 <= i < |counts| && 0 <= j < |counts|
    requires Trapz(AsReals(counts), kernels) >= AreaThreshold
    ensures counts[i] <= counts[j] ==> Normalise(counts, kernels)[i] <= Normalise(counts, kernels)[j]
  {
    var area := Trapz(AsReals(counts), kernels);
    if counts[i] <= counts[j] {
      DivMono(counts[i] as real, counts[j] as real, area);
    }
  }

  lemma DivMono(a: real, b: real, d: real)
    requires a <= b && d > 0.0
    ensures a / d <= b / d
  {
    QuotientTimes(a, d, a / d);
    QuotientTimes(b, d, b / d);
    MulCancelLe(a / d, b / d, d);
  }


  // ---------------------------------------------------------------------
  // The estimate

  /** `pareto_density_estimation(data, paretoRadius, kernels, minAnzKernels)`.
      `sampleIndex` is the random row choice used if the radius has to be
      computed from more than 10000 points. */
  method ParetoDensityEstimation(data: Column, radius: Option<Num>, kernels: Option<seq<real>>,
                                 minAnzKernels: int, sampleIndex: seq<nat>, prims: Primitives)
    returns (res: Result<Estimate>)
    requires ValidPrimitives(prims)
    requires data.Numeric? ==> ValidRadiusSample(Clean(data.values), sampleIndex)
    ensures data.NonNumeric? ==> res == Err(NotNumeric)
    ensures data.Numeric? ==>
      var clean := Clean(data.values);
      var r := ResolveRadius(radius, clean, sampleIndex, prims);
      var k := ResolveKernels(kernels, clean, minAnzKernels, prims);
      && (res.Err? <==> r.Err? || k.Err?)
      && (r.Err? ==> res == Err(r.error))
      && (r.Ok? && k.Err? ==> res == Err(k.error))
      && (res.Ok? ==>
            && res.value.radius == r.value
            && res.value.kernels == k.value
            && res.value.fewPoints == (|clean| < FewPointsBound)
            && |res.value.density| == |k.value|
            && exists counts :: IsWindowCounts(counts, k.value, ExtendedSample(clean, r.value), r.value) &&
                 res.value.density == Normalise(counts, k.value))
  {
    if data.NonNumeric? {
      return Err(NotNumeric);
    }
    var clean := Clean(data.values);
    var r := ResolveRadius(radius, clean, sampleIndex, prims);
    if r.Err? {
      return Err(r.error);
    }
    var k := ResolveKernels(kernels, clean, minAnzKernels, prims);
    if k.Err? {
      return Err(k.error);
    }
    var plus := ExtendedSample(clean, r.value);
    var counts := WindowCounts(k.value, plus, r.value);
    res := Ok(Estimate(k.value, Normalise(counts, k.value), r.value, |clean| < FewPointsBound));
  }
}
