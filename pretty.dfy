/** R's `pretty` as md_plot/helper/pretty.py implements it: a "nice" step of
    1, 2, 5 or 10 times a power of ten, and the arithmetic progression of
    multiples of that step that covers [low, high]. floor(log10 x) is not
    computed here: the caller supplies the exponent `e` together with the
    fact that 10^e <= x < 10^(e+1). */
module PrettyBreaks {
  import opened Numeric

  /** Default bias towards larger units. */
  const DefaultH: real := 1.5

  /** `if h is None: h = 1.5` */
  function ResolveH(h: Option<real>): real {
    if h.None? then DefaultH else h.value
  }

  /** `if h5 is None: h5 = 0.5 + 1.5*h` */
  function ResolveH5(h5: Option<real>, h: real): real {
    if h5.None? then 0.5 + 1.5 * h else h5.value
  }

  /** The documented demand on the biases: both non-negative. */
  predicate ValidBias(h: Option<real>, h5: Option<real>) {
    ResolveH(h) >= 0.0 && ResolveH5(h5, ResolveH(h)) >= 0.0
  }

  /** The three thresholds on the mantissa f that separate 1, 2, 5 and 10. */
  function LowCut(h: real): real
    requires h >= 0.0
  {
    (2.0 + h) / (1.0 + h)
  }

  function MidCut(h5: real): real
    requires h5 >= 0.0
  {
    (5.0 + 2.0 * h5) / (1.0 + h5)
  }

  function HighCut(h: real): real
    requires h >= 0.0
  {
    (10.0 + 5.0 * h) / (1.0 + h)
  }

  /** For non-negative biases the thresholds are ordered, each lying above
      the multiplier it closes and at most at the next one. */
  lemma CutsOrdered(h: real, h5: real)
    requires h >= 0.0 && h5 >= 0.0
    ensures 1.0 < LowCut(h) <= 2.0 < MidCut(h5) <= 5.0 < HighCut(h) <= 10.0
  {
    assert LowCut(h) == 1.0 + 1.0 / (1.0 + h);
    assert MidCut(h5) == 2.0 + 3.0 / (1.0 + h5);
    assert HighCut(h) == 5.0 + 5.0 / (1.0 + h);
  }

  /** With the default biases the thresholds are 1.4, 2.8 and 7. */
  lemma DefaultCuts()
    ensures ResolveH(None) == 1.5 && ResolveH5(None, 1.5) == 2.75
    ensures LowCut(1.5) == 1.4 && MidCut(2.75) == 2.8 && HighCut(1.5) == 7.0
  {
  }

  /** The multiplier `nf`. The source assigns it in four separate `if`s; each
      of their conditions holds exactly when its own value is the result, so
      exactly one of them fires, and a value on a threshold takes the smaller
      multiplier. */
  function Multiplier(f: real, h: real, h5: real): (nf: real)
    requires h >= 0.0 && h5 >= 0.0
    ensures nf == 1.0 <==> f <= LowCut(h)
    ensures nf == 2.0 <==> LowCut(h) < f <= MidCut(h5)
    ensures nf == 5.0 <==> MidCut(h5) < f <= HighCut(h)
    ensures nf == 10.0 <==> HighCut(h) < f
  {
    CutsOrdered(h, h5);
    if f <= LowCut(h) then 1.0
    else if f <= MidCut(h5) then 2.0
    else if f <= HighCut(h) then 5.0
    else 10.0
  }

  /** `nice_step(x, h, h5)` with e == floor(log10(x)). */
  function NiceStep(x: real, h: Option<real>, h5: Option<real>, e: int): (d: real)
    requires ValidBias(h, h5)
    requires IsFloorLog10(x, e)
    ensures d > 0.0
    ensures d / Pow10(e) in {1.0, 2.0, 5.0, 10.0}
  {
    var hh := ResolveH(h);
    var nf := Multiplier(x / Pow10(e), hh, ResolveH5(h5, hh));
    QuotientOf(nf * Pow10(e), Pow10(e), nf);
    nf * Pow10(e)
  }

  /** The mantissa x / 10^e lies in [1, 10). */
  lemma MantissaRange(x: real, e: int)
    requires IsFloorLog10(x, e)
    ensures 1.0 <= x / Pow10(e) < 10.0
  {
    var p := Pow10(e);
    Pow10Succ(e);
    QuotientTimes(x, p, x / p);
    MantissaBounds(x, p, x / p);
  }

  lemma MantissaBounds(x: real, p: real, f: real)
    requires p > 0.0 && p <= x < 10.0 * p && f * p == x
    ensures 1.0 <= f < 10.0
  {
    if f < 1.0 {
      ScaleUpStrict(x, p, f, 1.0);
    }
    if f >= 10.0 {
      ScaleDown(x, p, f, 10.0);
    }
  }

  /** With the default biases the multiplier is within 5/7 and 25/14 of the mantissa. */
  lemma DefaultMultiplierRatio(f: real)
    requires 1.0 <= f < 10.0
    ensures 5.0 / 7.0 * f <= Multiplier(f, 1.5, 2.75) < 25.0 / 14.0 * f
  {
    DefaultCuts();
  }

  /** With the default biases the step stays close to its target: between
      5/7 and 25/14 of x. */
  lemma NiceStepNearTarget(x: real, e: int)
    requires IsFloorLog10(x, e)
    ensures 5.0 / 7.0 * x <= NiceStep(x, None, None, e) < 25.0 / 14.0 * x
  {
    var p := Pow10(e);
    MantissaRange(x, e);
    QuotientTimes(x, p, x / p);
    StepNearTarget(x, p, x / p);
  }

  lemma StepNearTarget(x: real, p: real, f: real)
    requires p > 0.0 && f * p == x && 1.0 <= f < 10.0
    ensures 5.0 / 7.0 * x <= Multiplier(f, 1.5, 2.75) * p < 25.0 / 14.0 * x
  {
    DefaultMultiplierRatio(f);
    ScaleBounds(5.0 / 7.0, 25.0 / 14.0, f, Multiplier(f, 1.5, 2.75), p);
  }

  lemma ScaleBounds(lo: real, hi: real, f: real, nf: real, p: real)
    requires p > 0.0 && lo * f <= nf < hi * f
    ensures lo * (f * p) <= nf * p < hi * (f * p)
  {
    MulLe(lo * f, nf, p);
    MulLt(nf, hi * f, p);
    assert (lo * f) * p == lo * (f * p);
    assert (hi * f) * p == hi * (f * p);
  }

  /** `np.arange(start, stop, step)` over exact reals. */
  function Arange(start: real, stop: real, step: real): (r: seq<real>)
    requires step > 0.0
    ensures |r| == MaxInt(0, Ceil((stop - start) / step))
    ensures forall i :: 0 <= i < |r| ==> r[i] == start + i as real * step
    ensures forall i :: 0 <= i < |r| ==> r[i] < stop
    ensures start + |r| as real * step >= stop
  {
    var n := Ceil((stop - start) / step);
    var r := seq(if n < 0 then 0 else n, i requires 0 <= i => start + i as real * step);
    assert forall i :: 0 <= i < |r| ==> r[i] < stop by {
      forall i | 0 <= i < |r| ensures r[i] < stop {
        MulLt(i as real, (stop - start) / step, step);
      }
    }
    assert start + |r| as real * step >= stop by {
      if n >= 0 {
        MulLe((stop - start) / step, n as real, step);
      }
    }
    r
  }

  /** The step `d` that `pretty` uses. */
  function PrettyStep(low: real, high: real, n: int, h: Option<real>, h5: Option<real>, e: int): (d: real)
    requires low < high && n > 0 && ValidBias(h, h5)
    requires IsFloorLog10((high - low) / n as real, e)
    ensures d > 0.0
  {
    var hh := ResolveH(h);
    NiceStep((high - low) / n as real, Some(hh), Some(ResolveH5(h5, hh)), e)
  }

  /** b lists consecutive multiples of d, from the last one at or below `low`
      to the first one at or above `high`. */
  predicate Covers(b: seq<real>, low: real, high: real, d: real) {
    && d > 0.0
    && |b| >= 2
    && (forall i :: 0 <= i < |b| ==> b[i] == (Floor(low / d) + i) as real * d)
    && low - d < b[0] <= low
    && high <= b[|b| - 1] < high + d
  }

  /** `pretty(low, high, n, h, h5)`: the breaks at multiples of the nice step
      that cover [low, high]. */
  function Pretty(low: real, high: real, n: int, h: Option<real>, h5: Option<real>, e: int): (b: seq<real>)
    requires low < high && n > 0 && ValidBias(h, h5)
    requires IsFloorLog10((high - low) / n as real, e)
    ensures Covers(b, low, high, PrettyStep(low, high, n, h, h5, e))
  {
    var d := PrettyStep(low, high, n, h, h5, e);
    PrettyShape(low, high, d);
    CoveringMultiples(low, high, d)
  }

  /** miny = floor(low/d)*d, maxy = ceil(high/d)*d, arange(miny, maxy + 0.5*d, d) */
  function CoveringMultiples(low: real, high: real, d: real): seq<real>
    requires low < high && d > 0.0
  {
    DivLt(low, high, d);
    MultiplesBetween(Floor(low / d), Ceil(high / d), d)
  }

  /** arange(lo*d, hi*d + d/2, d) lists the multiples lo*d, ..., hi*d: the
      half step keeps hi*d in and the next multiple out. */
  function MultiplesBetween(lo: int, hi: int, d: real): (b: seq<real>)
    requires lo <= hi && d > 0.0
    ensures |b| == hi - lo + 1
    ensures forall i :: 0 <= i < |b| ==> b[i] == (lo + i) as real * d
  {
    var b := Arange(lo as real * d, hi as real * d + 0.5 * d, d);
    CoveringLength(lo, hi, d);
    forall i | 0 <= i < |b|
      ensures b[i] == (lo + i) as real * d
    {
      Distribute(lo, i, d);
    }
    b
  }

  lemma PrettyShape(low: real, high: real, d: real)
    requires low < high && d > 0.0
    ensures |CoveringMultiples(low, high, d)| == Ceil(high / d) - Floor(low / d) + 1
    ensures Covers(CoveringMultiples(low, high, d), low, high, d)
  {
    var lo := Floor(low / d);
    var hi := Ceil(high / d);
    var b := CoveringMultiples(low, high, d);
    DivLt(low, high, d);
    assert b == MultiplesBetween(lo, hi, d);
    FloorTimes(low, d);
    CeilTimes(high, d);
    assert b[|b| - 1] == hi as real * d;
  }

  lemma DivLt(a: real, b: real, d: real)
    requires a < b && d > 0.0
    ensures a / d < b / d
  {
    QuotientTimes(a, d, a / d);
    QuotientTimes(b, d, b / d);
    MulCancelLe(a / d, b / d, d);
  }

  /** arange(lo*d, hi*d + d/2, d) has hi - lo + 1 elements. */
  lemma CoveringLength(lo: int, hi: int, d: real)
    requires lo <= hi && d > 0.0
    ensures Ceil((hi as real * d + 0.5 * d - lo as real * d) / d) == hi - lo + 1
  {
    SpanQuotient(hi as real, lo as real, d);
    assert hi as real - lo as real == (hi - lo) as real;
    CeilHalf(hi - lo);
  }

  lemma SpanQuotient(a: real, b: real, d: real)
    requires d > 0.0
    ensures (a * d + 0.5 * d - b * d) / d == a - b + 0.5
  {
    assert (a - b + 0.5) * d == a * d + 0.5 * d - b * d;
    QuotientOf(a * d + 0.5 * d - b * d, d, a - b + 0.5);
  }

  lemma CeilHalf(k: int)
    ensures Ceil(k as real + 0.5) == k + 1
  {
  }

  lemma Distribute(lo: int, i: int, d: real)
    ensures lo as real * d + i as real * d == (lo + i) as real * d
  {
  }

  /** Consecutive breaks are exactly one step apart, so they increase strictly. */
  lemma CoversEvenlySpaced(b: seq<real>, low: real, high: real, d: real, i: int)
    requires Covers(b, low, high, d) && 0 <= i < |b| - 1
    ensures b[i + 1] - b[i] == d
  {
    var f := Floor(low / d);
    assert b[i + 1] == (f + i + 1) as real * d;
    assert b[i] == (f + i) as real * d;
    Distribute(f + i, 1, d);
  }

  /** `pretty` asks for about n intervals and gets between 14n/25 and
      (7n + 10)/5 of them: the nice step is within 5/7 and 25/14 of
      (high - low)/n, and the covering multiples overshoot by under a step
      at each end. */
  lemma PrettyIntervalsNearRequested(low: real, high: real, n: int, e: int)
    requires low < high && n > 0
    requires IsFloorLog10((high - low) / n as real, e)
    ensures var m := |Pretty(low, high, n, None, None, e)| - 1;
      14 * n < 25 * m && 5 * m < 7 * n + 10
  {
    PrettyStepNearTarget(low, high, n, e);
    StepCountBounds(Pretty(low, high, n, None, None, e), low, high, n, PrettyStep(low, high, n, None, None, e));
  }

  /** With the default biases the step of `pretty` is within 5/7 and 25/14
      of (high - low)/n. */
  lemma PrettyStepNearTarget(low: real, high: real, n: int, e: int)
    requires low < high && n > 0
    requires IsFloorLog10((high - low) / n as real, e)
    ensures 5.0 / 7.0 * ((high - low) / n as real) <= PrettyStep(low, high, n, None, None, e)
    ensures PrettyStep(low, high, n, None, None, e) < 25.0 / 14.0 * ((high - low) / n as real)
  {
    var x := (high - low) / n as real;
    assert PrettyStep(low, high, n, None, None, e) == NiceStep(x, None, None, e);
    NiceStepNearTarget(x, e);
  }

  /** Covering breaks with a step near x = (high - low)/n number about n + 1. */
  lemma StepCountBounds(b: seq<real>, low: real, high: real, n: int, d: real)
    requires Covers(b, low, high, d) && low < high && n > 0
    requires 5.0 / 7.0 * ((high - low) / n as real) <= d < 25.0 / 14.0 * ((high - low) / n as real)
    ensures 14 * n < 25 * (|b| - 1) && 5 * (|b| - 1) < 7 * n + 10
  {
    var x := (high - low) / n as real;
    QuotientTimes(high - low, n as real, x);
    CoversSpan(b, low, high, d);
    IntervalsFromSpan(|b| - 1, n, d, x, high - low);
  }

  /** Covering breaks span at least [low, high] and overshoot by less than a
      step at each end. */
  lemma CoversSpan(b: seq<real>, low: real, high: real, d: real)
    requires Covers(b, low, high, d)
    ensures high - low <= (|b| - 1) as real * d < high - low + 2.0 * d
  {
    var f := Floor(low / d);
    var m := |b| - 1;
    assert b[m] == (f + m) as real * d;
    assert b[0] == (f + 0) as real * d;
    Distribute(f, m, d);
  }

  /** m steps of d span at least n*x and less than n*x + 2d; with d between
      5/7 and 25/14 of x this bounds m in terms of n. */
  lemma IntervalsFromSpan(m: int, n: int, d: real, x: real, span: real)
    requires m >= 1 && n > 0 && x > 0.0 && x * n as real == span
    requires 5.0 / 7.0 * x <= d < 25.0 / 14.0 * x
    requires span <= m as real * d < span + 2.0 * d
    ensures 14 * n < 25 * m && 5 * m < 7 * n + 10
  {
    assert n as real * x == span;
    MulLt(d, 25.0 / 14.0 * x, m as real);
    assert n as real * x < (25.0 * m as real / 14.0) * x;
    MulCancelLe(n as real, 25.0 * m as real / 14.0, x);
    assert n as real != 25.0 * m as real / 14.0;
    if m > 2 {
      assert (m - 2) as real * d == m as real * d - 2.0 * d;
      FewerStepsThan((m - 2) as real, n as real, d, x);
    }
  }

  /** c steps of at least 5/7 x that stay below n*x number fewer than 7n/5. */
  lemma FewerStepsThan(c: real, n: real, d: real, x: real)
    requires c > 0.0 && x > 0.0 && 5.0 / 7.0 * x <= d && c * d < n * x
    ensures 5.0 * c / 7.0 < n
  {
    MulLe(5.0 / 7.0 * x, d, c);
    assert (5.0 / 7.0 * x) * c == (5.0 * c / 7.0) * x;
    MulCancelLe(5.0 * c / 7.0, n, x);
  }
}
