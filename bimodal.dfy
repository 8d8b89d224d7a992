/** The bimodality score of md_plot/helper/bimodal.py. The 1%..99% quantiles
    of the data are read as a function of the matching standard-normal
    quantiles; its second derivative is estimated by filtered finite
    differences, and the longest convex and concave stretches decide the
    score through the Normal(7, 3) distribution function. */
module Bimodality {
  import opened Numeric

  /** The least curvature that counts as convex or concave. */
  const EPS: real := 1.5
  /** Taps of the boxcar filters on the first and the second derivative. */
  const FirstWindow: nat := 13
  const SecondWindow: nat := 15
  /** Number of percentiles: 1%, 2%, ..., 99%. */
  const Percents: nat := 99

  // ---------------------------------------------------------------------
  // Finite differences

  predicate StrictlyIncreasing(x: seq<real>) {
    forall i, j :: 0 <= i < j < |x| ==> x[i] < x[j]
  }

  /** `[0] + fx.diff() / x.diff()`: 0 followed by the difference quotients. */
  function Differences(fx: seq<real>, x: seq<real>): (d: seq<real>)
    requires |fx| == |x| >= 1 && StrictlyIncreasing(x)
    ensures |d| == |x| && d[0] == 0.0
    ensures forall i :: 1 <= i < |x| ==> d[i] == (fx[i] - fx[i - 1]) / (x[i] - x[i - 1])
  {
    seq(|x|, i requires 0 <= i < |x| => if i == 0 then 0.0 else (fx[i] - fx[i - 1]) / (x[i] - x[i - 1]))
  }

  /** Summing the quotients times the steps up to i: the partner of Differences. */
  function Accumulate(d: seq<real>, x: seq<real>, i: nat): real
    requires |d| == |x| && i < |x|
  {
    if i == 0 then 0.0 else Accumulate(d, x, i - 1) + d[i] * (x[i] - x[i - 1])
  }

  /** Differences loses nothing but the starting value: summing them back
      recovers every fx[i]. */
  lemma {:induction false} DifferencesRoundTrip(fx: seq<real>, x: seq<real>, i: nat)
    requires |fx| == |x| >= 1 && StrictlyIncreasing(x) && i < |x|
    ensures fx[0] + Accumulate(Differences(fx, x), x, i) == fx[i]
  {
    if i > 0 {
      DifferencesRoundTrip(fx, x, i - 1);
      DifferenceTimesStep(fx, x, i);
    }
  }

  lemma DifferenceTimesStep(fx: seq<real>, x: seq<real>, k: nat)
    requires |fx| == |x| >= 1 && StrictlyIncreasing(x) && 1 <= k < |x|
    ensures Differences(fx, x)[k] * (x[k] - x[k - 1]) == fx[k] - fx[k - 1]
  {
    var a := fx[k] - fx[k - 1];
    var b := x[k] - x[k - 1];
    assert x[k - 1] < x[k];
    var q := Differences(fx, x)[k];
    assert q == a / b;
    QuotientTimes(a, b, q);
  }

  // ---------------------------------------------------------------------
  // The boxcar filter

  /** The first j terms of `lfilter(b, 1, x)` at position i: the sum of
      b[k] * x[i - k] over k < j with k <= i. */
  function Fir(b: seq<real>, x: seq<real>, i: nat, j: nat): real
    requires i < |x| && j <= |b|
  {
    if j == 0 then 0.0
    else Fir(b, x, i, j - 1) + (if j - 1 <= i then b[j - 1] * x[i - (j - 1)] else 0.0)
  }

  /** `lfilter(b, 1, x)`: a causal FIR filter with taps b. */
  function LFilter(b: seq<real>, x: seq<real>): (y: seq<real>)
    ensures |y| == |x|
  {
    seq(|x|, i requires 0 <= i < |x| => Fir(b, x, i, |b|))
  }

  /** `np.repeat(1.0 / w, w)`. */
  function Taps(w: nat): (b: seq<real>)
    requires w > 0
    ensures |b| == w
  {
    seq(w, _ => 1.0 / w as real)
  }

  /** x[i] + x[i-1] + ... over the last min(j, i + 1) positions. */
  function WindowSum(x: seq<real>, i: nat, j: nat): real
    requires i < |x|
  {
    if j == 0 then 0.0 else WindowSum(x, i, j - 1) + (if j - 1 <= i then x[i - (j - 1)] else 0.0)
  }

  /** With w equal taps the filter is a trailing moving sum divided by w. */
  lemma {:induction false} EqualTapsFir(x: seq<real>, i: nat, j: nat, w: nat)
    requires w > 0 && j <= w && i < |x|
    ensures Fir(Taps(w), x, i, j) == WindowSum(x, i, j) / w as real
  {
    if j > 0 {
      EqualTapsFir(x, i, j - 1, w);
      if j - 1 <= i {
        var t := x[i - (j - 1)];
        assert Taps(w)[j - 1] * t == t / w as real;
        DivAdd(WindowSum(x, i, j - 1), t, w as real);
      }
    }
  }

  /** y[i] = (x[max(0, i-w+1)] + ... + x[i]) / w. */
  lemma MovingAverage(x: seq<real>, w: nat, i: nat)
    requires w > 0 && i < |x|
    ensures LFilter(Taps(w), x)[i] == WindowSum(x, i, w) / w as real
  {
    EqualTapsFir(x, i, w, w);
  }

  /** A window over zeros sums to zero. */
  lemma {:induction false} WindowSumZeros(x: seq<real>, i: nat, j: nat)
    requires i < |x| && forall k :: 0 <= k < |x| ==> x[k] == 0.0
    ensures WindowSum(x, i, j) == 0.0
  {
    if j > 0 {
      WindowSumZeros(x, i, j - 1);
    }
  }

  /** A window of j values of magnitude at most m sums to at most j * m. */
  lemma {:induction false} WindowSumBound(x: seq<real>, i: nat, j: nat, m: real)
    requires i < |x| && m >= 0.0 && forall k :: 0 <= k < |x| ==> Abs(x[k]) <= m
    ensures Abs(WindowSum(x, i, j)) <= j as real * m
  {
    if j > 0 {
      WindowSumBound(x, i, j - 1, m);
      var t := if j - 1 <= i then x[i - (j - 1)] else 0.0;
      assert WindowSum(x, i, j) == WindowSum(x, i, j - 1) + t;
      assert Abs(t) <= m;
      BoundStep(WindowSum(x, i, j - 1), t, (j - 1) as real, j as real, m);
    }
  }

  lemma BoundStep(s: real, t: real, k: real, k1: real, m: real)
    requires Abs(s) <= k * m && Abs(t) <= m && k1 == k + 1.0
    ensures Abs(s + t) <= k1 * m
  {
    assert k1 * m == k * m + m;
  }

  /** The boxcar filter maps zeros to zeros. */
  lemma FilterZeros(x: seq<real>, w: nat)
    requires w > 0 && forall k :: 0 <= k < |x| ==> x[k] == 0.0
    ensures forall k :: 0 <= k < |x| ==> LFilter(Taps(w), x)[k] == 0.0
  {
    forall k | 0 <= k < |x|
      ensures LFilter(Taps(w), x)[k] == 0.0
    {
      MovingAverage(x, w, k);
      WindowSumZeros(x, k, w);
    }
  }

  /** The boxcar filter never makes a value larger in magnitude than the
      largest input. */
  lemma FilterBound(x: seq<real>, w: nat, m: real)
    requires w > 0 && m >= 0.0 && forall k :: 0 <= k < |x| ==> Abs(x[k]) <= m
    ensures forall k :: 0 <= k < |x| ==> Abs(LFilter(Taps(w), x)[k]) <= m
  {
    forall k | 0 <= k < |x|
      ensures Abs(LFilter(Taps(w), x)[k]) <= m
    {
      MovingAverage(x, w, k);
      WindowSumBound(x, k, w, m);
      AverageBound(WindowSum(x, k, w), w as real, m);
    }
  }

  lemma AverageBound(s: real, w: real, m: real)
    requires w > 0.0 && Abs(s) <= w * m
    ensures Abs(s / w) <= m
  {
    QuotientTimes(s, w, s / w);
    if Abs(s / w) > m {
      MulLt(m, Abs(s / w), w);
    }
  }

  /** The filtered first derivative (window 13). */
  function FirstDerivative(fx: seq<real>, x: seq<real>): (d: seq<real>)
    requires |fx| == |x| >= 1 && StrictlyIncreasing(x)
    ensures |d| == |x|
  {
    LFilter(Taps(FirstWindow), Differences(fx, x))
  }

  /** The filtered second derivative (window 15), built the same way from the
      filtered first derivative. */
  function SecondDerivative(fx: seq<real>, x: seq<real>): (d: seq<real>)
    requires |fx| == |x| >= 1 && StrictlyIncreasing(x)
    ensures |d| == |x|
  {
    LFilter(Taps(SecondWindow), Differences(FirstDerivative(fx, x), x))
  }

  /** The quotients of a constant function are all 0. */
  lemma DifferencesOfConstant(fx: seq<real>, x: seq<real>)
    requires |fx| == |x| >= 1 && StrictlyIncreasing(x)
    requires forall i :: 0 <= i < |fx| ==> fx[i] == fx[0]
    ensures forall i :: 0 <= i < |x| ==> Differences(fx, x)[i] == 0.0
  {
  }

  /** A constant function has second derivative 0 everywhere. */
  lemma ConstantHasNoCurvature(fx: seq<real>, x: seq<real>)
    requires |fx| == |x| >= 1 && StrictlyIncreasing(x)
    requires forall i :: 0 <= i < |fx| ==> fx[i] == fx[0]
    ensures forall i :: 0 <= i < |x| ==> SecondDerivative(fx, x)[i] == 0.0
  {
    DifferencesOfConstant(fx, x);
    FilterZeros(Differences(fx, x), FirstWindow);
    var first := FirstDerivative(fx, x);
    assert forall i :: 0 <= i < |first| ==> first[i] == first[0];
    DifferencesOfConstant(first, x);
    FilterZeros(Differences(first, x), SecondWindow);
  }

  // ---------------------------------------------------------------------
  // Classification by the sign of the curvature

  /** 1 for convex (above EPS), -1 for concave (below -EPS), 0 otherwise. */
  function Class(v: real): (c: int)
    ensures c == 1 <==> v > EPS
    ensures c == -1 <==> v < -EPS
    ensures c == 0 <==> -EPS <= v <= EPS
  {
    if v > EPS then 1 else if v < -EPS then -1 else 0
  }

  /** `posOrNeg = x * 0; posOrNeg[sd > EPS] = 1; posOrNeg[sd < -EPS] = -1`. */
  method ClassifyCurvature(sd: seq<real>) returns (posOrNeg: array<int>)
    ensures fresh(posOrNeg) && posOrNeg.Length == |sd|
    ensures forall i :: 0 <= i < |sd| ==> posOrNeg[i] == Class(sd[i])
  {
    posOrNeg := new int[|sd|](_ => 0);
    for i := 0 to |sd|
      invariant forall k :: 0 <= k < i ==> posOrNeg[k] == (if sd[k] > EPS then 1 else 0)
      invariant forall k :: i <= k < |sd| ==> posOrNeg[k] == 0
    {
      if sd[i] > EPS {
        posOrNeg[i] := 1;
      }
    }
    for i := 0 to |sd|
      invariant forall k :: 0 <= k < i ==> posOrNeg[k] == Class(sd[k])
      invariant forall k :: i <= k < |sd| ==> posOrNeg[k] == (if sd[k] > EPS then 1 else 0)
    {
      if sd[i] < -EPS {
        posOrNeg[i] := -1;
      }
    }
  }

  /** `Next`: each position's successor, the last position being its own. */
  function Next(i: nat, anz: nat): (j: nat)
    requires i < anz
    ensures j < anz
    ensures i < anz - 1 ==> j == i + 1
    ensures i == anz - 1 ==> j == i
  {
    if i < anz - 1 then i + 1 else anz - 1
  }

  /** `nextIdentical & (sd > EPS)`: convex points whose successor is in the
      same class. */
  function PosRuns(sd: seq<real>): (r: seq<bool>)
    ensures |r| == |sd|
  {
    seq(|sd|, i requires 0 <= i < |sd| => Class(sd[i]) == Class(sd[Next(i, |sd|)]) && sd[i] > EPS)
  }

  /** `nextIdentical & (sd < -EPS)`. */
  function NegRuns(sd: seq<real>): (r: seq<bool>)
    ensures |r| == |sd|
  {
    seq(|sd|, i requires 0 <= i < |sd| => Class(sd[i]) == Class(sd[Next(i, |sd|)]) && sd[i] < -EPS)
  }

  /** A point is in a convex run exactly when it and its successor are both
      convex (likewise for concave), so no point is in both kinds. */
  lemma RunsMeaning(sd: seq<real>, i: nat)
    requires i < |sd|
    ensures PosRuns(sd)[i] <==> sd[i] > EPS && sd[Next(i, |sd|)] > EPS
    ensures NegRuns(sd)[i] <==> sd[i] < -EPS && sd[Next(i, |sd|)] < -EPS
    ensures !(PosRuns(sd)[i] && NegRuns(sd)[i])
    ensures i == |sd| - 1 ==> (PosRuns(sd)[i] <==> sd[i] > EPS)
  {
  }

  /** A convex stretch sd[a..b] (b inclusive) that is followed by a
      non-convex point contributes only its first b - a points. */
  lemma StretchLosesLastPoint(sd: seq<real>, a: nat, b: nat)
    requires a <= b && b + 1 < |sd|
    requires forall k :: a <= k <= b ==> sd[k] > EPS
    requires sd[b + 1] <= EPS
    ensures forall k :: a <= k < b ==> PosRuns(sd)[k]
    ensures !PosRuns(sd)[b]
  {
    forall k | a <= k < b
      ensures PosRuns(sd)[k]
    {
      RunsMeaning(sd, k);
    }
    RunsMeaning(sd, b);
  }

  /** With no curvature beyond EPS anywhere, no point is in a run. */
  lemma FlatHasNoRuns(sd: seq<real>)
    requires forall i :: 0 <= i < |sd| ==> -EPS <= sd[i] <= EPS
    ensures forall i :: 0 <= i < |sd| ==> !PosRuns(sd)[i] && !NegRuns(sd)[i]
  {
  }

  // ---------------------------------------------------------------------
  // Longest runs

  /** Length of the block of true values at the end of s. */
  function TrailingRun(s: seq<bool>): (n: nat)
    ensures n <= |s|
  {
    if |s| == 0 || !s[|s| - 1] then 0 else TrailingRun(s[..|s| - 1]) + 1
  }

  /** Length of the longest block of consecutive true values. */
  function LongestRun(s: seq<bool>): (n: nat)
    ensures n <= |s|
  {
    if |s| == 0 then 0 else MaxNat(LongestRun(s[..|s| - 1]), TrailingRun(s))
  }

  function MaxNat(a: nat, b: nat): nat {
    if a >= b then a else b
  }

  predicate AllTrue(s: seq<bool>, a: int, b: int)
    requires 0 <= a <= b <= |s|
  {
    forall k :: a <= k < b ==> s[k]
  }

  /** s holds a block of len consecutive true values starting at a. */
  predicate HasBlock(s: seq<bool>, a: int, len: nat) {
    0 <= a && a + len <= |s| && AllTrue(s, a, a + len)
  }

  /** The trailing block is all true, and it reaches back over every all-true
      block that ends at the end. */
  lemma {:induction false} TrailingRunIsBlock(s: seq<bool>)
    ensures AllTrue(s, |s| - TrailingRun(s), |s|)
    ensures forall a :: 0 <= a <= |s| && AllTrue(s, a, |s|) ==> |s| - a <= TrailingRun(s)
  {
    if |s| > 0 && s[|s| - 1] {
      var p := s[..|s| - 1];
      TrailingRunIsBlock(p);
      forall a | 0 <= a <= |s| && AllTrue(s, a, |s|)
        ensures |s| - a <= TrailingRun(s)
      {
        if a < |s| {
          assert AllTrue(p, a, |p|);
        }
      }
    }
  }

  /** LongestRun(s) is the length of a block of consecutive true values, and no
      such block is longer. */
  lemma {:induction false} LongestRunIsLongest(s: seq<bool>)
    ensures exists a :: HasBlock(s, a, LongestRun(s))
    ensures forall a, b :: 0 <= a <= b <= |s| && AllTrue(s, a, b) ==> b - a <= LongestRun(s)
  {
    if |s| == 0 {
      assert LongestRun(s) == 0;
      assert HasBlock(s, 0, 0);
    } else {
      var p := s[..|s| - 1];
      LongestRunIsLongest(p);
      TrailingRunIsBlock(s);
      if LongestRun(p) >= TrailingRun(s) {
        var a :| HasBlock(p, a, LongestRun(p));
        assert HasBlock(s, a, LongestRun(s));
      } else {
        assert HasBlock(s, |s| - TrailingRun(s), LongestRun(s));
      }
      forall a, b | 0 <= a <= b <= |s| && AllTrue(s, a, b)
        ensures b - a <= LongestRun(s)
      {
        if b < |s| {
          assert AllTrue(p, a, b);
        } else {
          assert AllTrue(s, a, |s|);
        }
      }
    }
  }

  /** The loop over the positions, tracking the current and the longest
      convex and concave runs together. */
  method LongestRuns(posRuns: seq<bool>, negRuns: seq<bool>) returns (maxPos: nat, maxNeg: nat)
    requires |posRuns| == |negRuns|
    ensures maxPos == LongestRun(posRuns) && maxNeg == LongestRun(negRuns)
  {
    maxPos, maxNeg := 0, 0;
    var posRunLength, negRunLength := 0, 0;
    var i := 0;
    while i < |posRuns|
      invariant 0 <= i <= |posRuns|
      invariant posRunLength == TrailingRun(posRuns[..i]) && maxPos == LongestRun(posRuns[..i])
      invariant negRunLength == TrailingRun(negRuns[..i]) && maxNeg == LongestRun(negRuns[..i])
    {
      assert posRuns[..i + 1][..i] == posRuns[..i];
      assert negRuns[..i + 1][..i] == negRuns[..i];
      if posRuns[i] {
        posRunLength := posRunLength + 1;
      } else {
        posRunLength := 0;
      }
      if negRuns[i] {
        negRunLength := negRunLength + 1;
      } else {
        negRunLength := 0;
      }
      maxPos := MaxNat(maxPos, posRunLength);
      maxNeg := MaxNat(maxNeg, negRunLength);
      i := i + 1;
    }
    assert posRuns[..i] == posRuns;
    assert negRuns[..i] == negRuns;
  }

  // ---------------------------------------------------------------------
  // convex_concave and bimodal

  datatype Curvature = Curvature(
    kruemmung: real,
    proConvex: real,
    proConcave: real,
    secondDerivative: seq<real>,
    firstDerivative: seq<real>)

  /** `100 * run / anz`: a run of at most anz points is a percentage in [0, 100]. */
  function Percentage(run: nat, anz: nat): (p: real)
    requires 0 < anz && run <= anz
    ensures 0.0 <= p <= 100.0
    ensures p == 0.0 <==> run == 0
  {
    PercentBounds(run as real, anz as real);
    100.0 * run as real / anz as real
  }

  lemma PercentBounds(run: real, anz: real)
    requires 0.0 <= run <= anz && anz > 0.0
    ensures 0.0 <= 100.0 * run / anz <= 100.0
    ensures 100.0 * run / anz == 0.0 <==> run == 0.0
  {
    var p := 100.0 * run / anz;
    QuotientTimes(100.0 * run, anz, p);
    MulCancelLe(p, 100.0, anz);
    MulCancelLe(0.0, p, anz);
    if p == 0.0 {
      assert 100.0 * run == 0.0;
    }
  }

  /** `convex_concave(x, fx)`. */
  method ConvexConcave(x: seq<real>, fx: seq<real>) returns (c: Curvature)
    requires |fx| == |x| >= 1 && StrictlyIncreasing(x)
    ensures c.firstDerivative == FirstDerivative(fx, x)
    ensures c.secondDerivative == SecondDerivative(fx, x)
    ensures c.proConvex == Percentage(LongestRun(PosRuns(c.secondDerivative)), |x|)
    ensures c.proConcave == Percentage(LongestRun(NegRuns(c.secondDerivative)), |x|)
    ensures 0.0 <= c.proConvex <= 100.0 && 0.0 <= c.proConcave <= 100.0
    ensures c.kruemmung == 100.0 * (c.proConvex - c.proConcave) / |x| as real
  {
    var anz := |x|;
    var first := FirstDerivative(fx, x);
    var sd := SecondDerivative(fx, x);
    var posOrNeg := ClassifyCurvature(sd);
    var cls := posOrNeg[..];
    var posRuns := seq(anz, i requires 0 <= i < anz => cls[i] == cls[Next(i, anz)] && sd[i] > EPS);
    var negRuns := seq(anz, i requires 0 <= i < anz => cls[i] == cls[Next(i, anz)] && sd[i] < -EPS);
    assert posRuns == PosRuns(sd);
    assert negRuns == NegRuns(sd);
    var maxPos, maxNeg := LongestRuns(posRuns, negRuns);
    var proConvex := Percentage(maxPos, anz);
    var proConcave := Percentage(maxNeg, anz);
    c := Curvature(100.0 * (proConvex - proConcave) / anz as real, proConvex, proConcave, sd, first);
  }

  /** When the curvature stays within [-EPS, EPS] (for instance for a constant
      fx), both percentages are 0. */
  lemma FlatGivesZeroPercentages(sd: seq<real>)
    requires |sd| >= 1
    requires forall i :: 0 <= i < |sd| ==> -EPS <= sd[i] <= EPS
    ensures Percentage(LongestRun(PosRuns(sd)), |sd|) == 0.0
    ensures Percentage(LongestRun(NegRuns(sd)), |sd|) == 0.0
  {
    FlatHasNoRuns(sd);
    NoTrueNoRun(PosRuns(sd));
    NoTrueNoRun(NegRuns(sd));
  }

  lemma NoTrueNoRun(s: seq<bool>)
    requires forall i :: 0 <= i < |s| ==> !s[i]
    ensures LongestRun(s) == 0
  {
    LongestRunIsLongest(s);
    var a :| HasBlock(s, a, LongestRun(s));
  }

  /** Kruemmung divides by anz twice: kruemmung * anz^2 = 10000 * (maxPos - maxNeg). */
  lemma KruemmungScaledTwice(maxPos: nat, maxNeg: nat, anz: nat)
    requires 0 < anz && maxPos <= anz && maxNeg <= anz
    ensures 100.0 * (Percentage(maxPos, anz) - Percentage(maxNeg, anz)) / anz as real * (anz as real * anz as real)
      == 10000.0 * (maxPos as real - maxNeg as real)
  {
    var n := anz as real;
    var p := Percentage(maxPos, anz);
    var q := Percentage(maxNeg, anz);
    QuotientTimes(100.0 * maxPos as real, n, p);
    QuotientTimes(100.0 * maxNeg as real, n, q);
    var k := 100.0 * (p - q) / n;
    QuotientTimes(100.0 * (p - q), n, k);
    TimesTwice(k, p, q, n, maxPos as real, maxNeg as real);
  }

  lemma TimesTwice(k: real, p: real, q: real, n: real, a: real, b: real)
    requires k * n == 100.0 * (p - q) && p * n == 100.0 * a && q * n == 100.0 * b
    ensures k * (n * n) == 10000.0 * (a - b)
  {
    assert k * (n * n) == (k * n) * n;
    assert (100.0 * (p - q)) * n == 100.0 * (p * n - q * n);
  }

  datatype BimodalResult = BimodalResult(bimodal: real, proConvex: real, proConcave: real)

  /** The abscissae `norm.ppf(0.01), ..., norm.ppf(0.99)`. */
  function NormalQuantiles(prims: Primitives): (x: seq<real>)
    requires ValidPrimitives(prims)
    ensures |x| == Percents && StrictlyIncreasing(x)
  {
    seq(Percents, i requires 0 <= i < Percents => prims.normPpf((i + 1) as real / 100.0))
  }

  /** `mquantiles(data, [0.01, ..., 0.99], alphap=0.5, betap=0.5).dropna()`:
      empty for empty data, whose quantiles are all masked. */
  function DataQuantiles(clean: seq<real>, prims: Primitives): (fx: seq<real>)
    ensures |clean| == 0 ==> fx == []
    ensures |clean| > 0 ==> |fx| == Percents
    ensures |clean| > 0 ==> forall i :: 0 <= i < Percents ==>
      fx[i] == prims.mquantiles(clean, (i + 1) as real / 100.0, 0.5, 0.5)
  {
    if |clean| == 0 then []
    else seq(Percents, i requires 0 <= i < Percents => prims.mquantiles(clean, (i + 1) as real / 100.0, 0.5, 0.5))
  }

  /** `bimodal(data)`. With no finite data the quantiles are all missing, the
      derivatives NaN, every comparison with EPS false, and both percentages 0. */
  method Bimodal(data: Column, prims: Primitives) returns (res: Result<BimodalResult>)
    requires ValidPrimitives(prims)
    ensures data.NonNumeric? <==> res.Err?
    ensures res.Err? ==> res.error == NotNumeric
    ensures res.Ok? ==> 0.0 <= res.value.proConvex <= 100.0 && 0.0 <= res.value.proConcave <= 100.0
    ensures res.Ok? ==>
      res.value.bimodal == prims.normCdf(MinReal(res.value.proConvex, res.value.proConcave), 7.0, 3.0)
    ensures res.Ok? && |Clean(data.values)| == 0 ==> res.value.proConvex == 0.0 && res.value.proConcave == 0.0
    ensures res.Ok? && |Clean(data.values)| > 0 ==>
      var sd := SecondDerivative(DataQuantiles(Clean(data.values), prims), NormalQuantiles(prims));
      && res.value.proConvex == Percentage(LongestRun(PosRuns(sd)), Percents)
      && res.value.proConcave == Percentage(LongestRun(NegRuns(sd)), Percents)
  {
    if data.NonNumeric? {
      return Err(NotNumeric);
    }
    var clean := Clean(data.values);
    var proConvex, proConcave;
    if |clean| == 0 {
      proConvex, proConcave := 0.0, 0.0;
    } else {
      var c := ConvexConcave(NormalQuantiles(prims), DataQuantiles(clean, prims));
      proConvex, proConcave := c.proConvex, c.proConcave;
    }
    res := Ok(BimodalResult(prims.normCdf(MinReal(proConvex, proConcave), 7.0, 3.0), proConvex, proConcave));
  }

  /** Data of a single repeated value has no convex or concave stretch. */
  lemma ConstantDataIsNotBimodal(clean: seq<real>, prims: Primitives)
    requires ValidPrimitives(prims) && |clean| > 0
    requires forall i :: 0 <= i < |clean| ==> clean[i] == clean[0]
    ensures var sd := SecondDerivative(DataQuantiles(clean, prims), NormalQuantiles(prims));
      LongestRun(PosRuns(sd)) == 0 && LongestRun(NegRuns(sd)) == 0
  {
    var fx := DataQuantiles(clean, prims);
    var x := NormalQuantiles(prims);
    forall i | 0 <= i < |fx|
      ensures fx[i] == clean[0]
    {
      assert SeqMin(clean) == clean[0] by {
        assert clean[0] in clean;
      }
      assert SeqMax(clean) == clean[0];
    }
    ConstantHasNoCurvature(fx, x);
    var sd := SecondDerivative(fx, x);
    FlatHasNoRuns(sd);
    NoTrueNoRun(PosRuns(sd));
    NoTrueNoRun(NegRuns(sd));
  }
}
