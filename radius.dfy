/** The Pareto radius of a one-dimensional sample
    (md_plot/helper/pareto_radius.py): the 18th percentile of the pairwise
    distances of at most `maximumNrSamples` cells, with a fallback when that
    percentile is 0 and a shrinking factor for large samples. The random row
    choice is supplied by the caller as a sorted index sequence. */
module RadiusEstimation {
  import opened Numeric

  /** Default cap on rows times columns before subsampling. */
  const MaximumNrSamples: nat := 10000
  /** Above this many cells the radius is scaled by 4 / nData^0.2. */
  const LargeSample: nat := 1024
  /** The radius is the 18% quantile of the distances. */
  const ParetoQuantile: real := 0.18

  /** The pre-check copies the data and turns +inf (but not -inf) into NaN,
      then warns when any cell of the copy is NaN. */
  function CheckCopy(data: seq<Num>): (c: seq<Num>)
    ensures |c| == |data|
    ensures forall i :: 0 <= i < |data| ==> (c[i].NaN? <==> data[i].NaN? || data[i].PosInf?)
    ensures forall i :: 0 <= i < |data| && !data[i].PosInf? ==> c[i] == data[i]
  {
    seq(|data|, i requires 0 <= i < |data| => if data[i].PosInf? then NaN else data[i])
  }

  predicate PreCheckWarns(data: seq<Num>) {
    exists i :: 0 <= i < |data| && CheckCopy(data)[i].NaN?
  }

  /** The warning fires on NaN and +inf cells; -inf cells slip through it. */
  lemma PreCheckWarnsOn(data: seq<Num>)
    ensures PreCheckWarns(data) <==> exists i :: 0 <= i < |data| && (data[i].NaN? || data[i].PosInf?)
    ensures (forall i :: 0 <= i < |data| ==> data[i].Finite? || data[i].NegInf?) ==> !PreCheckWarns(data)
  {
    if exists i :: 0 <= i < |data| && (data[i].NaN? || data[i].PosInf?) {
      var i :| 0 <= i < |data| && (data[i].NaN? || data[i].PosInf?);
      assert CheckCopy(data)[i].NaN?;
    }
  }

  /** Number of rows kept: all of them when rows * columns fits the cap,
      otherwise floor(maximumNrSamples / columns). */
  function SampleSize(rows: nat, cols: nat, maxSamples: nat): (k: nat)
    requires cols > 0
    ensures rows * cols <= maxSamples ==> k == rows
    ensures rows * cols > maxSamples ==> k * cols <= maxSamples < (k + 1) * cols
  {
    if rows * cols <= maxSamples then rows
    else
      var k := maxSamples / cols;
      assert maxSamples == k * cols + maxSamples % cols;
      k
  }

  /** Subsampling keeps strictly fewer rows than the data has. */
  lemma SampleSizeBelowRows(rows: nat, cols: nat, maxSamples: nat)
    requires cols > 0 && rows * cols > maxSamples
    ensures SampleSize(rows, cols, maxSamples) < rows
  {
    var k := SampleSize(rows, cols, maxSamples);
    if k >= rows {
      assert k * cols >= rows * cols by {
        MulMono(rows, k, cols);
      }
    }
  }

  lemma MulMono(a: nat, b: nat, c: nat)
    requires a <= b
    ensures a * c <= b * c
  {
  }

  /** `np.sort(np.random.choice(index, size, replace=False))`: `size`
      distinct row numbers, in ascending order. */
  predicate ValidSampleIndex(idx: seq<nat>, rows: nat, size: nat) {
    && |idx| == size
    && (forall i :: 0 <= i < |idx| ==> idx[i] < rows)
    && (forall i, j :: 0 <= i < j < |idx| ==> idx[i] < idx[j])
  }

  /** `data.loc[sampledIndex]`. */
  function SampledRows(data: seq<real>, idx: seq<nat>): (r: seq<real>)
    requires forall i :: 0 <= i < |idx| ==> idx[i] < |data|
    ensures |r| == |idx|
    ensures forall i :: 0 <= i < |idx| ==> r[i] == data[idx[i]]
  {
    seq(|idx|, i requires 0 <= i < |idx| => data[idx[i]])
  }

  /** `pdist` of a single column, in scipy's order: (0,1), (0,2), ..., (0,n-1),
      (1,2), ..., (n-2,n-1). */
  function Distances(s: seq<real>): (d: seq<real>)
    ensures NonNegative(d)
    decreases |s|
  {
    if |s| <= 1 then []
    else seq(|s| - 1, j requires 0 <= j < |s| - 1 => Abs(s[0] - s[j + 1])) + Distances(s[1..])
  }

  /** There is one distance per unordered pair: n(n-1)/2 of them. */
  lemma {:induction false} DistancesLength(s: seq<real>)
    ensures |Distances(s)| * 2 == |s| * (|s| - 1)
    decreases |s|
  {
    if |s| > 1 {
      DistancesLength(s[1..]);
    }
  }

  /** Every pair i < j contributes |s[i] - s[j]|. */
  lemma {:induction false} DistancesCoverPairs(s: seq<real>, i: int, j: int)
    requires 0 <= i < j < |s|
    ensures Abs(s[i] - s[j]) in Distances(s)
    decreases |s|
  {
    var head := seq(|s| - 1, k requires 0 <= k < |s| - 1 => Abs(s[0] - s[k + 1]));
    assert Distances(s) == head + Distances(s[1..]);
    if i == 0 {
      assert head[j - 1] == Abs(s[i] - s[j]);
    } else {
      DistancesCoverPairs(s[1..], i - 1, j - 1);
    }
  }

  /** And every distance comes from such a pair. */
  lemma {:induction false} DistancesFromPairs(s: seq<real>, k: int)
    requires 0 <= k < |Distances(s)|
    ensures exists i, j :: 0 <= i < j < |s| && Distances(s)[k] == Abs(s[i] - s[j])
    decreases |s|
  {
    var head := seq(|s| - 1, m requires 0 <= m < |s| - 1 => Abs(s[0] - s[m + 1]));
    assert Distances(s) == head + Distances(s[1..]);
    if k < |head| {
      assert Distances(s)[k] == Abs(s[0] - s[k + 1]);
    } else {
      DistancesFromPairs(s[1..], k - |head|);
      var i, j :| 0 <= i < j < |s| - 1 && Distances(s[1..])[k - |head|] == Abs(s[1..][i] - s[1..][j]);
      assert Distances(s)[k] == Abs(s[i + 1] - s[j + 1]);
    }
  }

  /** `mquantiles(distvec, [(x+1)/100 for x in range(100)], 1/3, 1/3)`: the
      1%, 2%, ..., 100% quantiles. */
  function Percentiles(dist: seq<real>, prims: Primitives): (p: seq<real>)
    requires |dist| > 0
    ensures |p| == 100
    ensures forall k :: 0 <= k < 100 ==> p[k] == prims.mquantiles(dist, (k + 1) as real / 100.0, 1.0 / 3.0, 1.0 / 3.0)
  {
    seq(100, k requires 0 <= k < 100 => prims.mquantiles(dist, (k + 1) as real / 100.0, 1.0 / 3.0, 1.0 / 3.0))
  }

  /** `pzt[pzt > 0].min()`: the least strictly positive value, if there is one. */
  function MinPositive(s: seq<real>): (m: Option<real>)
    ensures m.None? <==> forall i :: 0 <= i < |s| ==> s[i] <= 0.0
    ensures m.Some? ==> m.value > 0.0 && m.value in s
    ensures m.Some? ==> forall i :: 0 <= i < |s| && s[i] > 0.0 ==> m.value <= s[i]
  {
    if |s| == 0 then None
    else
      var rest := MinPositive(s[1..]);
      assert forall i :: 1 <= i < |s| ==> s[i] == s[1..][i - 1];
      if s[0] <= 0.0 then rest
      else if rest.None? || s[0] <= rest.value then Some(s[0])
      else rest
  }

  /** Steps 58-73: the 18% quantile of the distances; when it is exactly 0,
      the smallest positive percentile instead; and an error when neither
      gives a finite value. */
  function SelectRadius(dist: seq<real>, prims: Primitives): (r: Result<real>)
    requires ValidPrimitives(prims) && NonNegative(dist)
    ensures r.Err? ==> r.error == RadiusNotComputable
    ensures r.Ok? ==> r.value > 0.0
    ensures |dist| == 0 ==> r.Err?
    ensures |dist| > 0 && prims.mquantiles(dist, ParetoQuantile, 1.0 / 3.0, 1.0 / 3.0) != 0.0 ==>
      r == Ok(prims.mquantiles(dist, ParetoQuantile, 1.0 / 3.0, 1.0 / 3.0))
    ensures |dist| > 0 && prims.mquantiles(dist, ParetoQuantile, 1.0 / 3.0, 1.0 / 3.0) == 0.0 ==>
      (r.Err? <==> forall k :: 0 <= k < 100 ==> Percentiles(dist, prims)[k] <= 0.0)
    ensures |dist| > 0 && prims.mquantiles(dist, ParetoQuantile, 1.0 / 3.0, 1.0 / 3.0) == 0.0 && r.Ok? ==>
      r.value in Percentiles(dist, prims) &&
      forall k :: 0 <= k < 100 && Percentiles(dist, prims)[k] > 0.0 ==> r.value <= Percentiles(dist, prims)[k]
  {
    var q := MQuantile(prims, dist, ParetoQuantile, 1.0 / 3.0, 1.0 / 3.0);
    if q.NaN? then Err(RadiusNotComputable)
    else if q.v == 0.0 then
      match MinPositive(Percentiles(dist, prims))
      case None => Err(RadiusNotComputable)
      case Some(m) => Ok(m)
    else
      NonNegativeMin(dist);
      Ok(q.v)
  }

  /** Steps 58-73 and 95 as the source executes them. `mquantiles(distvec,
      18/100, ...)` is a one-element array, but the fallback of line 63 rebinds
      `paretoRadius` to the scalar `pzt[pzt > 0].min()`, so `paretoRadius[0]`
      at line 95 fails on every radius the fallback finds. */
  function SelectRadiusAsWritten(dist: seq<real>, prims: Primitives): (r: Result<real>)
    requires ValidPrimitives(prims) && NonNegative(dist)
    ensures r.Ok? <==> |dist| > 0 && prims.mquantiles(dist, ParetoQuantile, 1.0 / 3.0, 1.0 / 3.0) != 0.0
    ensures r.Ok? ==> r == SelectRadius(dist, prims)
    ensures (r.Err? && r.error == ScalarIndex) <==>
      (|dist| > 0 && SelectRadius(dist, prims).Ok? && prims.mquantiles(dist, ParetoQuantile, 1.0 / 3.0, 1.0 / 3.0) == 0.0)
    ensures r.Err? && r.error != ScalarIndex ==> r == SelectRadius(dist, prims)
  {
    var q := MQuantile(prims, dist, ParetoQuantile, 1.0 / 3.0, 1.0 / 3.0);
    if q.NaN? then Err(RadiusNotComputable)
    else if q.v == 0.0 then
      match MinPositive(Percentiles(dist, prims))
      case None => Err(RadiusNotComputable)
      case Some(m) => Err(ScalarIndex)
    else
      Ok(q.v)
  }

  /** Whenever the 18% quantile is 0 and some percentile is positive (one
      column [0, 0, 0, 1]: distances 0, 0, 0, 1, 1, 1), the source fails where
      the intended fallback yields the least positive percentile. */
  lemma FallbackRaisesAsWritten(dist: seq<real>, prims: Primitives, k: int)
    requires ValidPrimitives(prims) && NonNegative(dist) && |dist| > 0
    requires prims.mquantiles(dist, ParetoQuantile, 1.0 / 3.0, 1.0 / 3.0) == 0.0
    requires 0 <= k < 100 && Percentiles(dist, prims)[k] > 0.0
    ensures SelectRadiusAsWritten(dist, prims) == Err(ScalarIndex)
    ensures SelectRadius(dist, prims).Ok? && 0.0 < SelectRadius(dist, prims).value <= Percentiles(dist, prims)[k]
  {
  }

  lemma NonNegativeMin(s: seq<real>)
    requires |s| > 0 && NonNegative(s)
    ensures SeqMin(s) >= 0.0
  {
  }

  /** `pareto_radius(data, maximumNrSamples)` for a single column of finite
      values; `sampleIndex` is the random choice, used only when the data
      exceeds the cap. */
  function ParetoRadius(data: seq<real>, maxSamples: nat, sampleIndex: seq<nat>, prims: Primitives): (r: Result<real>)
    requires ValidPrimitives(prims)
    requires |data| > maxSamples ==> ValidSampleIndex(sampleIndex, |data|, SampleSize(|data|, 1, maxSamples))
    ensures r.Err? ==> r.error == RadiusNotComputable
    ensures r.Ok? ==> r.value > 0.0
    ensures |data| < 2 ==> r.Err?
    ensures |data| <= LargeSample && |data| <= maxSamples ==> r == SelectRadius(Distances(data), prims)
    ensures var sample := if |data| <= maxSamples then data else SampledRows(data, sampleIndex);
      var s := SelectRadius(Distances(sample), prims);
      && (|data| > maxSamples ==> |sample| == SampleSize(|data|, 1, maxSamples) < |data|)
      && (s.Err? || |data| <= LargeSample ==> r == s)
      && (s.Ok? && |data| > LargeSample ==> r == Ok(LargeSampleRadius(s.value, prims.fifthRoot(|data|))))
  {
    assert |data| > maxSamples ==> SampleSize(|data|, 1, maxSamples) < |data| by {
      if |data| > maxSamples {
        SampleSizeBelowRows(|data|, 1, maxSamples);
      }
    }
    var sample := if |data| <= maxSamples then data else SampledRows(data, sampleIndex);
    var r := SelectRadius(Distances(sample), prims);
    if r.Ok? && |data| > LargeSample then
      Ok(LargeSampleRadius(r.value, prims.fifthRoot(|data|)))
    else
      r
  }

  /** `paretoRadius * 4 / nData**0.2`: a positive radius stays positive. */
  function LargeSampleRadius(radius: real, root: real): (r: real)
    requires radius > 0.0 && root > 0.0
    ensures r > 0.0
    ensures root > 4.0 ==> r < radius
  {
    assert radius * 4.0 > 0.0;
    ShrinkBelow(radius * 4.0 / root, radius, root);
    radius * 4.0 / root
  }

  lemma ShrinkBelow(r: real, radius: real, root: real)
    requires radius > 0.0 && root > 0.0 && r == radius * 4.0 / root
    ensures root > 4.0 ==> r < radius
  {
    QuotientTimes(radius * 4.0, root, r);
    if root > 4.0 {
      assert r > 0.0;
      MulLt(4.0, root, r);
      assert 4.0 * r < radius * 4.0;
    }
  }

  /** When every distance is 0 (all values equal), the radius cannot be found. */
  lemma ConstantDataNoRadius(data: seq<real>, prims: Primitives)
    requires ValidPrimitives(prims) && |data| >= 2
    requires forall i :: 0 <= i < |data| ==> data[i] == data[0]
    ensures SelectRadius(Distances(data), prims).Err?
  {
    var dist := Distances(data);
    DistancesLength(data);
    assert |dist| > 0 by {
      assert |dist| * 2 == |data| * (|data| - 1);
      MulMono(1, |data| - 1, |data|);
    }
    forall k | 0 <= k < |dist|
      ensures dist[k] == 0.0
    {
      DistancesFromPairs(data, k);
    }
    ZeroDistancesNoRadius(dist, prims);
  }

  /** Distances that are all 0 have only zero quantiles. */
  lemma ZeroDistancesNoRadius(dist: seq<real>, prims: Primitives)
    requires ValidPrimitives(prims) && |dist| > 0
    requires forall k :: 0 <= k < |dist| ==> dist[k] == 0.0
    ensures NonNegative(dist)
    ensures SelectRadius(dist, prims).Err?
  {
    assert SeqMax(dist) == 0.0 && SeqMin(dist) == 0.0;
    var p := Percentiles(dist, prims);
    forall k | 0 <= k < 100
      ensures p[k] <= 0.0
    {
      assert p[k] == prims.mquantiles(dist, (k + 1) as real / 100.0, 1.0 / 3.0, 1.0 / 3.0);
    }
    assert prims.mquantiles(dist, ParetoQuantile, 1.0 / 3.0, 1.0 / 3.0) == 0.0;
  }
}
