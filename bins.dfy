/** The Keating/Scott estimate of the number of histogram bins
    (md_plot/helper/optimal_no_bins.py). */
module BinCount {
  import opened Numeric

  /** Scott's constant in the bin width 3.49 * sigma / n^(1/3). */
  const ScottFactor: real := 3.49
  /** IQR / 1.349 estimates the standard deviation of a normal sample. */
  const IqrPerSigma: real := 1.349
  /** The fewest bins the estimate ever returns for non-empty data. */
  const MinBins: int := 10

  /** Python's `min(sigma, iqr / 1.349)`: the first argument unless the second
      is strictly smaller, so an undefined sigma stays undefined. */
  function RobustSigma(sigma: Num, iqr: real): (r: Num)
    requires !sigma.PosInf? && !sigma.NegInf?
    ensures r.NaN? <==> sigma.NaN?
    ensures r.Finite? ==> r.v <= iqr / IqrPerSigma && r.v <= sigma.v
    ensures r.Finite? ==> r.v == iqr / IqrPerSigma || r.v == sigma.v
  {
    if sigma.NaN? then NaN
    else if iqr / IqrPerSigma < sigma.v then Finite(iqr / IqrPerSigma)
    else sigma
  }

  /** `max(ceil(range / width), 10)` when the width is positive, else 10: the
      fewest bins of that width that cover the range, but never fewer than 10. */
  function BinsForWidth(range: real, width: Num): (r: int)
    ensures r >= MinBins
    ensures !(width.Finite? && width.v > 0.0) ==> r == MinBins
    ensures width.Finite? && width.v > 0.0 ==>
      range <= r as real * width.v && (r == MinBins || range > (r - 1) as real * width.v)
  {
    if width.Finite? && width.v > 0.0 then
      var c := Ceil(range / width.v);
      CeilTimes(range, width.v);
      assert (c - 1) as real * width.v == c as real * width.v - width.v;
      if c >= MinBins then
        c
      else
        MulLe(c as real, MinBins as real, width.v);
        MinBins
    else
      MinBins
  }

  /** The interquartile range with scipy's mquantiles, alphap = betap = 1/3. */
  function InterquartileRange(s: seq<real>, prims: Primitives): (iqr: real)
    requires |s| > 0 && ValidPrimitives(prims)
    ensures iqr >= 0.0
  {
    prims.mquantiles(s, 0.75, 1.0 / 3.0, 1.0 / 3.0) - prims.mquantiles(s, 0.25, 1.0 / 3.0, 1.0 / 3.0)
  }

  /** optBinWidth = 3.49 * sigmaSir / n^(1/3); NaN when sigma is undefined. */
  function ScottWidth(s: seq<real>, prims: Primitives): (w: Num)
    requires |s| > 0 && ValidPrimitives(prims)
    ensures w.NaN? <==> |s| == 1
    ensures w.Finite? ==> w.v >= 0.0
  {
    var sigma := RobustSigma(prims.std(s), InterquartileRange(s, prims));
    if sigma.NaN? then NaN
    else
      var cr := prims.cubeRoot(|s|);
      NonNegativeQuotient(ScottFactor * sigma.v, cr);
      Finite(ScottFactor * sigma.v / cr)
  }

  lemma NonNegativeQuotient(x: real, d: real)
    requires x >= 0.0 && d > 0.0
    ensures x / d >= 0.0
  {
  }

  /** The bin count of the NaN-free values: 0 for no data, otherwise at least
      10, and exactly 10 for a single value, which has no standard deviation.
      BinsForWidth states what the count means for a positive width. */
  function BinCountOf(s: seq<real>, prims: Primitives): (r: int)
    requires ValidPrimitives(prims)
    ensures r == 0 <==> |s| == 0
    ensures |s| > 0 ==> r >= MinBins
    ensures |s| == 1 ==> r == MinBins
  {
    if |s| == 0 then 0
    else BinsForWidth(SeqMax(s) - SeqMin(s), ScottWidth(s, prims))
  }

  /** `optimal_no_bins(data)`. dropna removes NaN only; with no infinite cells
      that leaves exactly the finite values. */
  function OptimalNoBins(data: Column, prims: Primitives): (r: Result<int>)
    requires ValidPrimitives(prims)
    requires data.Numeric? ==> NoInfinities(data.values)
    ensures r.Err? <==> data.NonNumeric?
    ensures r.Err? ==> r.error == NotNumeric
    ensures r.Ok? ==> (r.value == 0 <==> |Clean(data.values)| == 0)
    ensures r.Ok? ==> r.value == 0 || r.value >= MinBins
  {
    if data.NonNumeric? then Err(NotNumeric)
    else Ok(BinCountOf(Clean(data.values), prims))
  }

  /** Data of one repeated value has range 0 and gets the minimum. */
  lemma ConstantDataMinBins(s: seq<real>, prims: Primitives)
    requires ValidPrimitives(prims) && |s| > 0
    requires forall i :: 0 <= i < |s| ==> s[i] == s[0]
    ensures BinCountOf(s, prims) == MinBins
  {
    var w := ScottWidth(s, prims);
    assert SeqMax(s) - SeqMin(s) == 0.0;
    if w.Finite? && w.v > 0.0 {
      assert Ceil(0.0 / w.v) == 0;
    }
  }
}
