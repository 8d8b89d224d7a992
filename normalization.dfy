/** Robust normalisation (md_plot/helper/robust_normalization.py): each
    numeric series is rescaled affinely so that its 1% and 99% quantiles map
    to 0 and 1, then optionally centred on its median and clamped. A data
    frame is normalised column by column. */
module Normalization {
  import opened Numeric

  /** The lower and upper quantile that fix the scale. */
  const LowQuantile: real := 0.01
  const HighQuantile: real := 0.99

  /** The normalised series together with what it takes to undo the
      normalisation (the `withBackTransformation` dictionary). */
  datatype Normalized = Normalized(data: seq<Num>, minX: Num, maxX: Num, denom: Num, center: Num)

  /** `data.replace([inf, -inf], nan)` when narm is set. */
  function Prepared(s: seq<Num>, narm: bool): (x: seq<Num>)
    requires narm || NoInfinities(s)
    ensures |x| == |s| && NoInfinities(x)
    ensures forall i :: 0 <= i < |s| && s[i].Finite? ==> x[i] == s[i]
    ensures forall i :: 0 <= i < |s| ==> (x[i].NaN? <==> !s[i].Finite?)
    ensures HasNumber(x) <==> HasNumber(s)
  {
    if narm then ReplaceInfinities(s) else s
  }

  /** A series has something to normalise exactly when one of its cells is a number. */
  predicate HasNumber(s: seq<Num>) {
    exists i :: 0 <= i < |s| && s[i].Finite?
  }

  lemma CleanNonEmpty(s: seq<Num>)
    ensures |Clean(s)| > 0 <==> HasNumber(s)
  {
    if HasNumber(s) {
      var i :| 0 <= i < |s| && s[i].Finite?;
      assert s[i].v in Clean(s);
    }
    if |Clean(s)| > 0 {
      assert Finite(Clean(s)[0]) in s;
    }
  }

  /** `Series.quantile(q)`: NaN cells are skipped, and a series without
      numbers has a NaN quantile. */
  function SeriesQuantile(s: seq<Num>, q: real, prims: Primitives): (r: Num)
    ensures r.NaN? <==> |Clean(s)| == 0
    ensures r.Finite? ==> r.v == prims.quantile(Clean(s), q)
  {
    if |Clean(s)| == 0 then NaN else Finite(prims.quantile(Clean(s), q))
  }

  /** `Series.median()`, with the same treatment of NaN. */
  function SeriesMedian(s: seq<Num>, prims: Primitives): (r: Num)
    ensures r.NaN? <==> |Clean(s)| == 0
    ensures r.Finite? ==> r.v == prims.median(Clean(s))
  {
    if |Clean(s)| == 0 then NaN else Finite(prims.median(Clean(s)))
  }

  /** The low quantile never exceeds the high one. */
  lemma QuantilesOrdered(s: seq<Num>, prims: Primitives)
    requires ValidPrimitives(prims) && |Clean(s)| > 0
    ensures SeriesQuantile(s, LowQuantile, prims).v <= SeriesQuantile(s, HighQuantile, prims).v
  {
  }

  /** `(data - minX) / denom` on the cells that are numbers; `d` is never 0. */
  function Rescale(s: seq<Num>, lo: real, d: real): (r: seq<Num>)
    requires d > 0.0
    ensures |r| == |s|
    ensures forall i :: 0 <= i < |s| ==> (r[i].Finite? <==> s[i].Finite?) && (!s[i].Finite? ==> r[i] == s[i])
    ensures forall i :: 0 <= i < |s| && s[i].Finite? ==> r[i].v * d + lo == s[i].v
  {
    var r := seq(|s|, i requires 0 <= i < |s| => if s[i].Finite? then Finite((s[i].v - lo) / d) else s[i]);
    forall i | 0 <= i < |s| && s[i].Finite?
      ensures r[i].v * d + lo == s[i].v
    {
      QuotientTimes(s[i].v - lo, d, (s[i].v - lo) / d);
    }
    r
  }

  /** `data - center`; subtracting a NaN centre leaves nothing but NaN. */
  function Shift(s: seq<Num>, c: Num): (r: seq<Num>)
    requires c.Finite? || c.NaN?
    ensures |r| == |s|
    ensures c.Finite? ==> forall i :: 0 <= i < |s| && s[i].Finite? ==> r[i].Finite? && r[i].v + c.v == s[i].v
    ensures c.Finite? ==> forall i :: 0 <= i < |s| && !s[i].Finite? ==> r[i] == s[i]
    ensures c.NaN? ==> forall i :: 0 <= i < |s| ==> r[i].NaN?
  {
    seq(|s|, i requires 0 <= i < |s| =>
      if c.NaN? then NaN
      else if s[i].Finite? then Finite(s[i].v - c.v)
      else s[i])
  }

  /** `data.apply(lambda x: lo if x < lo else x)`: a comparison with NaN is
      false, so NaN cells and a NaN bound change nothing. */
  function ClampBelow(s: seq<Num>, lo: Num): (r: seq<Num>)
    ensures |r| == |s|
    ensures forall i :: 0 <= i < |s| ==> (r[i].Finite? <==> s[i].Finite?) && (!s[i].Finite? ==> r[i] == s[i])
    ensures forall i :: 0 <= i < |s| && s[i].Finite? && lo.Finite? ==> r[i].v >= lo.v
    ensures forall i :: 0 <= i < |s| && s[i].Finite? && lo.Finite? ==> (r[i].v == s[i].v || r[i].v == lo.v)
    ensures forall i :: 0 <= i < |s| && s[i].Finite? && (lo.NaN? || (lo.Finite? && s[i].v >= lo.v)) ==> r[i] == s[i]
  {
    seq(|s|, i requires 0 <= i < |s| =>
      if s[i].Finite? && lo.Finite? && s[i].v < lo.v then lo else s[i])
  }

  /** `data.apply(lambda x: hi if x > hi else x)`. */
  function ClampAbove(s: seq<Num>, hi: Num): (r: seq<Num>)
    ensures |r| == |s|
    ensures forall i :: 0 <= i < |s| ==> (r[i].Finite? <==> s[i].Finite?) && (!s[i].Finite? ==> r[i] == s[i])
    ensures forall i :: 0 <= i < |s| && s[i].Finite? && hi.Finite? ==> r[i].v <= hi.v
    ensures forall i :: 0 <= i < |s| && s[i].Finite? && hi.Finite? ==> (r[i].v == s[i].v || r[i].v == hi.v)
    ensures forall i :: 0 <= i < |s| && s[i].Finite? && (hi.NaN? || (hi.Finite? && s[i].v <= hi.v)) ==> r[i] == s[i]
  {
    seq(|s|, i requires 0 <= i < |s| =>
      if s[i].Finite? && hi.Finite? && s[i].v > hi.v then hi else s[i])
  }

  /** `denom = maxX - minX`, replaced by 1 when it is 0. */
  function Denominator(lo: real, hi: real): (d: real)
    requires lo <= hi
    ensures d > 0.0
    ensures d == 1.0 || d == hi - lo
  {
    if hi - lo == 0.0 then 1.0 else hi - lo
  }

  /** The rescaled series of lines 39-44 and the scale it was rescaled by. */
  datatype Scaling = Scaling(data: seq<Num>, lo: real, hi: real, d: real)

  /** minX and maxX are the 1% and 99% quantiles of the numbers; the numbers
      are rescaled by them so that minX goes to 0 and maxX to 1. */
  function QuantileScale(x: seq<Num>, prims: Primitives): (sc: Scaling)
    requires ValidPrimitives(prims) && HasNumber(x)
    ensures sc.lo == prims.quantile(Clean(x), LowQuantile) && sc.hi == prims.quantile(Clean(x), HighQuantile)
    ensures sc.lo <= sc.hi && sc.d > 0.0
    ensures sc.d == sc.hi - sc.lo || (sc.d == 1.0 && sc.lo == sc.hi)
    ensures |sc.data| == |x| && HasNumber(sc.data)
    ensures forall i :: 0 <= i < |x| ==> (sc.data[i].Finite? <==> x[i].Finite?) && (!x[i].Finite? ==> sc.data[i] == x[i])
    ensures sc.data == Rescale(x, sc.lo, sc.d)
  {
    CleanNonEmpty(x);
    var lo := SeriesQuantile(x, LowQuantile, prims);
    var hi := SeriesQuantile(x, HighQuantile, prims);
    QuantilesOrdered(x, prims);
    var d := Denominator(lo.v, hi.v);
    var t := Rescale(x, lo.v, d);
    var i :| 0 <= i < |x| && x[i].Finite?;
    assert t[i].Finite?;
    Scaling(t, lo.v, hi.v, d)
  }

  /** Lines 46-51: the median of the rescaled numbers is subtracted and
      reported as the centre; with capping the result is clamped to [-1, 1]. */
  function Centre(sc: Scaling, capped: bool, prims: Primitives): (r: Normalized)
    requires HasNumber(sc.data)
    ensures r.minX == Finite(sc.lo) && r.maxX == Finite(sc.hi) && r.denom == Finite(sc.d)
    ensures r.center.Finite? && r.center.v == prims.median(Clean(sc.data))
    ensures |r.data| == |sc.data|
    ensures forall i :: 0 <= i < |sc.data| ==>
      (r.data[i].Finite? <==> sc.data[i].Finite?) && (!sc.data[i].Finite? ==> r.data[i] == sc.data[i])
    ensures !capped ==> forall i :: 0 <= i < |sc.data| && sc.data[i].Finite? ==> r.data[i].v + r.center.v == sc.data[i].v
    ensures capped ==> forall i :: 0 <= i < |sc.data| && sc.data[i].Finite? ==> -1.0 <= r.data[i].v <= 1.0
    ensures capped ==> forall i :: 0 <= i < |sc.data| && sc.data[i].Finite? && -1.0 <= sc.data[i].v - r.center.v <= 1.0 ==>
      r.data[i].v == sc.data[i].v - r.center.v
  {
    CleanNonEmpty(sc.data);
    var c := SeriesMedian(sc.data, prims);
    var u := Shift(sc.data, c);
    Normalized(if capped then ClampAbove(ClampBelow(u, Finite(-1.0)), Finite(1.0)) else u,
               Finite(sc.lo), Finite(sc.hi), Finite(sc.d), c)
  }

  /** Lines 52-57: without centring, capping clamps the rescaled numbers to
      their own 1% and 99% quantiles, which then replace minX and maxX. */
  function CapToQuantiles(sc: Scaling, prims: Primitives): (r: Normalized)
    requires ValidPrimitives(prims) && HasNumber(sc.data)
    ensures r.minX == SeriesQuantile(sc.data, LowQuantile, prims) && r.maxX == SeriesQuantile(sc.data, HighQuantile, prims)
    ensures r.minX.Finite? && r.maxX.Finite? && r.minX.v <= r.maxX.v
    ensures r.denom == Finite(sc.d) && r.center == Finite(0.0)
    ensures |r.data| == |sc.data|
    ensures forall i :: 0 <= i < |sc.data| ==>
      (r.data[i].Finite? <==> sc.data[i].Finite?) && (!sc.data[i].Finite? ==> r.data[i] == sc.data[i])
    ensures forall i :: 0 <= i < |sc.data| && sc.data[i].Finite? ==> r.minX.v <= r.data[i].v <= r.maxX.v
    ensures forall i :: 0 <= i < |sc.data| && sc.data[i].Finite? && r.minX.v <= sc.data[i].v <= r.maxX.v ==>
      r.data[i] == sc.data[i]
  {
    CleanNonEmpty(sc.data);
    QuantilesOrdered(sc.data, prims);
    var lo2 := SeriesQuantile(sc.data, LowQuantile, prims);
    var hi2 := SeriesQuantile(sc.data, HighQuantile, prims);
    Normalized(ClampAbove(ClampBelow(sc.data, lo2), hi2), lo2, hi2, Finite(sc.d), Finite(0.0))
  }

  /** `robust_normalization(series, centered, capped, narm,
      withBackTransformation=True)`. A series without numbers stays all NaN
      and every parameter but an uncentred centre is NaN. */
  function RobustNormalizeSeries(s: seq<Num>, centered: bool, capped: bool, narm: bool, prims: Primitives): (r: Normalized)
    requires ValidPrimitives(prims)
    requires narm || NoInfinities(s)
    ensures |r.data| == |s|
    ensures forall i :: 0 <= i < |s| ==> (r.data[i].Finite? <==> s[i].Finite?)
    ensures forall i :: 0 <= i < |s| && !s[i].Finite? ==> r.data[i].NaN?
    ensures r.denom.NaN? <==> !HasNumber(s)
    ensures r.denom.Finite? ==> r.denom.v > 0.0
    ensures !centered ==> r.center == Finite(0.0)
    ensures centered ==> (r.center.NaN? <==> !HasNumber(s))
  {
    var x := Prepared(s, narm);
    if !HasNumber(x) then
      Normalized(x, NaN, NaN, NaN, if centered then NaN else Finite(0.0))
    else
      var sc := QuantileScale(x, prims);
      if centered then Centre(sc, capped, prims)
      else if capped then CapToQuantiles(sc, prims)
      else Normalized(sc.data, Finite(sc.lo), Finite(sc.hi), Finite(sc.d), Finite(0.0))
  }

  /** The back transformation `(t + Center) * Denom + MinX`, cell by cell. */
  function Denormalize(r: Normalized): (x: seq<Num>)
    ensures |x| == |r.data|
  {
    seq(|r.data|, i requires 0 <= i < |r.data| =>
      if r.data[i].Finite? && r.minX.Finite? && r.denom.Finite? && r.center.Finite?
      then Finite((r.data[i].v + r.center.v) * r.denom.v + r.minX.v)
      else r.data[i])
  }

  /** Without capping nothing is lost: the returned parameters undo the
      normalisation, centred or not, and give back the series with its
      infinities replaced by NaN. */
  lemma BackTransformation(s: seq<Num>, centered: bool, narm: bool, prims: Primitives)
    requires ValidPrimitives(prims)
    requires narm || NoInfinities(s)
    ensures Denormalize(RobustNormalizeSeries(s, centered, false, narm, prims)) == Prepared(s, narm)
  {
    var r := RobustNormalizeSeries(s, centered, false, narm, prims);
    var x := Prepared(s, narm);
    if HasNumber(x) {
      var sc := QuantileScale(x, prims);
      if centered {
        assert r == Centre(sc, false, prims);
      } else {
        assert r == Normalized(sc.data, Finite(sc.lo), Finite(sc.hi), Finite(sc.d), Finite(0.0));
      }
      UndoScaling(r, x, sc.lo, sc.d);
    } else {
      assert r.data == x;
    }
  }

  /** Cell by cell: a number t that was shifted by the centre c after being
      rescaled from x comes back as (t + c) * d + lo == x. */
  lemma UndoScaling(r: Normalized, x: seq<Num>, lo: real, d: real)
    requires d > 0.0 && r.minX == Finite(lo) && r.denom == Finite(d) && r.center.Finite?
    requires |r.data| == |x|
    requires forall i :: 0 <= i < |x| && !x[i].Finite? ==> r.data[i] == x[i]
    requires forall i :: 0 <= i < |x| && x[i].Finite? ==>
      r.data[i].Finite? && r.data[i].v + r.center.v == Rescale(x, lo, d)[i].v
    ensures Denormalize(r) == x
  {
    var y := Denormalize(r);
    var t := Rescale(x, lo, d);
    forall i | 0 <= i < |x|
      ensures y[i] == x[i]
    {
      if x[i].Finite? {
        assert (r.data[i].v + r.center.v) * d + lo == t[i].v * d + lo;
      }
    }
  }

  /** Centred and capped: every number ends in [-1, 1], and a number that
      already lay there after centring is kept. */
  lemma CenteredCappedInUnitRange(s: seq<Num>, narm: bool, prims: Primitives, i: int)
    requires ValidPrimitives(prims)
    requires narm || NoInfinities(s)
    requires 0 <= i < |s| && s[i].Finite?
    ensures var a := RobustNormalizeSeries(s, true, true, narm, prims);
      var b := RobustNormalizeSeries(s, true, false, narm, prims);
      && -1.0 <= a.data[i].v <= 1.0
      && a.center == b.center
      && (-1.0 <= b.data[i].v <= 1.0 ==> a.data[i] == b.data[i])
  {
    var x := Prepared(s, narm);
    assert x[i].Finite?;
    var sc := QuantileScale(x, prims);
    var a := Centre(sc, true, prims);
    var b := Centre(sc, false, prims);
    assert sc.data[i].Finite?;
    assert b.data[i].v == sc.data[i].v - b.center.v;
  }

  /** Not centred but capped: the numbers are clamped to the 1% and 99%
      quantiles of the rescaled series, and those quantiles, taken in the
      rescaled space, are what MinX and MaxX report. */
  lemma CappedWithinReportedRange(s: seq<Num>, narm: bool, prims: Primitives, i: int)
    requires ValidPrimitives(prims)
    requires narm || NoInfinities(s)
    requires 0 <= i < |s| && s[i].Finite?
    ensures var a := RobustNormalizeSeries(s, false, true, narm, prims);
      var b := RobustNormalizeSeries(s, false, false, narm, prims);
      && a.minX.Finite? && a.maxX.Finite? && a.minX.v <= a.maxX.v
      && a.minX == SeriesQuantile(b.data, LowQuantile, prims)
      && a.maxX == SeriesQuantile(b.data, HighQuantile, prims)
      && a.denom == b.denom
      && a.minX.v <= a.data[i].v <= a.maxX.v
      && (a.minX.v <= b.data[i].v <= a.maxX.v ==> a.data[i] == b.data[i])
  {
    var x := Prepared(s, narm);
    assert x[i].Finite?;
    var sc := QuantileScale(x, prims);
    var a := CapToQuantiles(sc, prims);
    assert sc.data[i].Finite?;
  }

  /** Without centring the quantile scale maps the 1% quantile to 0 and the
      99% quantile to 1 (a value equal to both, when they coincide, to 0). */
  lemma QuantilesMapToUnit(s: seq<Num>, narm: bool, prims: Primitives, i: int)
    requires ValidPrimitives(prims)
    requires narm || NoInfinities(s)
    requires 0 <= i < |s| && s[i].Finite?
    ensures var r := RobustNormalizeSeries(s, false, false, narm, prims);
      && r.minX.Finite? && r.maxX.Finite?
      && (s[i].v == r.minX.v ==> r.data[i].v == 0.0)
      && (s[i].v == r.maxX.v && r.minX.v < r.maxX.v ==> r.data[i].v == 1.0)
  {
    var x := Prepared(s, narm);
    assert x[i].Finite?;
    var sc := QuantileScale(x, prims);
    assert RobustNormalizeSeries(s, false, false, narm, prims).data == Rescale(x, sc.lo, sc.d);
    RescaledQuantiles(x, sc.lo, sc.hi, sc.d, i);
  }

  lemma RescaledQuantiles(x: seq<Num>, lo: real, hi: real, d: real, i: int)
    requires d > 0.0 && (d == hi - lo || (d == 1.0 && lo == hi))
    requires 0 <= i < |x| && x[i].Finite?
    ensures x[i].v == lo ==> Rescale(x, lo, d)[i].v == 0.0
    ensures x[i].v == hi && lo < hi ==> Rescale(x, lo, d)[i].v == 1.0
  {
    var t := Rescale(x, lo, d)[i].v;
    assert t * d + lo == x[i].v;
    if x[i].v == lo {
      ZeroProduct(t, d);
    }
    if x[i].v == hi && lo < hi {
      assert d == hi - lo;
      assert t * d == hi - lo;
      UnitProduct(t, d);
    }
  }

  lemma ZeroProduct(t: real, d: real)
    requires d > 0.0 && t * d == 0.0
    ensures t == 0.0
  {
    if t != 0.0 {
      if t > 0.0 { MulLt(0.0, t, d); } else { MulLt(t, 0.0, d); }
    }
  }

  lemma UnitProduct(t: real, d: real)
    requires d > 0.0 && t * d == d
    ensures t == 1.0
  {
    assert (t - 1.0) * d == 0.0;
    ZeroProduct(t - 1.0, d);
  }

  // ---------------------------------------------------------------------
  // Data frames

  /** A data frame as its columns in order, each with its name. */
  datatype NamedColumn = NamedColumn(name: string, column: Column)

  /** The dataframe branch with withBackTransformation: the normalised
      columns and the four parameter dictionaries, all keyed by column name. */
  datatype NormalizedFrame = NormalizedFrame(
    data: map<string, seq<Num>>,
    minX: map<string, Num>,
    maxX: map<string, Num>,
    denom: map<string, Num>,
    center: map<string, Num>)

  predicate DistinctNames(frame: seq<NamedColumn>) {
    forall i, j :: 0 <= i < j < |frame| ==> frame[i].name != frame[j].name
  }

  /** What the source demands of every numeric column. */
  predicate Normalizable(frame: seq<NamedColumn>, narm: bool) {
    forall i :: 0 <= i < |frame| && frame[i].column.Numeric? ==>
      narm || NoInfinities(frame[i].column.values)
  }

  function NumericNames(frame: seq<NamedColumn>): set<string> {
    set i | 0 <= i < |frame| && frame[i].column.Numeric? :: frame[i].name
  }

  /** Every column the output holds comes with all four parameters. */
  predicate SameKeys(out: NormalizedFrame, keys: set<string>) {
    && out.data.Keys == keys && out.minX.Keys == keys && out.maxX.Keys == keys
    && out.denom.Keys == keys && out.center.Keys == keys
  }

  /** Column j of the frame was normalised on its own and stored under its name. */
  predicate StoredAt(out: NormalizedFrame, frame: seq<NamedColumn>, j: int,
                     centered: bool, capped: bool, narm: bool, prims: Primitives)
    requires ValidPrimitives(prims) && Normalizable(frame, narm)
    requires 0 <= j < |frame| && frame[j].column.Numeric?
  {
    var k := frame[j].name;
    var r := RobustNormalizeSeries(frame[j].column.values, centered, capped, narm, prims);
    && k in out.data && out.data[k] == r.data
    && k in out.minX && out.minX[k] == r.minX
    && k in out.maxX && out.maxX[k] == r.maxX
    && k in out.denom && out.denom[k] == r.denom
    && k in out.center && out.center[k] == r.center
  }

  /** `robust_normalization(dataframe, ...)`: each numeric column is
      normalised independently with the same flags; other columns are
      dropped. */
  method RobustNormalizationFrame(frame: seq<NamedColumn>, centered: bool, capped: bool, narm: bool, prims: Primitives)
    returns (out: NormalizedFrame)
    requires ValidPrimitives(prims)
    requires DistinctNames(frame) && Normalizable(frame, narm)
    ensures SameKeys(out, NumericNames(frame))
    ensures forall j :: 0 <= j < |frame| && frame[j].column.Numeric? ==>
      StoredAt(out, frame, j, centered, capped, narm, prims)
  {
    out := NormalizedFrame(map[], map[], map[], map[], map[]);
    var i := 0;
    while i < |frame|
      invariant 0 <= i <= |frame|
      invariant StoredUpTo(out, frame, i, centered, capped, narm, prims)
    {
      var next := out;
      if frame[i].column.Numeric? {
        var r := RobustNormalizeSeries(frame[i].column.values, centered, capped, narm, prims);
        next := Store(out, frame[i].name, r);
      }
      StoreStep(out, next, frame, i, centered, capped, narm, prims);
      out := next;
      i := i + 1;
    }
    assert frame[..|frame|] == frame;
  }

  /** The first i columns are done: the numeric ones among them, and only
      those, are in every dictionary, each under its own name. */
  predicate StoredUpTo(out: NormalizedFrame, frame: seq<NamedColumn>, i: int,
                       centered: bool, capped: bool, narm: bool, prims: Primitives)
    requires ValidPrimitives(prims) && Normalizable(frame, narm)
    requires 0 <= i <= |frame|
  {
    && SameKeys(out, NumericNames(frame[..i]))
    && forall j :: 0 <= j < i && frame[j].column.Numeric? ==>
         StoredAt(out, frame, j, centered, capped, narm, prims)
  }

  /** `dataOut[strCol] = ...; minX[strCol] = ...` and so on: column k and its
      four parameters are stored under k, and every other column keeps its
      values. */
  function Store(out: NormalizedFrame, k: string, r: Normalized): (next: NormalizedFrame)
    ensures next.data.Keys == out.data.Keys + {k} && next.data[k] == r.data
    ensures forall k' :: k' in out.data && k' != k ==> next.data[k'] == out.data[k']
    ensures next.minX == out.minX[k := r.minX] && next.maxX == out.maxX[k := r.maxX]
    ensures next.denom == out.denom[k := r.denom] && next.center == out.center[k := r.center]
  {
    NormalizedFrame(out.data[k := r.data], out.minX[k := r.minX], out.maxX[k := r.maxX],
                    out.denom[k := r.denom], out.center[k := r.center])
  }

  /** One turn of the column loop keeps the loop invariant. */
  lemma StoreStep(out: NormalizedFrame, next: NormalizedFrame, frame: seq<NamedColumn>, i: int,
                  centered: bool, capped: bool, narm: bool, prims: Primitives)
    requires ValidPrimitives(prims) && DistinctNames(frame) && Normalizable(frame, narm)
    requires 0 <= i < |frame|
    requires StoredUpTo(out, frame, i, centered, capped, narm, prims)
    requires next == if frame[i].column.Numeric?
      then Store(out, frame[i].name, RobustNormalizeSeries(frame[i].column.values, centered, capped, narm, prims))
      else out
    ensures StoredUpTo(next, frame, i + 1, centered, capped, narm, prims)
  {
    StoreKeys(out, next, frame, i);
    if frame[i].column.Numeric? {
      var r := RobustNormalizeSeries(frame[i].column.values, centered, capped, narm, prims);
      assert StoredAt(next, frame, i, centered, capped, narm, prims);
      KeepsAll(out, next, frame, i, r, centered, capped, narm, prims);
    }
  }

  lemma KeepsAll(prev: NormalizedFrame, out: NormalizedFrame, frame: seq<NamedColumn>, i: int, r: Normalized,
                 centered: bool, capped: bool, narm: bool, prims: Primitives)
    requires ValidPrimitives(prims) && Normalizable(frame, narm) && DistinctNames(frame)
    requires 0 <= i < |frame|
    requires forall j :: 0 <= j < i && frame[j].column.Numeric? ==> StoredAt(prev, frame, j, centered, capped, narm, prims)
    requires out == Store(prev, frame[i].name, r)
    ensures forall j :: 0 <= j < i && frame[j].column.Numeric? ==> StoredAt(out, frame, j, centered, capped, narm, prims)
  {
    forall j | 0 <= j < i && frame[j].column.Numeric?
      ensures StoredAt(out, frame, j, centered, capped, narm, prims)
    {
      KeepsOthers(prev, out, frame, j, i, r, centered, capped, narm, prims);
    }
  }

  lemma StoreKeys(out: NormalizedFrame, next: NormalizedFrame, frame: seq<NamedColumn>, i: int)
    requires 0 <= i < |frame|
    requires SameKeys(out, NumericNames(frame[..i]))
    requires frame[i].column.Numeric? ==> exists r :: next == Store(out, frame[i].name, r)
    requires !frame[i].column.Numeric? ==> next == out
    ensures SameKeys(next, NumericNames(frame[..i + 1]))
  {
    NamesExtend(frame, i);
  }

  /** Storing column i under its own name leaves column j, stored under
      another name, as it was. */
  lemma KeepsOthers(prev: NormalizedFrame, out: NormalizedFrame, frame: seq<NamedColumn>, j: int, i: int, r: Normalized,
                    centered: bool, capped: bool, narm: bool, prims: Primitives)
    requires ValidPrimitives(prims) && Normalizable(frame, narm) && DistinctNames(frame)
    requires 0 <= j < i < |frame| && frame[j].column.Numeric?
    requires StoredAt(prev, frame, j, centered, capped, narm, prims)
    requires out == Store(prev, frame[i].name, r)
    ensures StoredAt(out, frame, j, centered, capped, narm, prims)
  {
    assert frame[j].name != frame[i].name;
  }

  lemma NamesExtend(frame: seq<NamedColumn>, i: int)
    requires 0 <= i < |frame|
    ensures NumericNames(frame[..i + 1]) ==
      if frame[i].column.Numeric? then NumericNames(frame[..i]) + {frame[i].name}
      else NumericNames(frame[..i])
  {
    var a := frame[..i + 1];
    var b := frame[..i];
    forall k | k in NumericNames(a)
      ensures k in NumericNames(b) || (frame[i].column.Numeric? && k == frame[i].name)
    {
      var j :| 0 <= j < |a| && a[j].column.Numeric? && a[j].name == k;
      if j < i {
        assert b[j] == a[j];
      }
    }
    forall k | k in NumericNames(b)
      ensures k in NumericNames(a)
    {
      var j :| 0 <= j < |b| && b[j].column.Numeric? && b[j].name == k;
      assert a[j] == b[j];
    }
    if frame[i].column.Numeric? {
      assert a[i] == frame[i];
    }
  }
}
