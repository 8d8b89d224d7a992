/** Shared value types of the md_plot engine: IEEE-style floats, pandas
    columns, error results, a few real-number helpers, and the library
    numerics (quantiles, standard deviation, roots, logarithms, the normal
    distribution) that the engine uses but that are not modelled here. */
module Numeric {

  /** A float cell as pandas and numpy see it. */
  datatype Num = Finite(v: real) | NaN | PosInf | NegInf

  /** A pandas column: numeric (float cells) or of some other dtype. */
  datatype Column = Numeric(values: seq<Num>) | NonNumeric

  datatype Option<T> = None | Some(value: T)

  /** The exceptions the engine raises. */
  datatype Error =
    | NotNumeric          // "Data is not numeric!"
    | RadiusNotComputable // "Pareto Radius could not be calculated. (nan or inf values)"
    | UndefinedRange      // nice_step over a NaN or zero range: `nf` is never assigned
    | ScalarIndex         // `paretoRadius[0]` on a numpy scalar: "invalid index to scalar variable"

  datatype Result<T> = Ok(value: T) | Err(error: Error)

  /** The library numerics, taken as given functions.
      - mquantiles(s, p, alphap, betap): scipy's mquantiles of a non-empty sample
      - quantile(s, p), median(s): pandas Series.quantile / Series.median of the
        non-NaN values of a series (non-empty)
      - std(s): pandas Series.std (NaN for a single value)
      - cubeRoot(n) = n ** (1/3), fifthRoot(n) = n ** 0.2
      - floorLog10(x) = floor(log10(x))
      - normPpf(p) = norm.ppf(p), normCdf(x, loc, scale) = norm.cdf(x, loc, scale) */
  datatype Primitives = Primitives(
    mquantiles: (seq<real>, real, real, real) -> real,
    quantile: (seq<real>, real) -> real,
    median: seq<real> -> real,
    std: seq<real> -> Num,
    cubeRoot: nat -> real,
    fifthRoot: nat -> real,
    floorLog10: real -> int,
    normPpf: real -> real,
    normCdf: (real, real, real) -> real)

  /** The only facts about the library numerics the model relies on: a
      quantile of a non-empty sample lies between its extremes and grows with
      the probability, the standard deviation is undefined for fewer than two
      values and non-negative otherwise, the roots of a positive count are
      positive, floorLog10 is floor(log10 x), and norm.ppf is increasing. */
  ghost predicate ValidPrimitives(p: Primitives) {
    && (forall s, q, a, b :: |s| > 0 && 0.0 <= q <= 1.0 ==>
          SeqMin(s) <= p.mquantiles(s, q, a, b) <= SeqMax(s))
    && (forall s, q1, q2, a, b :: |s| > 0 && 0.0 <= q1 <= q2 <= 1.0 ==>
          p.mquantiles(s, q1, a, b) <= p.mquantiles(s, q2, a, b))
    && (forall s, q :: |s| > 0 && 0.0 <= q <= 1.0 ==> SeqMin(s) <= p.quantile(s, q) <= SeqMax(s))
    && (forall s, q1, q2 :: |s| > 0 && 0.0 <= q1 <= q2 <= 1.0 ==> p.quantile(s, q1) <= p.quantile(s, q2))
    && (forall s :: |s| > 0 ==> SeqMin(s) <= p.median(s) <= SeqMax(s))
    && (forall s :: |s| <= 1 ==> p.std(s).NaN?)
    && (forall s :: |s| >= 2 ==> p.std(s).Finite? && p.std(s).v >= 0.0)
    && (forall n: nat :: n > 0 ==> p.cubeRoot(n) > 0.0)
    && (forall n: nat :: n > 0 ==> p.fifthRoot(n) > 0.0)
    && (forall x: real :: x > 0.0 ==> IsFloorLog10(x, p.floorLog10(x)))
    && (forall a: real, b: real :: 0.0 < a < b < 1.0 ==> p.normPpf(a) < p.normPpf(b))
  }

  predicate NonNegative(s: seq<real>) {
    forall i :: 0 <= i < |s| ==> s[i] >= 0.0
  }

  predicate NoInfinities(s: seq<Num>) {
    forall i :: 0 <= i < |s| ==> !s[i].PosInf? && !s[i].NegInf?
  }

  /** scipy's mquantiles over a possibly empty sample: an empty sample yields
      a masked value, which the callers see as NaN. */
  function MQuantile(p: Primitives, s: seq<real>, q: real, alphap: real, betap: real): (r: Num)
    ensures r.NaN? <==> |s| == 0
    ensures r.Finite? ==> r.v == p.mquantiles(s, q, alphap, betap)
  {
    if |s| == 0 then NaN else Finite(p.mquantiles(s, q, alphap, betap))
  }

  /** `data.apply(lambda x: nan if abs(x) == inf else x).dropna()`: the finite
      cells, in order. */
  function Clean(s: seq<Num>): (r: seq<real>)
    ensures |r| <= |s|
    ensures forall x :: x in r ==> Finite(x) in s
    ensures forall i :: 0 <= i < |s| && s[i].Finite? ==> s[i].v in r
  {
    if |s| == 0 then []
    else if s[0].Finite? then [s[0].v] + Clean(s[1..])
    else Clean(s[1..])
  }

  /** Cleaning is done cell by cell, so it keeps the order of the cells. */
  lemma {:induction false} CleanAppend(a: seq<Num>, b: seq<Num>)
    ensures Clean(a + b) == Clean(a) + Clean(b)
  {
    if |a| == 0 {
      assert a + b == b;
    } else {
      assert (a + b)[1..] == a[1..] + b;
      CleanAppend(a[1..], b);
    }
  }

  /** A column with nothing to clean comes out unchanged. */
  lemma {:induction false} CleanAllFinite(s: seq<Num>)
    requires forall i :: 0 <= i < |s| ==> s[i].Finite?
    ensures |Clean(s)| == |s|
    ensures forall i :: 0 <= i < |s| ==> Clean(s)[i] == s[i].v
  {
    if |s| > 0 {
      CleanAllFinite(s[1..]);
    }
  }

  /** `replace([inf, -inf], nan)`. */
  function ReplaceInfinities(s: seq<Num>): (r: seq<Num>)
    ensures |r| == |s| && NoInfinities(r)
    ensures forall i :: 0 <= i < |s| ==> (r[i].NaN? <==> !s[i].Finite?)
    ensures forall i :: 0 <= i < |s| && s[i].Finite? ==> r[i] == s[i]
  {
    seq(|s|, i requires 0 <= i < |s| => if s[i].Finite? then s[i] else NaN)
  }

  function Abs(x: real): real {
    if x < 0.0 then -x else x
  }

  function MinReal(a: real, b: real): real {
    if a <= b then a else b
  }

  function MaxInt(a: int, b: int): int {
    if a >= b then a else b
  }

  /** numpy's floor and ceil. */
  function Floor(x: real): (f: int)
    ensures f as real <= x < f as real + 1.0
  {
    x.Floor
  }

  function Ceil(x: real): (c: int)
    ensures c as real - 1.0 < x <= c as real
  {
    -((-x).Floor)
  }

  /** 10 ** e for an integer exponent. */
  function Pow10(e: int): (p: real)
    ensures p > 0.0
    decreases if e < 0 then -e else e
  {
    if e == 0 then 1.0
    else if e > 0 then 10.0 * Pow10(e - 1)
    else Pow10(e + 1) / 10.0
  }

  lemma Pow10Succ(e: int)
    ensures Pow10(e + 1) == 10.0 * Pow10(e)
  {
  }

  /** e == floor(log10(x)). */
  ghost predicate IsFloorLog10(x: real, e: int) {
    Pow10(e) <= x < Pow10(e + 1)
  }

  /** Smallest and largest value of a non-empty sample (`data.min()`, `data.max()`). */
  function SeqMin(s: seq<real>): (m: real)
    requires |s| > 0
    ensures m in s
    ensures forall i :: 0 <= i < |s| ==> m <= s[i]
  {
    if |s| == 1 then s[0] else MinReal(s[0], SeqMin(s[1..]))
  }

  function SeqMax(s: seq<real>): (m: real)
    requires |s| > 0
    ensures m in s
    ensures forall i :: 0 <= i < |s| ==> s[i] <= m
  {
    if |s| == 1 then s[0]
    else var rest := SeqMax(s[1..]); if s[0] >= rest then s[0] else rest
  }

  /* Facts about real multiplication and division, each stated over plain
     variables so that the solver only has to deal with one product at a time. */

  lemma MulLe(a: real, b: real, c: real)
    requires a <= b && c > 0.0
    ensures a * c <= b * c
  {
  }

  lemma MulLt(a: real, b: real, c: real)
    requires a < b && c > 0.0
    ensures a * c < b * c
  {
  }

  lemma MulCancelLe(x: real, y: real, d: real)
    requires d > 0.0 && x * d <= y * d
    ensures x <= y
  {
    if x > y {
      MulLt(y, x, d);
    }
  }

  lemma DivAdd(u: real, v: real, a: real)
    requires a != 0.0
    ensures u / a + v / a == (u + v) / a
  {
  }

  lemma QuotientOf(x: real, d: real, q: real)
    requires d != 0.0 && q * d == x
    ensures x / d == q
  {
  }

  lemma QuotientTimes(x: real, d: real, q: real)
    requires d != 0.0 && q == x / d
    ensures q * d == x
  {
  }

  lemma ScaleUp(x: real, d: real, q: real, c: real)
    requires d > 0.0 && q * d == x && q <= c
    ensures x <= c * d
  {
    MulLe(q, c, d);
  }

  lemma ScaleUpStrict(x: real, d: real, q: real, c: real)
    requires d > 0.0 && q * d == x && q < c
    ensures x < c * d
  {
    MulLt(q, c, d);
  }

  lemma ScaleDown(x: real, d: real, q: real, c: real)
    requires d > 0.0 && q * d == x && c <= q
    ensures c * d <= x
  {
    MulLe(c, q, d);
  }

  lemma ScaleDownStrict(x: real, d: real, q: real, c: real)
    requires d > 0.0 && q * d == x && c < q
    ensures c * d < x
  {
    MulLt(c, q, d);
  }

  /** floor(x/d)*d is the last multiple of d at or below x. */
  lemma FloorTimes(x: real, d: real)
    requires d > 0.0
    ensures x - d < Floor(x / d) as real * d <= x
  {
    var f := Floor(x / d) as real;
    QuotientTimes(x, d, x / d);
    ScaleDown(x, d, x / d, f);
    ScaleUpStrict(x, d, x / d, f + 1.0);
    assert (f + 1.0) * d == f * d + d;
  }

  /** ceil(x/d)*d is the first multiple of d at or above x. */
  lemma CeilTimes(x: real, d: real)
    requires d > 0.0
    ensures x <= Ceil(x / d) as real * d < x + d
  {
    var c := Ceil(x / d) as real;
    QuotientTimes(x, d, x / d);
    ScaleUp(x, d, x / d, c);
    ScaleDownStrict(x, d, x / d, c - 1.0);
    assert (c - 1.0) * d == c * d - d;
  }
}
