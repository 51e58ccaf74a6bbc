/** Outliers by z-score, in a series and against a learned baseline. */
module Anomalies {
  import opened RealSums
  import opened Text

  function Abs(x: real): real { if x < 0.0 then -x else x }

  function ZRatio(value: real, mean: real, std: real): real
    requires std != 0.0
  {
    Abs(value - mean) / std
  }

  // ----- a series -----

  datatype Row = Row(timestamp: real, value: real)

  datatype AnomalyPoint = AnomalyPoint(timestamp: real, value: real, expected: real, deviation: real)

  function Values(rows: seq<Row>): (vs: seq<real>)
    ensures |vs| == |rows|
  {
    seq(|rows|, i requires 0 <= i < |rows| => rows[i].value)
  }

  /** The rows whose z-score reaches the threshold. */
  function Flagged(rows: seq<Row>, mean: real, std: real, zThreshold: real): seq<AnomalyPoint>
    requires std != 0.0
    decreases |rows|
  {
    if rows == [] then []
    else
      var (init, row) := (Flagged(rows[..|rows| - 1], mean, std, zThreshold), rows[|rows| - 1]);
      var z := ZRatio(row.value, mean, std);
      if z >= zThreshold then init + [AnomalyPoint(row.timestamp, row.value, mean, z)] else init
  }

  function AnomalyPoints(rows: seq<Row>, zThreshold: real, sqrt: real -> real): seq<AnomalyPoint> {
    if |rows| < 10 then []
    else
      var std := sqrt(Variance(Values(rows)));
      if std == 0.0 then [] else Flagged(rows, Mean(Values(rows)), std, zThreshold)
  }

  method DetectAnomalyPoints(rows: seq<Row>, zThreshold: real, sqrt: real -> real)
    returns (anomalies: seq<AnomalyPoint>)
    ensures anomalies == AnomalyPoints(rows, zThreshold, sqrt)
  {
    if |rows| < 10 {
      return [];
    }
    var values := Values(rows);
    var mean := Mean(values);
    var std := sqrt(Variance(values));
    if std == 0.0 {
      return [];
    }
    anomalies := [];
    for i := 0 to |rows|
      invariant anomalies == Flagged(rows[..i], mean, std, zThreshold)
    {
      assert rows[..i + 1][..i] == rows[..i];
      var z := ZRatio(rows[i].value, mean, std);
      if z >= zThreshold {
        anomalies := anomalies + [AnomalyPoint(rows[i].timestamp, rows[i].value, mean, z)];
      }
    }
    assert rows[..|rows|] == rows;
  }

  // ----- a baseline -----

  datatype BaselineStats = BaselineStats(mean: real, stdDev: real, sampleCount: nat)

  /** What learning comes to: no baseline, one, or the error raised by a division by zero. */
  datatype Learned = TooFew | Baselined(stats: BaselineStats) | ZeroDivision

  datatype ZScore = Finite(value: real) | Infinite

  datatype AnomalyScore = AnomalyScore(value: real, zScore: ZScore, isAnomaly: bool, baselineMean: real,
                                       baselineStd: real)

  function Baseline(values: seq<real>, sqrt: real -> real): BaselineStats
    requires values != []
  {
    BaselineStats(Mean(values), sqrt(Variance(values)), |values|)
  }

  function ZOf(b: BaselineStats, value: real): ZScore {
    if b.stdDev == 0.0 then (if value == b.mean then Finite(0.0) else Infinite)
    else Finite(ZRatio(value, b.mean, b.stdDev))
  }

  predicate Reaches(z: ZScore, threshold: real) {
    z.Infinite? || z.value >= threshold
  }

  function Scored(baseline: Option<BaselineStats>, value: real, zThreshold: real, minSamples: int): AnomalyScore {
    if baseline.None? || baseline.value.sampleCount < minSamples then AnomalyScore(value, Finite(0.0), false, 0.0, 0.0)
    else
      var b := baseline.value;
      AnomalyScore(value, ZOf(b, value), Reaches(ZOf(b, value), zThreshold), b.mean, b.stdDev)
  }

  function KeyOf(deviceId: string, metricName: string): string {
    deviceId + ":" + metricName
  }

  class AnomalyBaseline {
    const zThreshold: real
    const minSamples: int
    const sqrt: real -> real
    var baselines: map<string, BaselineStats>

    constructor (zThreshold: real, minSamples: int, sqrt: real -> real)
      ensures this.zThreshold == zThreshold && this.minSamples == minSamples && this.sqrt == sqrt && baselines == map[]
    {
      this.zThreshold := zThreshold;
      this.minSamples := minSamples;
      this.sqrt := sqrt;
      baselines := map[];
    }

    /**
     * values is what the store returned, or None when there is no store to ask. Without a lower limit on the samples an
     * empty answer gets as far as the division by their number.
     */
    method LearnBaseline(deviceId: string, metricName: string, values: Option<seq<real>>) returns (r: Learned)
      modifies this
      ensures r.TooFew? <==> values.None? || |values.value| < minSamples
      ensures r.ZeroDivision? <==> minSamples <= 0 && values == Some([])
      ensures !r.Baselined? ==> baselines == old(baselines)
      ensures r.Baselined? ==> r.stats == Baseline(values.value, sqrt)
                               && baselines == old(baselines)[KeyOf(deviceId, metricName) := r.stats]
    {
      if values.None? {
        return TooFew;
      }
      var vs := values.value;
      if |vs| < minSamples {
        return TooFew;
      }
      if |vs| == 0 {
        return ZeroDivision;
      }
      var mean := Mean(vs);
      var stdDev := sqrt(Variance(vs));
      var baseline := BaselineStats(mean, stdDev, |vs|);
      baselines := baselines[deviceId + ":" + metricName := baseline];
      return Baselined(baseline);
    }

    method Score(deviceId: string, metricName: string, value: real) returns (score: AnomalyScore)
      ensures var key := KeyOf(deviceId, metricName);
        score == Scored(if key in baselines then Some(baselines[key]) else None, value, zThreshold, minSamples)
    {
      var key := deviceId + ":" + metricName;
      if key !in baselines || baselines[key].sampleCount < minSamples {
        return AnomalyScore(value, Finite(0.0), false, 0.0, 0.0);
      }
      var baseline := baselines[key];
      var z: ZScore;
      if baseline.stdDev == 0.0 {
        z := if value == baseline.mean then Finite(0.0) else Infinite;
      } else {
        z := Finite(ZRatio(value, baseline.mean, baseline.stdDev));
      }
      var isAnomaly := Reaches(z, zThreshold);
      return AnomalyScore(value, z, isAnomaly, baseline.mean, baseline.stdDev);
    }
  }

  // ----- the z test, squared -----

  lemma RootSquared(sqrt: real -> real, x: real)
    requires IsSqrt(sqrt) && x >= 0.0
    ensures sqrt(x) >= 0.0 && Sq(sqrt(x)) == x
    ensures sqrt(x) == 0.0 <==> x == 0.0
  {
    SqZero(sqrt(x));
  }

  lemma SquaresOrdered(x: real, y: real)
    requires x >= 0.0 && y >= 0.0
    ensures x >= y <==> Sq(x) >= Sq(y)
  {
    assert Sq(x) == Mul(x, x) && Sq(y) == Mul(y, y) && Mul(x, y) == Mul(y, x);
    if x >= y {
      MulMonotone(x, y, x);
      MulMonotone(y, y, x);
    } else {
      MulStrict(y, y, x);
      MulMonotone(x, x, y);
    }
  }

  /** |d| / std >= k says that d^2 >= k^2 * variance. */
  lemma ZTestSquared(sqrt: real -> real, d: real, variance: real, k: real)
    requires IsSqrt(sqrt) && variance > 0.0 && k >= 0.0
    ensures sqrt(variance) > 0.0
    ensures Abs(d) / sqrt(variance) >= k <==> Sq(d) >= Mul(Sq(k), variance)
  {
    var std := sqrt(variance);
    RootSquared(sqrt, variance);
    var z := Abs(d) / std;
    DivMul(Abs(d), std);
    MulStrict(std, k, z);
    SquaresOrdered(Abs(d), Mul(k, std));
    SqOfMul(k, std);
  }

  // ----- Chebyshev -----

  /** How many deviations have a square of at least c. */
  function CountFrom(ds: seq<real>, c: real): nat
    decreases |ds|
  {
    if ds == [] then 0 else CountFrom(ds[..|ds| - 1], c) + if Sq(ds[|ds| - 1]) >= c then 1 else 0
  }

  lemma {:induction false} CountBound(ds: seq<real>, c: real)
    requires c >= 0.0
    ensures Mul(CountFrom(ds, c) as real, c) <= SumSq(ds)
    decreases |ds|
  {
    if ds != [] {
      var n := CountFrom(ds[..|ds| - 1], c) as real;
      CountBound(ds[..|ds| - 1], c);
      SqNonNegative(ds[|ds| - 1]);
      assert Mul(n + 1.0, c) == Mul(n, c) + c;
    }
  }

  lemma SumSqIsCountTimesVariance(xs: seq<real>)
    requires xs != []
    ensures SumSq(Deviations(xs, Mean(xs))) == Mul(|xs| as real, Variance(xs)) && Variance(xs) >= 0.0
  {
    var q, n := SumSq(Deviations(xs, Mean(xs))), |xs| as real;
    DivMul(q, n);
    SumSqNonNegative(Deviations(xs, Mean(xs)));
    assert Mul(n, Variance(xs)) == Mul(Variance(xs), n) && Mul(n, 0.0) == 0.0;
    MulStrict(n, 0.0, Variance(xs));
  }

  /** Chebyshev: count * k^2 <= n for the points at least k standard deviations out. */
  lemma ChebyshevBound(xs: seq<real>, k: real)
    requires xs != [] && Variance(xs) > 0.0
    ensures Mul(CountFrom(Deviations(xs, Mean(xs)), Mul(Sq(k), Variance(xs))) as real, Sq(k)) <= |xs| as real
  {
    var v, ds := Variance(xs), Deviations(xs, Mean(xs));
    SqNonNegative(k);
    ProductNonNegative(Sq(k), v);
    CountBound(ds, Mul(Sq(k), v));
    SumSqIsCountTimesVariance(xs);
    CancelVariance(CountFrom(ds, Mul(Sq(k), v)) as real, Sq(k), v, |xs| as real);
  }

  lemma ProductNonNegative(x: real, y: real)
    requires x >= 0.0 && y >= 0.0
    ensures Mul(x, y) >= 0.0
  {
  }

  lemma CancelVariance(count: real, k2: real, v: real, n: real)
    requires v > 0.0 && Mul(count, Mul(k2, v)) <= Mul(n, v)
    ensures Mul(count, k2) <= n
  {
    assert Mul(count, Mul(k2, v)) == Mul(v, Mul(count, k2)) && Mul(n, v) == Mul(v, n);
    MulStrict(v, Mul(count, k2), n);
  }

  // ----- Samuelson -----

  lemma {:induction false} SumConcat(a: seq<real>, b: seq<real>)
    ensures Sum(a + b) == Sum(a) + Sum(b) && SumSq(a + b) == SumSq(a) + SumSq(b)
    decreases |b|
  {
    if b == [] {
      assert a + b == a;
    } else {
      assert (a + b)[..|a + b| - 1] == a + b[..|b| - 1];
      SumConcat(a, b[..|b| - 1]);
    }
  }

  lemma SumWithout(ds: seq<real>, i: nat)
    requires i < |ds|
    ensures var rest := ds[..i] + ds[i + 1..];
      Sum(ds) == Sum(rest) + ds[i] && SumSq(ds) == SumSq(rest) + Sq(ds[i])
  {
    assert ds == ds[..i] + ([ds[i]] + ds[i + 1..]);
    SumConcat(ds[..i], [ds[i]] + ds[i + 1..]);
    SumConcat([ds[i]], ds[i + 1..]);
    SumConcat(ds[..i], ds[i + 1..]);
    assert [ds[i]][..0] == [];
  }

  lemma {:induction false} DeviationAt(xs: seq<real>, center: real, i: nat)
    requires i < |xs|
    ensures Deviations(xs, center)[i] == xs[i] - center
    decreases |xs|
  {
    if i < |xs| - 1 {
      DeviationAt(xs[..|xs| - 1], center, i);
    }
  }

  /** Samuelson: no sample is further out than the square root of n - 1 standard deviations. */
  lemma SamuelsonBound(xs: seq<real>, i: nat)
    requires i < |xs|
    ensures Sq(xs[i] - Mean(xs)) <= Mul((|xs| - 1) as real, Variance(xs))
  {
    var ds, d, n := Deviations(xs, Mean(xs)), xs[i] - Mean(xs), |xs| as real;
    var rest := ds[..i] + ds[i + 1..];
    DeviationsCancel(xs);
    DeviationAt(xs, Mean(xs), i);
    SumWithout(ds, i);
    CauchySchwarz(rest);
    SumSqIsCountTimesVariance(xs);
    assert |rest| == |xs| - 1 && Sum(rest) == -d;
    SamuelsonAlgebra(d, n, Variance(xs), SumSq(rest));
  }

  lemma SamuelsonAlgebra(d: real, n: real, v: real, q: real)
    requires n >= 1.0 && Sq(-d) <= Mul(n - 1.0, q) && Mul(n, v) == q + Sq(d)
    ensures Sq(d) <= Mul(n - 1.0, v)
  {
    assert Sq(-d) == Sq(d);
    assert Mul(n, Sq(d)) == Mul(n - 1.0, Sq(d)) + Sq(d);
    assert Mul(n - 1.0, q) == Mul(n - 1.0, Mul(n, v)) - Mul(n - 1.0, Sq(d));
    assert Mul(n - 1.0, Mul(n, v)) == Mul(n, Mul(n - 1.0, v));
    MulStrict(n, Sq(d), Mul(n - 1.0, v));
  }

  // ----- what the detectors promise -----

  /** The value is flagged at threshold k. */
  ghost predicate Outlier(sqrt: real -> real, xs: seq<real>, i: nat, k: real)
    requires i < |xs|
  {
    var std := sqrt(Variance(xs));
    std != 0.0 && ZRatio(xs[i], Mean(xs), std) >= k
  }

  lemma OutlierSquared(sqrt: real -> real, xs: seq<real>, i: nat, k: real)
    requires IsSqrt(sqrt) && i < |xs| && k >= 0.0
    ensures Outlier(sqrt, xs, i, k)
       <==> Variance(xs) > 0.0 && Sq(xs[i] - Mean(xs)) >= Mul(Sq(k), Variance(xs))
  {
    SumSqIsCountTimesVariance(xs);
    RootSquared(sqrt, Variance(xs));
    if Variance(xs) > 0.0 {
      ZTestSquared(sqrt, xs[i] - Mean(xs), Variance(xs), k);
    }
  }

  /** No series of fewer than ten values has an outlier at threshold k. */
  ghost predicate ShortSeriesHaveNone(sqrt: real -> real, k: real) {
    forall xs: seq<real>, i: nat | i < |xs| < 10 :: !Outlier(sqrt, xs, i, k)
  }

  /** At a threshold that is not positive every value of a series that varies is an outlier. */
  lemma LowThreshold(sqrt: real -> real, xs: seq<real>, i: nat, k: real)
    requires IsSqrt(sqrt) && i < |xs| && k <= 0.0 && Variance(xs) > 0.0
    ensures Outlier(sqrt, xs, i, k)
  {
    OutlierSquared(sqrt, xs, i, 0.0);
  }

  lemma HighThreshold(sqrt: real -> real, xs: seq<real>, i: nat, k: real)
    requires IsSqrt(sqrt) && i < |xs| < 10 && k > 0.0 && Sq(k) > 8.0
    ensures !Outlier(sqrt, xs, i, k)
  {
    OutlierSquared(sqrt, xs, i, k);
    SamuelsonBound(xs, i);
    SumSqIsCountTimesVariance(xs);
    ShortAlgebra(Sq(k), Variance(xs), (|xs| - 1) as real);
  }

  /** Returning nothing below ten rows loses nothing exactly for positive thresholds of a square above 8, such as 3. */
  lemma ShortSeriesHaveNoneIff(sqrt: real -> real, k: real)
    requires IsSqrt(sqrt)
    ensures ShortSeriesHaveNone(sqrt, k) <==> k > 0.0 && Sq(k) > 8.0
  {
    if k <= 0.0 {
      NineValues();
      LowThreshold(sqrt, NINE, 8, k);
    } else if Sq(k) > 8.0 {
      forall xs: seq<real>, i: nat | i < |xs| < 10 ensures !Outlier(sqrt, xs, i, k) {
        HighThreshold(sqrt, xs, i, k);
      }
    } else {
      NineValues();
      OutlierSquared(sqrt, NINE, 8, k);
      assert Outlier(sqrt, NINE, 8, k);
    }
  }

  lemma ShortAlgebra(k2: real, v: real, m: real)
    requires k2 > 8.0 && 0.0 <= m <= 8.0
    ensures v > 0.0 ==> Mul(m, v) < Mul(k2, v)
  {
    if v > 0.0 {
      MulStrict(v, k2, m);
      assert Mul(v, k2) == Mul(k2, v) && Mul(v, m) == Mul(m, v);
    }
  }

  const NINE: seq<real> := Constant(8, 0.0) + [9.0]

  /** Eight zeros and a nine: mean 1, variance 8, and the nine lies exactly the square root of 8 deviations out. */
  lemma NineValues()
    ensures Mean(NINE) == 1.0 && Variance(NINE) == 8.0
    ensures Sq(NINE[8] - Mean(NINE)) == 64.0
  {
    SumsOfConstant(8, 0.0);
    SumsOfConstant(8, -1.0);
    DeviationsOfConstant(8, 0.0, 1.0);
    assert NINE[..8] == Constant(8, 0.0);
    assert Mul(8.0, 0.0) == 0.0 && Sq(-1.0) == 1.0 && Mul(8.0, 1.0) == 8.0 && Sq(8.0) == 64.0;
    assert Mean(NINE) == 1.0;
    var ds := Constant(8, -1.0) + [8.0];
    assert Deviations(NINE, 1.0) == ds && ds[..8] == Constant(8, -1.0);
    assert SumSq(ds) == 72.0;
  }

  function Constant(n: nat, x: real): (xs: seq<real>)
    ensures |xs| == n
  {
    if n == 0 then [] else Constant(n - 1, x) + [x]
  }

  lemma {:induction false} SumsOfConstant(n: nat, x: real)
    ensures Sum(Constant(n, x)) == Mul(n as real, x) && SumSq(Constant(n, x)) == Mul(n as real, Sq(x))
  {
    if n > 0 {
      SumsOfConstant(n - 1, x);
      assert Constant(n, x)[..n - 1] == Constant(n - 1, x);
      OneMore((n - 1) as real, x);
      OneMore((n - 1) as real, Sq(x));
    } else {
      assert Mul(0.0, x) == 0.0 && Mul(0.0, Sq(x)) == 0.0;
    }
  }

  lemma OneMore(n: real, x: real)
    ensures Mul(n + 1.0, x) == Mul(n, x) + x
  {
  }

  lemma {:induction false} DeviationsOfConstant(n: nat, x: real, center: real)
    ensures Deviations(Constant(n, x), center) == Constant(n, x - center)
  {
    if n > 0 {
      DeviationsOfConstant(n - 1, x, center);
      assert Constant(n, x)[..n - 1] == Constant(n - 1, x);
    }
  }

  // ----- how many can be flagged -----

  /** The point a row is reported as. */
  function PointOf(row: Row, mean: real, std: real): AnomalyPoint
    requires std != 0.0
  {
    AnomalyPoint(row.timestamp, row.value, mean, ZRatio(row.value, mean, std))
  }

  /** Some row with this report reaches the threshold. */
  predicate Reported(rows: seq<Row>, mean: real, std: real, k: real, p: AnomalyPoint)
    requires std != 0.0
  {
    exists i :: 0 <= i < |rows| && p == PointOf(rows[i], mean, std) && p.deviation >= k
  }

  /** Exactly the rows whose z-score reaches the threshold are reported. */
  lemma {:induction false} FlaggedIff(rows: seq<Row>, mean: real, std: real, k: real, p: AnomalyPoint)
    requires std != 0.0
    ensures p in Flagged(rows, mean, std, k) <==> Reported(rows, mean, std, k, p)
    decreases |rows|
  {
    if rows != [] {
      var n := |rows| - 1;
      FlaggedIff(rows[..n], mean, std, k, p);
      assert Reported(rows, mean, std, k, p)
        <==> Reported(rows[..n], mean, std, k, p) || (p == PointOf(rows[n], mean, std) && p.deviation >= k) by {
        if Reported(rows[..n], mean, std, k, p) {
          var i :| 0 <= i < n && p == PointOf(rows[..n][i], mean, std) && p.deviation >= k;
          assert rows[i] == rows[..n][i];
        }
        if Reported(rows, mean, std, k, p) {
          var i :| 0 <= i < |rows| && p == PointOf(rows[i], mean, std) && p.deviation >= k;
          assert i < n ==> rows[..n][i] == rows[i];
        }
      }
    }
  }

  lemma {:induction false} FlaggedCount(rows: seq<Row>, mean: real, variance: real, k: real, sqrt: real -> real)
    requires IsSqrt(sqrt) && variance > 0.0 && k >= 0.0
    ensures sqrt(variance) > 0.0
    ensures |Flagged(rows, mean, sqrt(variance), k)| == CountFrom(Deviations(Values(rows), mean), Mul(Sq(k), variance))
    decreases |rows|
  {
    ZTestSquared(sqrt, 0.0, variance, k);
    if rows != [] {
      var n := |rows| - 1;
      FlaggedCount(rows[..n], mean, variance, k, sqrt);
      assert Values(rows)[..n] == Values(rows[..n]);
      var ds := Deviations(Values(rows), mean);
      assert ds[..n] == Deviations(Values(rows[..n]), mean) && ds[n] == rows[n].value - mean;
      ZTestSquared(sqrt, rows[n].value - mean, variance, k);
    }
  }

  /** However the values lie, count * k^2 <= n rows are reported at threshold k. */
  lemma ReportIsBounded(rows: seq<Row>, k: real, sqrt: real -> real)
    requires IsSqrt(sqrt) && k >= 0.0
    ensures Mul(|AnomalyPoints(rows, k, sqrt)| as real, Sq(k)) <= |rows| as real
  {
    assert Mul(0.0, Sq(k)) == 0.0;
    if |rows| >= 10 {
      var xs := Values(rows);
      SumSqIsCountTimesVariance(xs);
      RootSquared(sqrt, Variance(xs));
      if Variance(xs) > 0.0 {
        FlaggedCount(rows, Mean(xs), Variance(xs), k, sqrt);
        ChebyshevBound(xs, k);
      }
    }
  }

  /** z is how many standard deviations lie between the value and the mean. */
  predicate IsZScore(z: real, value: real, mean: real, variance: real) {
    z >= 0.0 && Mul(Sq(z), variance) == Sq(value - mean)
  }

  lemma RatioIsZScore(sqrt: real -> real, value: real, mean: real, variance: real)
    requires IsSqrt(sqrt) && variance > 0.0
    ensures sqrt(variance) > 0.0 && IsZScore(ZRatio(value, mean, sqrt(variance)), value, mean, variance)
  {
    var std, d := sqrt(variance), Abs(value - mean);
    RootSquared(sqrt, variance);
    var z := d / std;
    DivMul(d, std);
    MulStrict(std, 0.0, z);
    assert Mul(std, z) == Mul(z, std) && Mul(std, 0.0) == 0.0;
    SqOfMul(z, std);
    assert Sq(d) == Sq(value - mean);
  }

  lemma OneZScore(z: real, z': real, value: real, mean: real, variance: real)
    requires variance > 0.0 && IsZScore(z, value, mean, variance) && IsZScore(z', value, mean, variance)
    ensures z == z'
  {
    assert Mul(variance, Sq(z)) == Mul(Sq(z), variance) && Mul(variance, Sq(z')) == Mul(Sq(z'), variance);
    MulStrict(variance, Sq(z), Sq(z'));
    MulStrict(variance, Sq(z'), Sq(z));
    SquaresOrdered(z, z');
    SquaresOrdered(z', z);
  }

  /** p reports one of the rows, with the mean and how far out the row is, which is k or more. */
  ghost predicate Reports(p: AnomalyPoint, rows: seq<Row>, k: real)
    requires rows != []
  {
    var xs := Values(rows);
    && (exists row :: row in rows && p.timestamp == row.timestamp && p.value == row.value)
    && p.expected == Mean(xs) && IsZScore(p.deviation, p.value, Mean(xs), Variance(xs)) && p.deviation >= k
  }

  /** Exactly the rows that lie far enough out are reported, in a series of ten or more that varies. */
  lemma ReportedIff(rows: seq<Row>, k: real, sqrt: real -> real, p: AnomalyPoint)
    requires IsSqrt(sqrt)
    ensures p in AnomalyPoints(rows, k, sqrt)
       <==> |rows| >= 10 && Variance(Values(rows)) > 0.0 && Reports(p, rows, k)
  {
    if |rows| >= 10 {
      var xs := Values(rows);
      var mean, variance := Mean(xs), Variance(xs);
      SumSqIsCountTimesVariance(xs);
      RootSquared(sqrt, variance);
      if variance > 0.0 {
        FlaggedIff(rows, mean, sqrt(variance), k, p);
        ReportedIsReports(rows, mean, variance, k, sqrt, p);
      }
    }
  }

  lemma ReportedIsReports(rows: seq<Row>, mean: real, variance: real, k: real, sqrt: real -> real, p: AnomalyPoint)
    requires IsSqrt(sqrt) && variance > 0.0
    ensures sqrt(variance) > 0.0
    ensures Reported(rows, mean, sqrt(variance), k, p)
       <==> (exists row :: row in rows && p.timestamp == row.timestamp && p.value == row.value)
            && p.expected == mean && IsZScore(p.deviation, p.value, mean, variance) && p.deviation >= k
  {
    RatioIsZScore(sqrt, p.value, mean, variance);
    if Reported(rows, mean, sqrt(variance), k, p) {
      var i :| 0 <= i < |rows| && p == PointOf(rows[i], mean, sqrt(variance)) && p.deviation >= k;
      assert rows[i] in rows;
    }
    if row :| row in rows && p.timestamp == row.timestamp && p.value == row.value {
      if p.expected == mean && IsZScore(p.deviation, p.value, mean, variance) && p.deviation >= k {
        OneZScore(p.deviation, ZRatio(p.value, mean, sqrt(variance)), p.value, mean, variance);
        var i :| 0 <= i < |rows| && rows[i] == row;
        assert p == PointOf(rows[i], mean, sqrt(variance));
      }
    }
  }

  /**
   * A value is an anomaly against a baseline learned from xs exactly if there were samples enough and it lies k or more
   * standard deviations from their mean; without variance, if it is not the mean.
   */
  lemma AnomalyIff(xs: seq<real>, value: real, k: real, minSamples: int, sqrt: real -> real)
    requires IsSqrt(sqrt) && xs != []
    ensures Scored(Some(Baseline(xs, sqrt)), value, k, minSamples).isAnomaly
       <==> |xs| >= minSamples && (k <= 0.0 || if Variance(xs) > 0.0 then
              Sq(value - Mean(xs)) >= Mul(Sq(k), Variance(xs)) else value != Mean(xs))
  {
    SumSqIsCountTimesVariance(xs);
    RootSquared(sqrt, Variance(xs));
    if Variance(xs) > 0.0 {
      RatioIsZScore(sqrt, value, Mean(xs), Variance(xs));
      if k > 0.0 {
        ZTestSquared(sqrt, value - Mean(xs), Variance(xs), k);
      }
    }
  }

  /** How many of these values a baseline calls anomalies. */
  function CountAnomalies(b: BaselineStats, xs: seq<real>, k: real, minSamples: int): nat
    decreases |xs|
  {
    if xs == [] then 0
    else CountAnomalies(b, xs[..|xs| - 1], k, minSamples)
         + if Scored(Some(b), xs[|xs| - 1], k, minSamples).isAnomaly then 1 else 0
  }

  lemma {:induction false} AnomaliesCounted(b: BaselineStats, xs: seq<real>, variance: real, k: real,
                                            minSamples: int, sqrt: real -> real)
    requires IsSqrt(sqrt) && variance > 0.0 && k >= 0.0 && b.stdDev == sqrt(variance)
    ensures CountAnomalies(b, xs, k, minSamples) <= CountFrom(Deviations(xs, b.mean), Mul(Sq(k), variance))
    decreases |xs|
  {
    if xs != [] {
      var n := |xs| - 1;
      AnomaliesCounted(b, xs[..n], variance, k, minSamples, sqrt);
      var ds := Deviations(xs, b.mean);
      assert ds[..n] == Deviations(xs[..n], b.mean) && ds[n] == xs[n] - b.mean;
      ZTestSquared(sqrt, xs[n] - b.mean, variance, k);
    }
  }

  lemma {:induction false} SumSqCoversEach(ds: seq<real>, i: nat)
    requires i < |ds|
    ensures Sq(ds[i]) <= SumSq(ds)
    decreases |ds|
  {
    SumSqNonNegative(ds[..|ds| - 1]);
    SqNonNegative(ds[|ds| - 1]);
    if i < |ds| - 1 {
      SumSqCoversEach(ds[..|ds| - 1], i);
    }
  }

  lemma {:induction false} NoAnomalies(b: BaselineStats, xs: seq<real>, k: real, minSamples: int)
    requires b.stdDev == 0.0 && k > 0.0 && forall i | 0 <= i < |xs| :: xs[i] == b.mean
    ensures CountAnomalies(b, xs, k, minSamples) == 0
    decreases |xs|
  {
    if xs != [] {
      NoAnomalies(b, xs[..|xs| - 1], k, minSamples);
    }
  }

  /** Without variance every value is the mean. */
  lemma NoVarianceNoDeviation(xs: seq<real>, i: nat)
    requires i < |xs| && Variance(xs) == 0.0
    ensures xs[i] == Mean(xs)
  {
    SumSqIsCountTimesVariance(xs);
    assert Mul(|xs| as real, 0.0) == 0.0;
    SumSqCoversEach(Deviations(xs, Mean(xs)), i);
    DeviationAt(xs, Mean(xs), i);
    SqNonNegative(xs[i] - Mean(xs));
    SqZero(xs[i] - Mean(xs));
  }

  /** A baseline scored against the values it was trained on obeys the same bound. */
  lemma TrainedScoresAreBounded(xs: seq<real>, k: real, minSamples: int, sqrt: real -> real)
    requires IsSqrt(sqrt) && xs != [] && k > 0.0
    ensures Mul(CountAnomalies(Baseline(xs, sqrt), xs, k, minSamples) as real, Sq(k)) <= |xs| as real
  {
    var b, v := Baseline(xs, sqrt), Variance(xs);
    SumSqIsCountTimesVariance(xs);
    RootSquared(sqrt, v);
    if v > 0.0 {
      AnomaliesCounted(b, xs, v, k, minSamples, sqrt);
      ChebyshevBound(xs, k);
      CountMonotone(CountAnomalies(b, xs, k, minSamples), CountFrom(Deviations(xs, Mean(xs)), Mul(Sq(k), v)), k);
    } else {
      forall i | 0 <= i < |xs| ensures xs[i] == b.mean {
        NoVarianceNoDeviation(xs, i);
      }
      NoAnomalies(b, xs, k, minSamples);
      assert Mul(0.0, Sq(k)) == 0.0;
    }
  }

  lemma CountMonotone(m: nat, n: nat, k: real)
    requires m <= n
    ensures Mul(m as real, Sq(k)) <= Mul(n as real, Sq(k))
  {
    SqNonNegative(k);
    MulMonotone(Sq(k), m as real, n as real);
    assert Mul(Sq(k), m as real) == Mul(m as real, Sq(k)) && Mul(Sq(k), n as real) == Mul(n as real, Sq(k));
  }

  /**
   * Two metrics share a baseline slot exactly when they are the same text around some colon; ids without colons never
   * do.
   */
  lemma KeysCollideIff(d1: string, m1: string, d2: string, m2: string)
    requires |d1| <= |d2|
    ensures KeyOf(d1, m1) == KeyOf(d2, m2)
       <==> || (d1 == d2 && m1 == m2)
            || (|d1| < |d2| && d2[..|d1|] == d1 && d2[|d1|] == ':' && m1 == d2[|d1| + 1..] + ":" + m2)
  {
    var k1, k2 := KeyOf(d1, m1), KeyOf(d2, m2);
    assert k1[..|d1|] == d1 && k1[|d1|] == ':' && k1[|d1| + 1..] == m1;
    if |d1| < |d2| {
      assert k2[..|d1|] == d2[..|d1|] && k2[|d1|] == d2[|d1|] && k2[|d1| + 1..] == d2[|d1| + 1..] + ":" + m2;
      assert k2 == k2[..|d1|] + [k2[|d1|]] + k2[|d1| + 1..] && k1 == k1[..|d1|] + [k1[|d1|]] + k1[|d1| + 1..];
    } else {
      assert k2[..|d1|] == d2 && k2[|d1| + 1..] == m2;
    }
  }
}
