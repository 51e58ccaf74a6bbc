/** Trend detection: the fitted line is the least-squares line. */
module Trend {
  import opened RealSums
  import opened Text

  datatype Direction = Stable | Increasing | Decreasing

  datatype TrendResult = TrendResult(direction: Direction, slope: real, rSquared: real, sampleCount: nat)

  /** list(range(n)) */
  function Indices(n: nat): (xs: seq<real>)
    ensures |xs| == n
  {
    if n == 0 then [] else Indices(n - 1) + [(n - 1) as real]
  }

  /** The sum of (x - xMean) * (y - yMean) over the points (0, ys[0]), (1, ys[1]), ... */
  function CrossSum(ys: seq<real>, xMean: real, yMean: real): real
    decreases |ys|
  {
    if ys == [] then 0.0
    else
      var n := |ys| - 1;
      CrossSum(ys[..n], xMean, yMean) + Mul(n as real - xMean, ys[n] - yMean)
  }

  /** How far each point is above the line with this slope and intercept. */
  function Residuals(ys: seq<real>, slope: real, intercept: real): (rs: seq<real>)
    ensures |rs| == |ys|
    decreases |ys|
  {
    if ys == [] then []
    else
      var n := |ys| - 1;
      Residuals(ys[..n], slope, intercept) + [ys[n] - (Mul(slope, n as real) + intercept)]
  }

  function SquaredError(ys: seq<real>, slope: real, intercept: real): real {
    SumSq(Residuals(ys, slope, intercept))
  }

  function XMean(n: nat): real
    requires n > 0
  {
    Mean(Indices(n))
  }

  function SsXx(n: nat): real
    requires n > 0
  {
    SumSq(Deviations(Indices(n), XMean(n)))
  }

  function SsXy(ys: seq<real>): real
    requires ys != []
  {
    CrossSum(ys, XMean(|ys|), Mean(ys))
  }

  function Slope(ys: seq<real>): real
    requires ys != [] && SsXx(|ys|) != 0.0
  {
    SsXy(ys) / SsXx(|ys|)
  }

  function Intercept(ys: seq<real>): real
    requires ys != [] && SsXx(|ys|) != 0.0
  {
    Mean(ys) - Mul(Slope(ys), XMean(|ys|))
  }

  function RSquared(ys: seq<real>): real
    requires ys != [] && SsXx(|ys|) != 0.0
  {
    var ssRes := SquaredError(ys, Slope(ys), Intercept(ys));
    var ssTot := SumSq(Deviations(ys, Mean(ys)));
    if ssTot > 0.0 then 1.0 - ssRes / ssTot else 0.0
  }

  function DetectTrend(values: seq<real>): Option<TrendResult> {
    var n := |values|;
    if n < 3 then None
    else if SsXx(n) == 0.0 then Some(TrendResult(Stable, 0.0, 0.0, n))
    else
      var slope := Slope(values);
      var direction :=
        if (if slope < 0.0 then -slope else slope) < 0.01 then Stable
        else if slope > 0.0 then Increasing
        else Decreasing;
      Some(TrendResult(direction, slope, RSquared(values), n))
  }

  // ----- expansions -----

  /** The line with slope p and height q at 0, at the points 0 .. n - 1. */
  function LineAt(n: nat, p: real, q: real): (ds: seq<real>)
    ensures |ds| == n
  {
    if n == 0 then [] else LineAt(n - 1, p, q) + [Mul(p, (n - 1) as real) + q]
  }

  lemma {:induction false} SumOfResiduals(ys: seq<real>, s: real, t: real)
    ensures Sum(Residuals(ys, s, t)) == Sum(ys) - Mul(s, Sum(Indices(|ys|))) - Mul(t, |ys| as real)
    decreases |ys|
  {
    if ys != [] {
      var n := |ys| - 1;
      SumOfResiduals(ys[..n], s, t);
      assert Residuals(ys, s, t)[..n] == Residuals(ys[..n], s, t);
      assert Indices(|ys|)[..n] == Indices(n);
      LinearStep(s, t, Sum(Indices(n)), n as real);
    }
  }

  lemma LinearStep(s: real, t: real, sx: real, n: real)
    ensures Mul(s, sx + n) + Mul(t, n + 1.0) == Mul(s, sx) + Mul(t, n) + (Mul(s, n) + t)
  {
  }

  lemma {:induction false} MomentOfResiduals(ys: seq<real>, s: real, t: real)
    ensures Moment(Residuals(ys, s, t)) == Moment(ys) - Mul(s, SumSq(Indices(|ys|))) - Mul(t, Sum(Indices(|ys|)))
    decreases |ys|
  {
    if ys != [] {
      var n := |ys| - 1;
      MomentOfResiduals(ys[..n], s, t);
      assert Residuals(ys, s, t)[..n] == Residuals(ys[..n], s, t);
      assert Indices(|ys|)[..n] == Indices(n);
      MomentStep(ys[n], s, t, n as real);
      Distribute(s, SumSq(Indices(n)), Sq(n as real));
      Distribute(t, Sum(Indices(n)), n as real);
    }
  }

  lemma MomentStep(y: real, s: real, t: real, x: real)
    ensures Mul(y - (Mul(s, x) + t), x) == Mul(y, x) - Mul(s, Sq(x)) - Mul(t, x)
  {
  }

  lemma {:induction false} CrossSumExpanded(ys: seq<real>, xm: real, ym: real)
    ensures CrossSum(ys, xm, ym)
         == Moment(ys) - Mul(ym, Sum(Indices(|ys|))) - Mul(xm, Sum(ys)) + Mul(Mul(xm, ym), |ys| as real)
    decreases |ys|
  {
    if ys != [] {
      var n := |ys| - 1;
      CrossSumExpanded(ys[..n], xm, ym);
      assert Indices(|ys|)[..n] == Indices(n);
      CrossStep(ys[n], n as real, xm, ym, Sum(Indices(n)), Sum(ys[..n]));
    }
  }

  lemma CrossStep(y: real, x: real, xm: real, ym: real, sx: real, sy: real)
    ensures Mul(x - xm, y - ym) == Mul(y, x) - Mul(ym, x) - Mul(xm, y) + Mul(xm, ym)
    ensures Mul(ym, sx + x) == Mul(ym, sx) + Mul(ym, x)
    ensures Mul(xm, sy + y) == Mul(xm, sy) + Mul(xm, y)
    ensures Mul(Mul(xm, ym), x + 1.0) == Mul(Mul(xm, ym), x) + Mul(xm, ym)
  {
  }

  lemma {:induction false} SquaresExpanded(xs: seq<real>, xm: real)
    ensures SumSq(Deviations(xs, xm)) == SumSq(xs) - 2.0 * Mul(xm, Sum(xs)) + Mul(Sq(xm), |xs| as real)
    decreases |xs|
  {
    if xs != [] {
      var n := |xs| - 1;
      SquaresExpanded(xs[..n], xm);
      assert Deviations(xs, xm)[..n] == Deviations(xs[..n], xm);
      SquareStep(xs[n], xm, Sum(xs[..n]), n as real);
    }
  }

  lemma SquareStep(x: real, xm: real, sx: real, n: real)
    ensures Sq(x - xm) == Sq(x) - 2.0 * Mul(xm, x) + Sq(xm)
    ensures Mul(xm, sx + x) == Mul(xm, sx) + Mul(xm, x)
    ensures Mul(Sq(xm), n + 1.0) == Mul(Sq(xm), n) + Sq(xm)
  {
  }

  // ----- the normal equations -----

  lemma MeanTimesCount(xs: seq<real>)
    requires xs != []
    ensures Mul(Mean(xs), |xs| as real) == Sum(xs)
  {
    DivMul(Sum(xs), |xs| as real);
  }

  /** The centred sums, from the plain ones. */
  lemma CentredSums(ys: seq<real>)
    requires ys != []
    ensures var (n, xs, xm, ym) := (|ys| as real, Indices(|ys|), XMean(|ys|), Mean(ys));
      && SsXy(ys) == Moment(ys) - Mul(ym, Sum(xs)) - Mul(xm, Sum(ys)) + Mul(Mul(xm, ym), n)
      && SsXx(|ys|) == SumSq(xs) - 2.0 * Mul(xm, Sum(xs)) + Mul(Sq(xm), n)
      && Sum(xs) == Mul(xm, n) && Sum(ys) == Mul(ym, n)
  {
    var xs := Indices(|ys|);
    MeanTimesCount(xs);
    MeanTimesCount(ys);
    CrossSumExpanded(ys, XMean(|ys|), Mean(ys));
    SquaresExpanded(xs, XMean(|ys|));
  }

  /** What is known of a fitted line: its slope s and height t, and the sums over the n points. */
  predicate Fitted(s: real, t: real, xm: real, ym: real, n: real, sx: real, sxx: real, sy: real, sxy: real,
                   ssxy: real, ssxx: real)
  {
    && sx == Mul(xm, n) && sy == Mul(ym, n) && t == ym - Mul(s, xm)
    && ssxy == sxy - Mul(ym, sx) - Mul(xm, sy) + Mul(Mul(xm, ym), n)
    && ssxx == sxx - 2.0 * Mul(xm, sx) + Mul(Sq(xm), n)
    && Mul(s, ssxx) == ssxy
  }

  lemma FitIsFitted(ys: seq<real>)
    requires ys != [] && SsXx(|ys|) != 0.0
    ensures var xs := Indices(|ys|);
      Fitted(Slope(ys), Intercept(ys), XMean(|ys|), Mean(ys), |ys| as real, Sum(xs), SumSq(xs), Sum(ys), Moment(ys),
             SsXy(ys), SsXx(|ys|))
  {
    CentredSums(ys);
    DivMul(SsXy(ys), SsXx(|ys|));
  }

  lemma NormalAlgebra(s: real, t: real, xm: real, ym: real, n: real, sx: real, sxx: real, sy: real, sxy: real,
                      ssxy: real, ssxx: real)
    requires Fitted(s, t, xm, ym, n, sx, sxx, sy, sxy, ssxy, ssxx)
    ensures sy - Mul(s, sx) - Mul(t, n) == 0.0
    ensures sxy - Mul(s, sxx) - Mul(t, sx) == 0.0
  {
    assert Mul(t, n) == Mul(ym, n) - Mul(s, Mul(xm, n));
    assert ssxy == sxy - Mul(Mul(xm, ym), n);
    assert ssxx == sxx - Mul(Sq(xm), n);
    assert Mul(s, ssxx) == Mul(s, sxx) - Mul(s, Mul(Sq(xm), n));
    assert Mul(t, sx) == Mul(Mul(xm, ym), n) - Mul(s, Mul(Sq(xm), n));
  }

  lemma NormalSums(ys: seq<real>)
    requires ys != [] && SsXx(|ys|) != 0.0
    ensures var (s, t, xs) := (Slope(ys), Intercept(ys), Indices(|ys|));
      && Sum(ys) - Mul(s, Sum(xs)) - Mul(t, |ys| as real) == 0.0
      && Moment(ys) - Mul(s, SumSq(xs)) - Mul(t, Sum(xs)) == 0.0
  {
    var xs := Indices(|ys|);
    FitIsFitted(ys);
    NormalAlgebra(Slope(ys), Intercept(ys), XMean(|ys|), Mean(ys), |ys| as real, Sum(xs), SumSq(xs), Sum(ys),
                  Moment(ys),
                  SsXy(ys), SsXx(|ys|));
  }

  /** The fitted line's residuals cancel, and so do their moments. */
  lemma NormalEquations(ys: seq<real>)
    requires ys != [] && SsXx(|ys|) != 0.0
    ensures var rs := Residuals(ys, Slope(ys), Intercept(ys)); Sum(rs) == 0.0 && Moment(rs) == 0.0
  {
    NormalSums(ys);
    ResidualsVanish(ys, Slope(ys), Intercept(ys));
  }

  lemma ResidualsVanish(ys: seq<real>, s: real, t: real)
    requires Sum(ys) - Mul(s, Sum(Indices(|ys|))) - Mul(t, |ys| as real) == 0.0
    requires Moment(ys) - Mul(s, SumSq(Indices(|ys|))) - Mul(t, Sum(Indices(|ys|))) == 0.0
    ensures Sum(Residuals(ys, s, t)) == 0.0 && Moment(Residuals(ys, s, t)) == 0.0
  {
    SumOfResiduals(ys, s, t);
    MomentOfResiduals(ys, s, t);
  }

  // ----- optimality -----

  /** rs with the line of slope p and height q added to it. */
  function Added(rs: seq<real>, p: real, q: real): (r: seq<real>)
    ensures |r| == |rs|
    decreases |rs|
  {
    if rs == [] then []
    else
      var n := |rs| - 1;
      Added(rs[..n], p, q) + [rs[n] + (Mul(p, n as real) + q)]
  }

  lemma {:induction false} SquaresOfAdded(rs: seq<real>, p: real, q: real)
    ensures SumSq(Added(rs, p, q))
         == SumSq(rs) + 2.0 * (Mul(p, Moment(rs)) + Mul(q, Sum(rs))) + SumSq(LineAt(|rs|, p, q))
    decreases |rs|
  {
    if rs != [] {
      var n := |rs| - 1;
      var d, x := Mul(p, n as real) + q, Mul(rs[n], n as real);
      calc {
        SumSq(Added(rs, p, q));
        { assert Added(rs, p, q)[..n] == Added(rs[..n], p, q); }
        SumSq(Added(rs[..n], p, q)) + Sq(rs[n] + d);
        { SquaresOfAdded(rs[..n], p, q); }
        SumSq(rs[..n]) + 2.0 * (Mul(p, Moment(rs[..n])) + Mul(q, Sum(rs[..n]))) + SumSq(LineAt(n, p, q))
            + Sq(rs[n] + d);
        { AddedStep(rs[n], p, q, n as real); }
        SumSq(rs[..n]) + 2.0 * (Mul(p, Moment(rs[..n])) + Mul(q, Sum(rs[..n]))) + SumSq(LineAt(n, p, q))
          + (Sq(rs[n]) + 2.0 * (Mul(p, x) + Mul(q, rs[n])) + Sq(d));
        { assert LineAt(|rs|, p, q)[..n] == LineAt(n, p, q); }
        SumSq(rs) + 2.0 * ((Mul(p, Moment(rs[..n])) + Mul(p, x)) + (Mul(q, Sum(rs[..n])) + Mul(q, rs[n])))
          + SumSq(LineAt(|rs|, p, q));
        { Distribute(p, Moment(rs[..n]), x); Distribute(q, Sum(rs[..n]), rs[n]); }
        SumSq(rs) + 2.0 * (Mul(p, Moment(rs)) + Mul(q, Sum(rs))) + SumSq(LineAt(|rs|, p, q));
      }
    }
  }

  lemma AddedStep(r: real, p: real, q: real, x: real)
    ensures var d := Mul(p, x) + q; Sq(r + d) == Sq(r) + 2.0 * (Mul(p, Mul(r, x)) + Mul(q, r)) + Sq(d)
  {
    var d := Mul(p, x) + q;
    SqOfSum(r, d);
    assert Mul(r, d) == Mul(p, Mul(r, x)) + Mul(q, r);
  }

  lemma {:induction false} ResidualsOfAnotherLine(ys: seq<real>, s: real, t: real, a: real, b: real)
    ensures Residuals(ys, a, b) == Added(Residuals(ys, s, t), s - a, t - b)
    decreases |ys|
  {
    if ys != [] {
      var n := |ys| - 1;
      ResidualsOfAnotherLine(ys[..n], s, t, a, b);
      assert Residuals(ys, s, t)[..n] == Residuals(ys[..n], s, t);
      assert Mul(s - a, n as real) == Mul(s, n as real) - Mul(a, n as real);
    }
  }

  lemma ErrorOfAnotherLine(ys: seq<real>, s: real, t: real, a: real, b: real)
    ensures var rs := Residuals(ys, s, t);
      SquaredError(ys, a, b)
      == SumSq(rs) + 2.0 * (Mul(s - a, Moment(rs)) + Mul(t - b, Sum(rs))) + SumSq(LineAt(|ys|, s - a, t - b))
  {
    ResidualsOfAnotherLine(ys, s, t, a, b);
    SquaresOfAdded(Residuals(ys, s, t), s - a, t - b);
  }

  lemma {:induction false} LineGrows(n: nat, m: nat, p: real, q: real)
    requires m <= n
    ensures SumSq(LineAt(m, p, q)) <= SumSq(LineAt(n, p, q))
    decreases n
  {
    if m < n {
      LineGrows(n - 1, m, p, q);
      assert LineAt(n, p, q)[..n - 1] == LineAt(n - 1, p, q);
      SqNonNegative(Mul(p, (n - 1) as real) + q);
    }
  }

  lemma FirstTwo(p: real, q: real)
    ensures SumSq(LineAt(2, p, q)) == Sq(q) + Sq(p + q)
  {
    assert Mul(p, 0.0) == 0.0 && Mul(p, 1.0) == p;
    assert LineAt(1, p, q) == [q];
    assert LineAt(2, p, q) == [q, p + q];
    calc {
      SumSq([q, p + q]);
    ==  { assert [q, p + q][..1] == [q]; }
      SumSq([q]) + Sq(p + q);
    ==  { assert [q][..0] == []; assert SumSq([q]) == SumSq([]) + Sq(q); }
      Sq(q) + Sq(p + q);
    }
  }

  lemma LineVanishes(n: nat, p: real, q: real)
    requires n >= 2
    ensures SumSq(LineAt(n, p, q)) >= 0.0
    ensures SumSq(LineAt(n, p, q)) == 0.0 ==> p == 0.0 && q == 0.0
  {
    LineGrows(n, 2, p, q);
    FirstTwo(p, q);
    SqNonNegative(q);
    SqNonNegative(p + q);
    SqZero(q);
    SqZero(p + q);
  }

  lemma FlatLine(n: nat)
    ensures SumSq(LineAt(n, 0.0, 0.0)) == 0.0
  {
    if n > 0 {
      FlatLine(n - 1);
      assert LineAt(n, 0.0, 0.0)[..n - 1] == LineAt(n - 1, 0.0, 0.0);
      assert Mul(0.0, (n - 1) as real) == 0.0;
    }
  }

  /** Two or more indices are never all equal, so the early return for a zero spread is dead code. */
  lemma SpreadIsPositive(n: nat)
    requires n >= 2
    ensures SsXx(n) > 0.0
  {
    var xm := XMean(n);
    DeviationsAreALine(n, xm);
    LineVanishes(n, 1.0, -xm);
  }

  lemma {:induction false} DeviationsAreALine(n: nat, xm: real)
    ensures Deviations(Indices(n), xm) == LineAt(n, 1.0, -xm)
  {
    if n > 0 {
      DeviationsAreALine(n - 1, xm);
      assert Indices(n)[..n - 1] == Indices(n - 1);
      assert Mul(1.0, (n - 1) as real) == (n - 1) as real;
    }
  }

  /** No line has a smaller squared error than the fitted one, and no other line one as small. */
  lemma FitIsLeastSquares(values: seq<real>, a: real, b: real)
    requires |values| >= 2
    ensures SsXx(|values|) > 0.0
    ensures SquaredError(values, Slope(values), Intercept(values)) <= SquaredError(values, a, b)
    ensures SquaredError(values, Slope(values), Intercept(values)) == SquaredError(values, a, b)
       <==> a == Slope(values) && b == Intercept(values)
  {
    SpreadIsPositive(|values|);
    var s, t := Slope(values), Intercept(values);
    NormalEquations(values);
    ErrorOfAnotherLine(values, s, t, a, b);
    LineVanishes(|values|, s - a, t - b);
    FlatLine(|values|);
    assert Mul(s - a, 0.0) == 0.0 && Mul(t - b, 0.0) == 0.0;
  }

  lemma {:induction false} FlatLineResiduals(ys: seq<real>, center: real)
    ensures Residuals(ys, 0.0, center) == Deviations(ys, center)
    decreases |ys|
  {
    if ys != [] {
      FlatLineResiduals(ys[..|ys| - 1], center);
      assert Mul(0.0, (|ys| - 1) as real) == 0.0;
    }
  }

  lemma Fraction(x: real, y: real)
    requires 0.0 <= x <= y && 0.0 < y
    ensures 0.0 <= x / y <= 1.0 && (x / y == 0.0 <==> x == 0.0)
  {
    DivMul(x, y);
    var q := x / y;
    assert Mul(q, y) == x;
    MulStrict(y, 0.0, q);
    MulStrict(y, q, 1.0);
    assert Mul(y, q) == Mul(q, y) && Mul(y, 0.0) == 0.0 && Mul(y, 1.0) == y;
  }

  /** The coefficient of determination is a fraction, and it is 1 exactly for points on a line. */
  lemma RSquaredIsAFraction(values: seq<real>)
    requires |values| >= 2
    ensures SsXx(|values|) > 0.0
    ensures 0.0 <= RSquared(values) <= 1.0
    ensures SumSq(Deviations(values, Mean(values))) > 0.0 ==>
      (RSquared(values) == 1.0 <==> SquaredError(values, Slope(values), Intercept(values)) == 0.0)
  {
    var ym := Mean(values);
    FitIsLeastSquares(values, 0.0, ym);
    FlatLineResiduals(values, ym);
    SumSqNonNegative(Residuals(values, Slope(values), Intercept(values)));
    SumSqNonNegative(Deviations(values, ym));
    if SumSq(Deviations(values, ym)) > 0.0 {
      Fraction(SquaredError(values, Slope(values), Intercept(values)), SumSq(Deviations(values, ym)));
    }
  }

  lemma {:induction false} ScaledLine(n: nat, s: real, xm: real)
    ensures SumSq(LineAt(n, s, -Mul(s, xm))) == Mul(Sq(s), SumSq(Deviations(Indices(n), xm)))
  {
    assert Mul(Sq(s), 0.0) == 0.0;
    if n > 0 {
      var x := (n - 1) as real;
      ScaledLine(n - 1, s, xm);
      assert Indices(n)[..n - 1] == Indices(n - 1);
      assert LineAt(n, s, -Mul(s, xm))[..n - 1] == LineAt(n - 1, s, -Mul(s, xm));
      assert Deviations(Indices(n), xm)[..n - 1] == Deviations(Indices(n - 1), xm);
      ScaledPoint(s, x, xm);
      Distribute(Sq(s), SumSq(Deviations(Indices(n - 1), xm)), Sq(x - xm));
    }
  }

  lemma ScaledPoint(s: real, x: real, xm: real)
    ensures Sq(Mul(s, x) - Mul(s, xm)) == Mul(Sq(s), Sq(x - xm))
  {
  }

  lemma CrossTermsVanish(total: real, left: real, p: real, q: real, moment: real, sum: real, line: real)
    requires total == left + 2.0 * (Mul(p, moment) + Mul(q, sum)) + line && moment == 0.0 && sum == 0.0
    ensures total == left + line
  {
  }

  lemma SlopeFromZero(s: real)
    ensures s - 0.0 == s
  {
  }

  /** For any line through the middle of the points whose residuals and their moments cancel. */
  lemma SpreadSplitsAlong(values: seq<real>, s: real, t: real, xm: real, ym: real)
    requires Sum(Residuals(values, s, t)) == 0.0 && Moment(Residuals(values, s, t)) == 0.0
    requires t - ym == -Mul(s, xm)
    ensures SumSq(Deviations(values, ym))
         == SquaredError(values, s, t) + Mul(Sq(s), SumSq(Deviations(Indices(|values|), xm)))
  {
    var rs := Residuals(values, s, t);
    FlatLineResiduals(values, ym);
    ErrorOfAnotherLine(values, s, t, 0.0, ym);
    CrossTermsVanish(SquaredError(values, 0.0, ym), SumSq(rs), s - 0.0, t - ym, Moment(rs), Sum(rs),
                     SumSq(LineAt(|values|, s - 0.0, t - ym)));
    SlopeFromZero(s);
    ScaledLine(|values|, s, xm);
  }

  lemma FitMeetsMiddle(values: seq<real>)
    requires values != [] && SsXx(|values|) != 0.0
    ensures Intercept(values) - Mean(values) == -Mul(Slope(values), XMean(|values|))
  {
  }

  /** The spread of the values is what the fitted line leaves and the spread along the line. */
  lemma SpreadSplits(values: seq<real>)
    requires values != [] && SsXx(|values|) != 0.0
    ensures SumSq(Deviations(values, Mean(values)))
         == SquaredError(values, Slope(values), Intercept(values)) + Mul(Sq(Slope(values)), SsXx(|values|))
  {
    NormalEquations(values);
    FitMeetsMiddle(values);
    SpreadSplitsAlong(values, Slope(values), Intercept(values), XMean(|values|), Mean(values));
  }

  lemma ShareOfTotal(r: real, left: real, along: real, total: real)
    requires total == left + along && r == if total > 0.0 then 1.0 - left / total else 0.0
    ensures if total > 0.0 then Mul(r, total) == along else r == 0.0
  {
    if total > 0.0 {
      DivMul(left, total);
    }
  }

  lemma RSquaredFrom(values: seq<real>, total: real, left: real)
    requires values != [] && SsXx(|values|) != 0.0
    requires total == SumSq(Deviations(values, Mean(values)))
    requires left == SquaredError(values, Slope(values), Intercept(values))
    ensures RSquared(values) == if total > 0.0 then 1.0 - left / total else 0.0
  {
  }

  /** So r squared is the share of the spread of the values that lies along the line. */
  lemma RSquaredIsExplainedShare(values: seq<real>)
    requires |values| >= 2
    ensures SsXx(|values|) > 0.0
    ensures var total := SumSq(Deviations(values, Mean(values)));
      if total > 0.0 then Mul(RSquared(values), total) == Mul(Sq(Slope(values)), SsXx(|values|))
      else RSquared(values) == 0.0
  {
    SpreadIsPositive(|values|);
    SpreadSplits(values);
    var total := SumSq(Deviations(values, Mean(values)));
    var left := SquaredError(values, Slope(values), Intercept(values));
    RSquaredFrom(values, total, left);
    ShareOfTotal(RSquared(values), left, Mul(Sq(Slope(values)), SsXx(|values|)), total);
  }

  /**
   * What a trend report says, for every series: nothing below three values, then the least-squares slope and its
   * sign.
   */
  lemma TrendMeaning(values: seq<real>)
    ensures DetectTrend(values).None? <==> |values| < 3
    ensures DetectTrend(values).Some? ==>
      var r := DetectTrend(values).value;
      && SsXx(|values|) > 0.0 && r.slope == Slope(values) && r.rSquared == RSquared(values)
      && 0.0 <= r.rSquared <= 1.0 && r.sampleCount == |values|
      && (r.direction == Increasing <==> r.slope >= 0.01)
      && (r.direction == Decreasing <==> r.slope <= -0.01)
      && (r.direction == Stable <==> -0.01 < r.slope < 0.01)
  {
    if |values| >= 3 {
      RSquaredIsAFraction(values);
    }
  }
}
