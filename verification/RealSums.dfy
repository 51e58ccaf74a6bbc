/** Sums of reals, and the three facts about them that statistics needs. */
module RealSums {

  function Min(a: real, b: real): real { if a <= b then a else b }

  function Max(a: real, b: real): real { if a >= b then a else b }

  function Mul(x: real, y: real): real { x * y }

  /** n times x. */
  function Times(n: int, x: real): real { n as real * x }

  function Sq(x: real): real { x * x }

  /** A square root function, known only by what makes it one. */
  ghost predicate IsSqrt(sqrt: real -> real) {
    forall x :: x >= 0.0 ==> sqrt(x) >= 0.0 && sqrt(x) * sqrt(x) == x
  }

  function Sum(xs: seq<real>): real
    decreases |xs|
  {
    if xs == [] then 0.0 else Sum(xs[..|xs| - 1]) + xs[|xs| - 1]
  }

  function SumSq(xs: seq<real>): real
    decreases |xs|
  {
    if xs == [] then 0.0 else SumSq(xs[..|xs| - 1]) + Sq(xs[|xs| - 1])
  }

  /** The sum of x_i * i. */
  function Moment(xs: seq<real>): real
    decreases |xs|
  {
    if xs == [] then 0.0 else Moment(xs[..|xs| - 1]) + Mul(xs[|xs| - 1], (|xs| - 1) as real)
  }

  /** sum(xs) / len(xs) */
  function Mean(xs: seq<real>): real
    requires xs != []
  {
    Sum(xs) / (|xs| as real)
  }

  function Deviations(xs: seq<real>, center: real): (ds: seq<real>)
    ensures |ds| == |xs|
    decreases |xs|
  {
    if xs == [] then [] else Deviations(xs[..|xs| - 1], center) + [xs[|xs| - 1] - center]
  }

  /** The population variance: the mean squared deviation from the mean. */
  function Variance(xs: seq<real>): real
    requires xs != []
  {
    SumSq(Deviations(xs, Mean(xs))) / (|xs| as real)
  }

  // ----- products -----

  lemma OneMoreTime(n: int, x: real)
    ensures Times(n + 1, x) == Times(n, x) + x
  {
    calc {
      Times(n + 1, x);
      (n as real + 1.0) * x;
      n as real * x + x;
    }
  }

  lemma SqNonNegative(x: real)
    ensures Sq(x) >= 0.0
  {
  }

  lemma SqPositive(x: real)
    requires x != 0.0
    ensures Sq(x) > 0.0
  {
    calc {
      Sq(x);
    ==
      x * x;
    >
      0.0;
    }
  }

  lemma SqZero(x: real)
    ensures Sq(x) == 0.0 <==> x == 0.0
  {
    if x != 0.0 {
      SqPositive(x);
    }
  }

  lemma SqOfSum(x: real, y: real)
    ensures Sq(x + y) == Sq(x) + 2.0 * Mul(x, y) + Sq(y)
  {
  }

  lemma SqOfMul(x: real, y: real)
    ensures Sq(Mul(x, y)) == Mul(Sq(x), Sq(y))
  {
  }

  lemma MulMonotone(x: real, y: real, y': real)
    requires x >= 0.0 && y <= y'
    ensures Mul(x, y) <= Mul(x, y')
  {
    assert Mul(x, y') - Mul(x, y) == x * (y' - y);
  }

  lemma MulStrict(x: real, y: real, y': real)
    requires x > 0.0
    ensures Mul(x, y) <= Mul(x, y') <==> y <= y'
  {
    assert Mul(x, y') - Mul(x, y) == x * (y' - y);
    assert y > y' ==> x * (y - y') > 0.0;
    assert y <= y' ==> x * (y' - y) >= 0.0;
  }

  lemma Distribute(x: real, y: real, z: real)
    ensures Mul(x, y + z) == Mul(x, y) + Mul(x, z)
  {
  }

  lemma DivMul(x: real, y: real)
    requires y != 0.0
    ensures Mul(x / y, y) == x
  {
  }

  // ----- sums -----

  lemma {:induction false} SumOfDeviations(xs: seq<real>, center: real)
    ensures Sum(Deviations(xs, center)) == Sum(xs) - Mul(center, |xs| as real)
    decreases |xs|
  {
    if xs != [] {
      var init := xs[..|xs| - 1];
      SumOfDeviations(init, center);
      Distribute(center, |init| as real, 1.0);
      assert Deviations(xs, center)[..|init|] == Deviations(init, center);
    }
  }

  /** Deviations from the mean cancel. */
  lemma DeviationsCancel(xs: seq<real>)
    requires xs != []
    ensures Sum(Deviations(xs, Mean(xs))) == 0.0
  {
    SumOfDeviations(xs, Mean(xs));
    DivMul(Sum(xs), |xs| as real);
  }

  lemma {:induction false} SumSqNonNegative(xs: seq<real>)
    ensures SumSq(xs) >= 0.0
    decreases |xs|
  {
    if xs != [] {
      SumSqNonNegative(xs[..|xs| - 1]);
      SqNonNegative(xs[|xs| - 1]);
    }
  }

  /** (e1 + ... + em)^2 <= m * (e1^2 + ... + em^2) */
  lemma {:induction false} CauchySchwarz(es: seq<real>)
    ensures Sq(Sum(es)) <= Mul(|es| as real, SumSq(es))
    decreases |es|
  {
    if es != [] {
      var init, e := es[..|es| - 1], es[|es| - 1];
      CauchySchwarz(init);
      SumSqNonNegative(init);
      CauchyStep(Sum(init), SumSq(init), |init| as real, e);
    }
  }

  lemma CauchyStep(s: real, q: real, m: real, e: real)
    requires m >= 0.0 && q >= 0.0 && Sq(s) <= Mul(m, q)
    ensures Sq(s + e) <= Mul(m + 1.0, q + Sq(e))
  {
    SqOfSum(s, e);
    assert Mul(m + 1.0, q + Sq(e)) == Mul(m, q) + q + Mul(m, Sq(e)) + Sq(e);
    CrossTerm(s, q, m, e);
  }

  /** 2se <= q + m e^2 when s^2 <= mq */
  lemma CrossTerm(s: real, q: real, m: real, e: real)
    requires m >= 0.0 && q >= 0.0 && Sq(s) <= Mul(m, q)
    ensures 2.0 * Mul(s, e) <= q + Mul(m, Sq(e))
  {
    if m == 0.0 {
      assert Mul(m, q) == 0.0 && Mul(m, Sq(e)) == 0.0;
      SqNonNegative(s);
      SqZero(s);
      assert Mul(s, e) == 0.0;
    } else {
      var t := q + Mul(m, Sq(e)) - 2.0 * Mul(s, e);
      assert Mul(m, t) == Mul(m, q) - Sq(s) + Sq(s - Mul(m, e));
      SqNonNegative(s - Mul(m, e));
      MulStrict(m, 0.0, t);
    }
  }
}
