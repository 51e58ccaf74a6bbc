/** Overlap by counting: on any grid, however fine, it is the share of the covered cells that both boxes cover. */
module GridOverlap {
  import opened Geometry
  import opened Nms
  import opened RealSums

  /** A box whose corners lie on the lines of a grid. */
  datatype Patch = Patch(x0: int, y0: int, x1: int, y1: int)

  predicate Ok(p: Patch) {
    p.x0 <= p.x1 && p.y0 <= p.y1
  }

  function BoxOf(p: Patch, unit: real): Box {
    Box(Times(p.x0, unit), Times(p.y0, unit), Times(p.x1, unit), Times(p.y1, unit))
  }

  /** The cells of the grid that a box covers, each by its lower corner. */
  function Covered(p: Patch): set<(int, int)> {
    set x, y | p.x0 <= x < p.x1 && p.y0 <= y < p.y1 :: (x, y)
  }

  // ----- counting -----

  function Column(x: int, y0: int, y1: int): set<(int, int)> {
    set y | y0 <= y < y1 :: (x, y)
  }

  lemma {:induction false} ColumnCount(x: int, y0: int, y1: int)
    requires y0 <= y1
    ensures |Column(x, y0, y1)| == y1 - y0
    decreases y1 - y0
  {
    if y0 < y1 {
      ColumnCount(x, y0, y1 - 1);
      assert Column(x, y0, y1) == Column(x, y0, y1 - 1) + {(x, y1 - 1)};
    } else {
      assert Column(x, y0, y1) == {};
    }
  }

  function Size(w: int, h: int): int {
    w * h
  }

  lemma {:induction false} CoveredCount(p: Patch)
    requires Ok(p)
    ensures |Covered(p)| == Size(p.x1 - p.x0, p.y1 - p.y0)
    decreases p.x1 - p.x0
  {
    if p.x0 < p.x1 {
      var rest, column := p.(x1 := p.x1 - 1), Column(p.x1 - 1, p.y0, p.y1);
      CoveredCount(rest);
      ColumnCount(p.x1 - 1, p.y0, p.y1);
      assert Covered(p) == Covered(rest) + column && Covered(rest) !! column;
      OneMoreColumn(p.x1 - 1 - p.x0, p.y1 - p.y0);
    } else {
      assert Covered(p) == {};
    }
  }

  lemma OneMoreColumn(w: int, h: int)
    ensures Size(w + 1, h) == Size(w, h) + h
  {
  }

  function Least(a: int, b: int): int {
    if a <= b then a else b
  }

  function Greatest(a: int, b: int): int {
    if a >= b then a else b
  }

  /** The box of what both cover, flat if they are apart. */
  function Common(a: Patch, b: Patch): (p: Patch)
    ensures Ok(p)
  {
    var (x0, y0) := (Greatest(a.x0, b.x0), Greatest(a.y0, b.y0));
    Patch(x0, y0, Greatest(x0, Least(a.x1, b.x1)), Greatest(y0, Least(a.y1, b.y1)))
  }

  lemma CommonIsCommon(a: Patch, b: Patch)
    ensures Covered(a) * Covered(b) == Covered(Common(a, b))
  {
  }

  // ----- areas -----

  lemma TimesOfDifference(m: int, n: int, unit: real)
    ensures Times(m, unit) - Times(n, unit) == Times(m - n, unit)
  {
  }

  lemma TimesOrdered(m: int, n: int, unit: real)
    requires unit > 0.0
    ensures Times(m, unit) <= Times(n, unit) <==> m <= n
  {
    assert Times(n, unit) - Times(m, unit) == (n - m) as real * unit;
    if m <= n {
      assert (n - m) as real * unit >= 0.0;
    } else {
      assert (m - n) as real * unit > 0.0;
    }
  }

  lemma SizeOfUnits(w: int, h: int, unit: real)
    ensures Mul(Times(w, unit), Times(h, unit)) == Times(Size(w, h), Sq(unit))
  {
    assert (w * h) as real == w as real * h as real;
  }

  lemma AreaIsCount(p: Patch, unit: real)
    requires Ok(p)
    ensures Area(BoxOf(p, unit)) == Times(|Covered(p)|, Sq(unit))
  {
    CoveredCount(p);
    TimesOfDifference(p.x1, p.x0, unit);
    TimesOfDifference(p.y1, p.y0, unit);
    SizeOfUnits(p.x1 - p.x0, p.y1 - p.y0, unit);
  }

  lemma OverlapOnGrid(lo1: int, hi1: int, lo2: int, hi2: int, unit: real)
    requires unit > 0.0
    ensures var lo := Greatest(lo1, lo2);
      Overlap(Times(lo1, unit), Times(hi1, unit), Times(lo2, unit), Times(hi2, unit))
      == Times(Greatest(lo, Least(hi1, hi2)) - lo, unit)
  {
    var lo, hi := Greatest(lo1, lo2), Least(hi1, hi2);
    TimesOrdered(hi1, hi2, unit);
    TimesOrdered(lo2, lo1, unit);
    TimesOrdered(lo, hi, unit);
    TimesOfDifference(hi, lo, unit);
    assert Times(0, unit) == 0.0;
  }

  lemma ProductOfOverlaps(a: Box, b: Box)
    ensures Intersection(a, b)
         == Mul(Overlap(a.xMin, a.xMax, b.xMin, b.xMax), Overlap(a.yMin, a.yMax, b.yMin, b.yMax))
  {
  }

  lemma IntersectionIsCount(a: Patch, b: Patch, unit: real)
    requires unit > 0.0
    ensures Intersection(BoxOf(a, unit), BoxOf(b, unit)) == Times(|Covered(a) * Covered(b)|, Sq(unit))
  {
    var p := Common(a, b);
    CommonIsCommon(a, b);
    CoveredCount(p);
    calc {
      Intersection(BoxOf(a, unit), BoxOf(b, unit));
      { ProductOfOverlaps(BoxOf(a, unit), BoxOf(b, unit));
        OverlapOnGrid(a.x0, a.x1, b.x0, b.x1, unit);
        OverlapOnGrid(a.y0, a.y1, b.y0, b.y1, unit); }
      Mul(Times(p.x1 - p.x0, unit), Times(p.y1 - p.y0, unit));
      { SizeOfUnits(p.x1 - p.x0, p.y1 - p.y0, unit); }
      Times(Size(p.x1 - p.x0, p.y1 - p.y0), Sq(unit));
    }
  }

  lemma UnionCount(a: set<(int, int)>, b: set<(int, int)>)
    ensures |a + b| == |a| + |b| - |a * b| && |a * b| <= |a + b|
  {
    assert a + b == a + (b - a) && b == (b - a) + a * b;
  }

  lemma RatioOfTimes(m: nat, n: nat, unit: real)
    requires n > 0 && unit > 0.0
    ensures Times(n, unit) > 0.0 && Mul(Times(m, unit) / Times(n, unit), n as real) == m as real
  {
    var q := Times(m, unit) / Times(n, unit);
    assert Times(n, unit) > 0.0;
    assert q * Times(n, unit) == Times(m, unit);
    assert (q * n as real - m as real) * unit == 0.0;
  }

  /** The overlap of two boxes is the number of cells both cover over the number of cells one of them covers. */
  lemma IoUIsCellRatio(a: Patch, b: Patch, unit: real)
    requires Ok(a) && Ok(b) && unit > 0.0
    ensures var both, either := Covered(a) * Covered(b), Covered(a) + Covered(b);
      && Mul(IoU(BoxOf(a, unit), BoxOf(b, unit)), |either| as real) == |both| as real
      && (either == {} ==> IoU(BoxOf(a, unit), BoxOf(b, unit)) == 0.0)
  {
    var both, either := |Covered(a) * Covered(b)|, |Covered(a) + Covered(b)|;
    AreaIsCount(a, unit);
    AreaIsCount(b, unit);
    IntersectionIsCount(a, b, unit);
    UnionCount(Covered(a), Covered(b));
    SqPositive(unit);
    SumOfTimes(|Covered(a)|, |Covered(b)|, both, Sq(unit));
    if either > 0 {
      RatioOfTimes(both, either, Sq(unit));
    } else {
      assert Times(0, Sq(unit)) == 0.0;
    }
  }

  lemma SumOfTimes(m: int, n: int, k: int, unit: real)
    ensures Times(m, unit) + Times(n, unit) - Times(k, unit) == Times(m + n - k, unit)
  {
  }

  // ----- what suppression makes of it -----

  /** The boxes share more than this fraction of the cells they cover. */
  predicate ShareMore(a: Patch, b: Patch, fraction: real) {
    var both, either := |Covered(a) * Covered(b)|, |Covered(a) + Covered(b)|;
    if either == 0 then fraction < 0.0 else both as real > Mul(fraction, either as real)
  }

  lemma RatioExceeds(ratio: real, fraction: real, n: real)
    requires n > 0.0
    ensures ratio > fraction <==> Mul(ratio, n) > Mul(fraction, n)
  {
    MulStrict(n, ratio, fraction);
    assert Mul(n, ratio) == Mul(ratio, n) && Mul(n, fraction) == Mul(fraction, n);
  }

  lemma OverlapExceedsIff(a: Patch, b: Patch, unit: real, fraction: real)
    requires Ok(a) && Ok(b) && unit > 0.0
    ensures IoU(BoxOf(a, unit), BoxOf(b, unit)) > fraction <==> ShareMore(a, b, fraction)
  {
    var either := Covered(a) + Covered(b);
    IoUIsCellRatio(a, b, unit);
    if either != {} {
      RatioExceeds(IoU(BoxOf(a, unit), BoxOf(b, unit)), fraction, |either| as real);
    }
  }

  /** d stands where p does. */
  predicate At(d: Detection, p: Patch, unit: real) {
    Ok(p) && d.box == BoxOf(p, unit)
  }

  /** Two detections of one class that share more than the threshold allows. */
  predicate TooClose(x: Detection, y: Detection, p: Patch, q: Patch, threshold: real) {
    x.classId == y.classId && ShareMore(p, q, threshold)
  }

  lemma ConflictIff(x: Detection, y: Detection, p: Patch, q: Patch, unit: real, threshold: real)
    requires unit > 0.0 && At(x, p, unit) && At(y, q, unit)
    ensures Conflict(x, y, threshold) <==> TooClose(x, y, p, q, threshold)
  {
    OverlapExceedsIff(p, q, unit, threshold);
  }

  lemma PairInOrder(sorted: seq<Detection>, x: Detection, y: Detection)
    requires multiset(sorted) == multiset([x, y])
    ensures sorted == [x, y] || sorted == [y, x]
  {
    assert |multiset(sorted)| == |sorted| == 2;
    assert sorted == [sorted[0], sorted[1]];
    assert sorted[0] in multiset(sorted) && sorted[1] in multiset(sorted);
    assert x in multiset(sorted) && y in multiset(sorted);
  }

  lemma GreedyOfPair(x: Detection, y: Detection, threshold: real)
    ensures Greedy([x, y], threshold) == if Conflict(x, y, threshold) then [x] else [x, y]
  {
    GreedyStep(x, [y], threshold);
    assert [x] + [y] == [x, y];
    assert [y][1..] == [];
    assert Greedy([y], threshold) == [y] by {
      GreedyStep(y, [], threshold);
      assert [y] + [] == [y];
    }
  }

  /** Both of two boxes survive exactly if they are of two classes or share no more cells than the threshold allows. */
  lemma BothSurviveIff(x: Detection, y: Detection, p: Patch, q: Patch, unit: real, threshold: real,
                       result: seq<Detection>)
    requires unit > 0.0 && At(x, p, unit) && At(y, q, unit) && Suppressed([x, y], threshold, result)
    ensures |result| == 2 <==> !TooClose(x, y, p, q, threshold)
    ensures TooClose(x, y, p, q, threshold) ==>
      result in {[x], [y]} && result[0].confidence == Max(x.confidence, y.confidence)
  {
    var sorted: seq<Detection> :| IsSorting(sorted, [x, y]) && result == Greedy(sorted, threshold);
    PairInOrder(sorted, x, y);
    ConflictIff(x, y, p, q, unit, threshold);
    ConflictSymmetric(x, y, threshold);
    GreedyOfPair(x, y, threshold);
    GreedyOfPair(y, x, threshold);
    assert sorted[0].confidence >= sorted[1].confidence;
  }

  /** Of any input: no two survivors of a class share more cells than the threshold allows. */
  lemma SurvivorsShareLittle(boxes: seq<Detection>, threshold: real, result: seq<Detection>, i: nat, j: nat,
                             p: Patch, q: Patch, unit: real)
    requires unit > 0.0 && Suppressed(boxes, threshold, result)
    requires i < j < |result| && At(result[i], p, unit) && At(result[j], q, unit)
    ensures !TooClose(result[i], result[j], p, q, threshold)
  {
    var sorted: seq<Detection> :| IsSorting(sorted, boxes) && result == Greedy(sorted, threshold);
    GreedyMeaning(sorted, threshold);
    ConflictIff(result[i], result[j], p, q, unit, threshold);
  }

  // ----- two closed forms, for any corners -----

  /** A box inside another overlaps it by the ratio of their areas. */
  lemma OverlapOfInner(inner: Box, outer: Box)
    requires WellFormed(inner) && Area(outer) > 0.0
    requires outer.xMin <= inner.xMin && inner.xMax <= outer.xMax
    requires outer.yMin <= inner.yMin && inner.yMax <= outer.yMax
    ensures IoU(inner, outer) == Area(inner) / Area(outer)
  {
    assert Intersection(inner, outer) == Area(inner);
  }

  /** A box and its copy, moved by d along a side of length w, overlap by (w - d) / (w + d). */
  lemma OverlapOfShifted(b: Box, d: real)
    requires WellFormed(b) && Area(b) > 0.0 && 0.0 <= d <= b.xMax - b.xMin
    ensures var w := b.xMax - b.xMin;
      w + d > 0.0 && IoU(b, Box(b.xMin + d, b.yMin, b.xMax + d, b.yMax)) == (w - d) / (w + d)
  {
    var w, h, moved := b.xMax - b.xMin, b.yMax - b.yMin, Box(b.xMin + d, b.yMin, b.xMax + d, b.yMax);
    assert w > 0.0 && h > 0.0 by {
      assert w * h > 0.0;
    }
    assert Intersection(b, moved) == (w - d) * h;
    assert Area(b) + Area(moved) - Intersection(b, moved) == (w + d) * h;
    CommonFactor(w - d, w + d, h);
  }

  lemma CommonFactor(x: real, y: real, h: real)
    requires y > 0.0 && h > 0.0
    ensures y * h > 0.0 && (x * h) / (y * h) == x / y
  {
    var q := x / y;
    assert q * y == x;
    assert q * (y * h) == x * h;
  }
}
