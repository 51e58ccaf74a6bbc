/** Axis-aligned boxes, detections and overlap; the three ComputeIoU bodies of the edge code are this one expression. */
module Geometry {
  import opened RealSums

  datatype Box = Box(xMin: real, yMin: real, xMax: real, yMax: real)

  datatype Detection = Detection(classId: nat, className: string, confidence: real, box: Box)

  predicate WellFormed(b: Box) {
    b.xMin <= b.xMax && b.yMin <= b.yMax
  }

  function Area(b: Box): real {
    (b.xMax - b.xMin) * (b.yMax - b.yMin)
  }

  /** The overlap of two intervals, 0 when they are apart. */
  function Overlap(lo1: real, hi1: real, lo2: real, hi2: real): real {
    Max(0.0, Min(hi1, hi2) - Max(lo1, lo2))
  }

  function Intersection(a: Box, b: Box): real {
    Overlap(a.xMin, a.xMax, b.xMin, b.xMax) * Overlap(a.yMin, a.yMax, b.yMin, b.yMax)
  }

  function IoU(a: Box, b: Box): real {
    var intersection := Intersection(a, b);
    var union := Area(a) + Area(b) - intersection;
    if union <= 0.0 then 0.0 else intersection / union
  }

  lemma IoUSymmetric(a: Box, b: Box)
    ensures IoU(a, b) == IoU(b, a)
  {
    IntersectionSymmetric(a, b);
  }

  lemma IntersectionSymmetric(a: Box, b: Box)
    ensures Intersection(a, b) == Intersection(b, a)
  {
    OverlapSymmetric(a.xMin, a.xMax, b.xMin, b.xMax);
    OverlapSymmetric(a.yMin, a.yMax, b.yMin, b.yMax);
  }

  lemma OverlapSymmetric(lo1: real, hi1: real, lo2: real, hi2: real)
    ensures Overlap(lo1, hi1, lo2, hi2) == Overlap(lo2, hi2, lo1, hi1)
  {
  }

  lemma OverlapWithin(lo1: real, hi1: real, lo2: real, hi2: real)
    requires lo1 <= hi1 && lo2 <= hi2
    ensures 0.0 <= Overlap(lo1, hi1, lo2, hi2) <= hi1 - lo1 && Overlap(lo1, hi1, lo2, hi2) <= hi2 - lo2
  {
  }

  lemma ProductMonotone(w: real, h: real, w': real, h': real)
    requires 0.0 <= w <= w' && 0.0 <= h <= h'
    ensures 0.0 <= w * h <= w' * h'
  {
    assert w' * h' - w * h == w' * (h' - h) + (w' - w) * h;
  }

  lemma IntersectionWithin(a: Box, b: Box)
    requires WellFormed(a) && WellFormed(b)
    ensures 0.0 <= Intersection(a, b) <= Area(a)
  {
    var w := Overlap(a.xMin, a.xMax, b.xMin, b.xMax);
    var h := Overlap(a.yMin, a.yMax, b.yMin, b.yMax);
    OverlapWithin(a.xMin, a.xMax, b.xMin, b.xMax);
    OverlapWithin(a.yMin, a.yMax, b.yMin, b.yMax);
    ProductMonotone(w, h, a.xMax - a.xMin, a.yMax - a.yMin);
  }

  lemma IntersectionBounded(a: Box, b: Box)
    requires WellFormed(a) && WellFormed(b)
    ensures 0.0 <= Intersection(a, b) <= Area(a) && Intersection(a, b) <= Area(b)
  {
    IntersectionWithin(a, b);
    IntersectionWithin(b, a);
    IntersectionSymmetric(a, b);
  }

  lemma Quotient(x: real, y: real)
    requires 0.0 <= x <= y && 0.0 < y
    ensures 0.0 <= x / y <= 1.0
    ensures x / y == 1.0 <==> x == y
    ensures x / y == 0.0 <==> x == 0.0
  {
    var q := x / y;
    assert q * y == x;
  }

  lemma IoUBounded(a: Box, b: Box)
    requires WellFormed(a) && WellFormed(b)
    ensures 0.0 <= IoU(a, b) <= 1.0
  {
    IntersectionBounded(a, b);
    var union := Area(a) + Area(b) - Intersection(a, b);
    if union > 0.0 {
      Quotient(Intersection(a, b), union);
    }
  }

  /**
   * Two boxes with area overlap completely exactly when they are the same box, and not at all exactly when they are
   * apart.
   */
  lemma IoUExtremes(a: Box, b: Box)
    requires WellFormed(a) && WellFormed(b) && Area(a) > 0.0 && Area(b) > 0.0
    ensures IoU(a, b) == 1.0 <==> a == b
    ensures IoU(a, b) == 0.0
        <==> Min(a.xMax, b.xMax) <= Max(a.xMin, b.xMin) || Min(a.yMax, b.yMax) <= Max(a.yMin, b.yMin)
  {
    IntersectionBounded(a, b);
    Quotient(Intersection(a, b), Area(a) + Area(b) - Intersection(a, b));
    var w := Overlap(a.xMin, a.xMax, b.xMin, b.xMax);
    var h := Overlap(a.yMin, a.yMax, b.yMin, b.yMax);
    if Intersection(a, b) == Area(a) == Area(b) {
      FullProduct(w, h, a.xMax - a.xMin, a.yMax - a.yMin);
      FullProduct(w, h, b.xMax - b.xMin, b.yMax - b.yMin);
    }
  }

  lemma FullProduct(w: real, h: real, w': real, h': real)
    requires 0.0 <= w <= w' && 0.0 <= h <= h' && w * h == w' * h' > 0.0
    ensures w == w' && h == h'
  {
    var p, q := w' * (h' - h), (w' - w) * h;
    assert p + q == 0.0;
    ZeroProduct(w', h' - h);
    ZeroProduct(w' - w, h);
    ZeroProduct(w, h);
  }

  lemma ZeroProduct(x: real, y: real)
    requires 0.0 <= x && 0.0 <= y
    ensures 0.0 <= x * y && (x * y == 0.0 <==> x == 0.0 || y == 0.0)
  {
  }
}
