/** Which boxes a cell of YOLOv8 can stand for, over all its logits. */
module Yolov8Reach {
  import opened Geometry
  import opened GridLayout
  import opened RealSums
  import opened Yolov8Postprocess

  /** The exponential takes every positive value; log says where. */
  ghost predicate IsLog(exp: real -> real, log: real -> real) {
    forall y :: y > 0.0 ==> exp(log(y)) == y
  }

  // ----- a distribution with a given mean -----

  function LogitsOf(weights: seq<real>, log: real -> real): (logits: seq<real>)
    ensures |logits| == |weights|
  {
    seq(|weights|, i requires 0 <= i < |weights| => log(weights[i]))
  }

  predicate AllPositive(weights: seq<real>) {
    forall i | 0 <= i < |weights| :: weights[i] > 0.0
  }

  lemma ShareOfMoment(moment: real, weight: real, n: int, whole: real)
    requires whole > 0.0
    ensures Share(moment + Mul(weight, n as real), whole) == Share(moment, whole) + Times(n, Share(weight, whole))
  {
    var part := weight / whole;
    assert part * whole == weight;
    assert Mul(weight, n as real) == (n as real * part) * whole;
    assert (n as real * part) * whole / whole == n as real * part;
  }

  lemma {:induction false} SumsOfLogits(weights: seq<real>, exp: real -> real, log: real -> real, whole: real)
    requires AllPositive(weights) && IsLog(exp, log) && whole > 0.0
    ensures var logits := LogitsOf(weights, log);
      ExpSum(logits, exp) == Sum(weights) && WeightedSum(logits, exp, whole) == Share(Moment(weights), whole)
    decreases |weights|
  {
    if weights != [] {
      var n := |weights| - 1;
      var weight := weights[n];
      assert LogitsOf(weights, log)[..n] == LogitsOf(weights[..n], log);
      assert exp(log(weight)) == weight;
      SumsOfLogits(weights[..n], exp, log, whole);
      ShareOfMoment(Moment(weights[..n]), weight, n, whole);
    } else {
      assert LogitsOf(weights, log) == [];
    }
  }

  function Ones(n: nat): (ws: seq<real>)
    ensures |ws| == n && AllPositive(ws)
  {
    seq(n, i => 1.0)
  }

  /** Half of n * (n - 1), the sum of the numbers below n. */
  function Triangle(n: nat): real
    decreases n
  {
    if n == 0 then 0.0 else Triangle(n - 1) + (n - 1) as real
  }

  lemma {:induction false} TriangleIsHalf(n: nat)
    ensures Triangle(n) == Times(n, (n - 1) as real / 2.0)
  {
    if n > 0 {
      TriangleIsHalf(n - 1);
    }
  }

  lemma {:induction false} SumsOfOnes(n: nat)
    ensures Sum(Ones(n)) == n as real && Moment(Ones(n)) == Triangle(n)
  {
    if n > 0 {
      assert Ones(n)[..n - 1] == Ones(n - 1);
      SumsOfOnes(n - 1);
    }
  }

  /** Ones with a first weight of its own: that adds to the sum, not to the moment. */
  lemma {:induction false} SumsFirst(w: real, n: nat)
    ensures var ws := [w] + Ones(n); Sum(ws) == w + n as real && Moment(ws) == Triangle(n + 1)
  {
    var ws := [w] + Ones(n);
    if n > 0 {
      assert ws[..n] == [w] + Ones(n - 1);
      SumsFirst(w, n - 1);
    } else {
      assert ws == [w] && ws[..0] == [];
    }
  }

  lemma SumsLast(w: real, n: nat)
    ensures var ws := Ones(n) + [w]; Sum(ws) == n as real + w && Moment(ws) == Triangle(n) + Mul(w, n as real)
  {
    var ws := Ones(n) + [w];
    assert ws[..n] == Ones(n);
    SumsOfOnes(n);
  }

  /** The last weight that pulls the mean of n ones up to d. */
  lemma LastWeight(n: nat, d: real) returns (w: real)
    requires n > 0 && d < n as real && 2.0 * d > (n - 1) as real
    ensures w > 0.0 && Triangle(n) + Mul(w, n as real) == Mul(d, n as real + w)
  {
    TriangleIsHalf(n);
    var rise, room := (d - (n - 1) as real / 2.0) * n as real, n as real - d;
    assert rise > 0.0;
    w := rise / room;
    assert w * room == rise;
  }

  lemma QuotientAbove(t: real, d: real, n: real)
    requires d > 0.0 && t > Mul(n, d)
    ensures t / d > n
  {
    assert t / d * d == t;
  }

  /** The first weight that pulls the mean down to d. */
  lemma FirstWeight(n: nat, d: real) returns (w: real)
    requires n > 0 && 0.0 < d && 2.0 * d < (n + 1) as real
    ensures w > 0.0 && Triangle(n + 1) == Mul(d, w + n as real)
  {
    var half := (n + 1) as real / 2.0;
    TriangleIsHalf(n + 1);
    assert Triangle(n + 1) == n as real * half;
    assert n as real * half - Mul(n as real, d) == n as real * (half - d);
    QuotientAbove(Triangle(n + 1), d, n as real);
    w := Triangle(n + 1) / d - n as real;
  }

  /** Every distance strictly inside the bins is the mean of some distribution. */
  lemma DistanceIsAttained(exp: real -> real, log: real -> real, bins: nat, d: real) returns (logits: seq<real>)
    requires Positive(exp) && IsLog(exp, log) && bins > 1 && 0.0 < d < (bins - 1) as real
    ensures |logits| == bins && Distance(logits, exp) == d
  {
    var n := bins - 1;
    var weights;
    if 2.0 * d > (n - 1) as real {
      var w := LastWeight(n, d);
      SumsLast(w, n);
      weights := Ones(n) + [w];
    } else {
      var w := FirstWeight(n, d);
      SumsFirst(w, n);
      weights := [w] + Ones(n);
    }
    logits := LogitsOf(weights, log);
    MeanOf(weights, logits, exp, log, d);
  }

  lemma MeanOf(weights: seq<real>, logits: seq<real>, exp: real -> real, log: real -> real, d: real)
    requires Positive(exp) && IsLog(exp, log) && weights != [] && AllPositive(weights)
    requires logits == LogitsOf(weights, log)
    requires Sum(weights) > 0.0 && Moment(weights) == Mul(d, Sum(weights))
    ensures Distance(logits, exp) == d
  {
    SumsOfLogits(weights, exp, log, Sum(weights));
    ShareOfProduct(d, Sum(weights));
  }

  lemma ShareOfProduct(d: real, whole: real)
    requires whole > 0.0
    ensures Share(Mul(d, whole), whole) == d
  {
    assert d * whole / whole == d;
  }

  // ----- one edge -----

  /** A distance that some logits of this many bins decode to. */
  predicate Decodable(bins: nat, d: real) {
    if bins > 1 then 0.0 < d < (bins - 1) as real else d == 0.0
  }

  lemma DecodableIff(exp: real -> real, log: real -> real, bins: nat, d: real)
    requires Positive(exp) && IsLog(exp, log)
    ensures Decodable(bins, d) <==> exists logits :: |logits| == bins && Distance(logits, exp) == d
  {
    if bins > 1 {
      if Decodable(bins, d) {
        var logits := DistanceIsAttained(exp, log, bins, d);
      }
      forall logits | |logits| == bins ensures Decodable(bins, Distance(logits, exp)) {
        DistanceBounds(logits, exp);
      }
    } else {
      forall logits | |logits| == bins ensures Distance(logits, exp) == 0.0 {
        if logits != [] {
          DistanceBounds(logits, exp);
        }
      }
      assert |seq(bins, i => 0.0)| == bins;
    }
  }

  lemma PositionOf(p: real, cell: nat, stride: nat, scale: nat)
    requires stride > 0 && scale > 0
    ensures DistanceTo(Fraction(p + cell as real + 0.5, stride, scale), cell, stride, scale) == p
  {
    var q := p + cell as real + 0.5;
    var f := Fraction(q, stride, scale);
    assert f * scale as real == q * stride as real;
    assert q * stride as real / stride as real == q;
  }

  lemma EndsOfAxis(cell: nat, stride: nat, scale: nat)
    requires stride > 0 && scale > 0 && cell < scale / stride
    ensures DistanceTo(0.0, cell, stride, scale) < 0.0 < DistanceTo(1.0, cell, stride, scale)
  {
    EdgeRoundTrip(0.0, cell, stride, scale);
    EdgeRoundTrip(1.0, cell, stride, scale);
    EdgesAroundMiddle(0.0, 0.0, cell, stride, scale);
    MiddleIsInside(cell, stride, scale);
    DistanceMonotone(0.0, Fraction(0.0 + cell as real + 0.5, stride, scale), cell, stride, scale);
    DistanceMonotone(Fraction(0.0 + cell as real + 0.5, stride, scale), 1.0, cell, stride, scale);
    PositionOf(0.0, cell, stride, scale);
  }

  lemma DistanceMonotone(p: real, q: real, cell: nat, stride: nat, scale: nat)
    requires p < q && stride > 0 && scale > 0
    ensures DistanceTo(p, cell, stride, scale) < DistanceTo(q, cell, stride, scale)
  {
    ScaledMonotone(p, q, scale as real);
    ShareMonotone(Mul(p, scale as real), Mul(q, scale as real), stride as real);
  }

  /** A lower edge that some distance puts at a position is at a distance of the bins from it, clamped or not. */
  lemma LowEdge(bins: nat, d: real, position: real, cell: nat, stride: nat, scale: nat)
    requires stride > 0 && scale > 0 && cell < scale / stride
    requires Decodable(bins, d) && Edge(-d, cell, stride, scale) == position
    ensures Decodable(bins, -DistanceTo(position, cell, stride, scale))
  {
    var f := Fraction(-d + cell as real + 0.5, stride, scale);
    PositionOf(-d, cell, stride, scale);
    MiddleIsInside(cell, stride, scale);
    FractionMonotone(-d + cell as real + 0.5, cell as real + 0.5, stride, scale);
    if f < 0.0 {
      DistanceMonotone(f, 0.0, cell, stride, scale);
      EndsOfAxis(cell, stride, scale);
    }
  }

  /** The same for an upper edge. */
  lemma HighEdge(bins: nat, d: real, position: real, cell: nat, stride: nat, scale: nat)
    requires stride > 0 && scale > 0 && cell < scale / stride
    requires Decodable(bins, d) && Edge(d, cell, stride, scale) == position
    ensures Decodable(bins, DistanceTo(position, cell, stride, scale))
  {
    var f := Fraction(d + cell as real + 0.5, stride, scale);
    PositionOf(d, cell, stride, scale);
    MiddleIsInside(cell, stride, scale);
    FractionMonotone(cell as real + 0.5, d + cell as real + 0.5, stride, scale);
    if f > 1.0 {
      DistanceMonotone(1.0, f, cell, stride, scale);
      EndsOfAxis(cell, stride, scale);
    }
  }

  // ----- the box of a cell -----

  ghost function BoxOf(c: Config, s: nat, i: nat, j: nat, logits: seq<real>, exp: real -> real): Box
    requires Positive(exp) && IsCell(c, s, i, j) && |logits| == 4 * c.dflLen
  {
    Decoded(c, s, i, j, Side(c, logits, 0, exp), Side(c, logits, 1, exp), Side(c, logits, 2, exp),
            Side(c, logits, 3, exp))
  }

  /** The four edges are at distances from the middle of the cell that its bins can decode to. */
  predicate WithinReach(c: Config, s: nat, i: nat, j: nat, b: Box)
    requires IsCell(c, s, i, j)
  {
    && Decodable(c.dflLen, -DistanceTo(b.xMin, j, STRIDES[s], c.inputWidth))
    && Decodable(c.dflLen, -DistanceTo(b.yMin, i, STRIDES[s], c.inputHeight))
    && Decodable(c.dflLen, DistanceTo(b.xMax, j, STRIDES[s], c.inputWidth))
    && Decodable(c.dflLen, DistanceTo(b.yMax, i, STRIDES[s], c.inputHeight))
  }

  lemma SideIsDecodable(c: Config, logits: seq<real>, side: nat, exp: real -> real)
    requires Positive(exp) && side < 4 && |logits| == 4 * c.dflLen
    ensures Decodable(c.dflLen, Side(c, logits, side, exp))
  {
    SideBounds(c, logits, side, exp);
  }

  lemma BoxIsWithinReach(c: Config, s: nat, i: nat, j: nat, logits: seq<real>, exp: real -> real)
    requires Positive(exp) && IsCell(c, s, i, j) && |logits| == 4 * c.dflLen
    ensures var b := BoxOf(c, s, i, j, logits, exp); InUnitSquare(b) && WithinReach(c, s, i, j, b)
  {
    var b := BoxOf(c, s, i, j, logits, exp);
    BoxAroundItsCell(c, s, i, j, logits, exp);
    SideIsDecodable(c, logits, 0, exp);
    SideIsDecodable(c, logits, 1, exp);
    SideIsDecodable(c, logits, 2, exp);
    SideIsDecodable(c, logits, 3, exp);
    LowEdge(c.dflLen, Side(c, logits, 0, exp), b.xMin, j, STRIDES[s], c.inputWidth);
    LowEdge(c.dflLen, Side(c, logits, 1, exp), b.yMin, i, STRIDES[s], c.inputHeight);
    HighEdge(c.dflLen, Side(c, logits, 2, exp), b.xMax, j, STRIDES[s], c.inputWidth);
    HighEdge(c.dflLen, Side(c, logits, 3, exp), b.yMax, i, STRIDES[s], c.inputHeight);
  }

  lemma SidesOfParts(c: Config, l: seq<real>, t: seq<real>, r: seq<real>, b: seq<real>, exp: real -> real)
    requires Positive(exp) && |l| == |t| == |r| == |b| == c.dflLen
    ensures var logits := l + t + r + b;
      && Side(c, logits, 0, exp) == Distance(l, exp) && Side(c, logits, 1, exp) == Distance(t, exp)
      && Side(c, logits, 2, exp) == Distance(r, exp) && Side(c, logits, 3, exp) == Distance(b, exp)
  {
    var logits, n := l + t + r + b, c.dflLen;
    assert logits[SideOffset(0, n)..SideOffset(0, n) + n] == l;
    assert logits[SideOffset(1, n)..SideOffset(1, n) + n] == t;
    assert logits[SideOffset(2, n)..SideOffset(2, n) + n] == r;
    assert logits[SideOffset(3, n)..SideOffset(3, n) + n] == b;
  }

  /** Some logits of the cell are decoded to b; with more bins than the buffer holds none are decoded at all. */
  ghost predicate CanYield(c: Config, s: nat, i: nat, j: nat, b: Box, exp: real -> real)
    requires Positive(exp) && IsCell(c, s, i, j)
  {
    BufferFits(c) && exists logits :: |logits| == 4 * c.dflLen && BoxOf(c, s, i, j, logits, exp) == b
  }

  /**
   * The boxes a cell stands for, over all its logits, are the boxes inside the image whose edges are within its
   * reach, as long as its bins fit the buffer.
   */
  lemma CellStandsForIff(c: Config, s: nat, i: nat, j: nat, b: Box, exp: real -> real, log: real -> real)
    requires Positive(exp) && IsLog(exp, log) && IsCell(c, s, i, j)
    ensures CanYield(c, s, i, j, b, exp) <==> BufferFits(c) && InUnitSquare(b) && WithinReach(c, s, i, j, b)
  {
    forall logits | |logits| == 4 * c.dflLen && BoxOf(c, s, i, j, logits, exp) == b
      ensures InUnitSquare(b) && WithinReach(c, s, i, j, b)
    {
      BoxIsWithinReach(c, s, i, j, logits, exp);
    }
    if InUnitSquare(b) && WithinReach(c, s, i, j, b) {
      var logits := LogitsFor(c, s, i, j, b, exp, log);
    }
  }

  lemma PartFor(exp: real -> real, log: real -> real, bins: nat, d: real) returns (logits: seq<real>)
    requires Positive(exp) && IsLog(exp, log) && Decodable(bins, d)
    ensures |logits| == bins && Distance(logits, exp) == d
  {
    DecodableIff(exp, log, bins, d);
    logits :| |logits| == bins && Distance(logits, exp) == d;
  }

  lemma LogitsFor(c: Config, s: nat, i: nat, j: nat, b: Box, exp: real -> real, log: real -> real)
    returns (logits: seq<real>)
    requires Positive(exp) && IsLog(exp, log) && IsCell(c, s, i, j) && InUnitSquare(b) && WithinReach(c, s, i, j, b)
    ensures |logits| == 4 * c.dflLen && BoxOf(c, s, i, j, logits, exp) == b
  {
    var left := PartFor(exp, log, c.dflLen, -DistanceTo(b.xMin, j, STRIDES[s], c.inputWidth));
    var top := PartFor(exp, log, c.dflLen, -DistanceTo(b.yMin, i, STRIDES[s], c.inputHeight));
    var right := PartFor(exp, log, c.dflLen, DistanceTo(b.xMax, j, STRIDES[s], c.inputWidth));
    var bottom := PartFor(exp, log, c.dflLen, DistanceTo(b.yMax, i, STRIDES[s], c.inputHeight));
    logits := left + top + right + bottom;
    SidesOfParts(c, left, top, right, bottom, exp);
    DecodeUndoesEncode(c, s, i, j, b);
  }
}
