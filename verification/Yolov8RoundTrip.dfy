/** From a tensor to a box and back: a box that is written into the tensors of YOLOv8 is found where it was put. */
module Yolov8RoundTrip {
  import opened Geometry
  import opened GridLayout
  import opened RealSums
  import opened Text
  import opened Yolov8Postprocess

  // ----- the mean bin -----

  /** How far the masses of the bins pull to the right of d: each by its exponential times its distance. */
  function Pull(logits: seq<real>, d: real, exp: real -> real): real
    decreases |logits|
  {
    if logits == [] then 0.0
    else
      var n := |logits| - 1;
      Pull(logits[..n], d, exp) + Mul(exp(logits[n]), n as real - d)
  }

  lemma PullStep(total: real, sum: real, part: real, n: nat, d: real, whole: real)
    requires whole > 0.0
    ensures Mul(total + Times(n, Share(part, whole)), whole) - Mul(d, sum + part)
         == Mul(total, whole) - Mul(d, sum) + Mul(part, n as real - d)
  {
    var share := part / whole;
    assert share * whole == part;
    assert n as real * share * whole == n as real * part;
  }

  lemma {:induction false} PullOfSums(logits: seq<real>, d: real, exp: real -> real, whole: real)
    requires whole > 0.0
    ensures Pull(logits, d, exp) == Mul(WeightedSum(logits, exp, whole), whole) - Mul(d, ExpSum(logits, exp))
    decreases |logits|
  {
    if logits == [] {
      assert Mul(0.0, whole) == 0.0 && Mul(d, 0.0) == 0.0;
    } else {
      var n := |logits| - 1;
      PullOfSums(logits[..n], d, exp, whole);
      PullStep(WeightedSum(logits[..n], exp, whole), ExpSum(logits[..n], exp), exp(logits[n]), n, d, whole);
    }
  }

  lemma OnlyOneBalances(d: real, e: real, whole: real)
    requires whole > 0.0
    ensures Mul(e, whole) - Mul(d, whole) == 0.0 <==> d == e
  {
    assert Mul(e, whole) - Mul(d, whole) == (e - d) * whole;
    if d < e {
      assert (e - d) * whole > 0.0;
    } else if e < d {
      assert (d - e) * whole > 0.0;
    }
  }

  /** The decoded distance is where the bins balance, and the only place where they do. */
  lemma DistanceBalancesIff(logits: seq<real>, d: real, exp: real -> real)
    requires Positive(exp) && logits != []
    ensures Pull(logits, d, exp) == 0.0 <==> d == Distance(logits, exp)
  {
    ExpSumPositive(logits, exp);
    PullOfSums(logits, d, exp, ExpSum(logits, exp));
    OnlyOneBalances(d, Distance(logits, exp), ExpSum(logits, exp));
  }

  // ----- reading tensors that are given element by element -----

  predicate HasShape(c: Config, s: nat, t: Tensor, groups: nat, channels: nat)
    requires s < 3
  {
    Shaped(t, groups, channels, Cells(c.inputHeight, s), Cells(c.inputWidth, s))
  }

  lemma SizesAgree(a: nat, p: nat, h: nat, w: nat)
    ensures Product(Product(Product(a, p), h), w) == (a * p) * (h * w)
  {
  }

  /** The channel that is read for a cell is that of this group, place in the group, row and column. */
  lemma ChannelAt(c: Config, s: nat, t: Tensor, groups: nat, channels: nat, g: nat, k: nat, i: nat, j: nat)
    requires IsCell(c, s, i, j) && HasShape(c, s, t, groups, channels) && g < groups && k < channels
    ensures Covers(c, s, Flat(t), groups * channels) && Offset(channels, g, k) < groups * channels
    ensures Channels(c, s, Flat(t), groups * channels, i, j)[Offset(channels, g, k)] == t[g][k][i][j]
  {
    var (h, w) := (Cells(c.inputHeight, s), Cells(c.inputWidth, s));
    FlatAt(t, groups, channels, h, w, g, k, i, j);
    SizesAgree(groups, channels, h, w);
    OffsetInBounds(channels, groups, g, k);
    NestedOffset(h, w, Offset(channels, g, k), i, j);
  }

  /** The logits of one side of a cell. */
  function SideLogits(c: Config, s: nat, boxes: Tensor, side: nat, i: nat, j: nat): (logits: seq<real>)
    requires IsCell(c, s, i, j) && HasShape(c, s, boxes, 4, c.dflLen) && side < 4
    ensures |logits| == c.dflLen
  {
    seq(c.dflLen, k requires 0 <= k < c.dflLen => boxes[side][k][i][j])
  }

  function ScoresAt(c: Config, s: nat, scores: Tensor, i: nat, j: nat): (r: seq<real>)
    requires IsCell(c, s, i, j) && HasShape(c, s, scores, 1, c.numClasses)
    ensures |r| == c.numClasses
  {
    seq(c.numClasses, k requires 0 <= k < c.numClasses => scores[0][k][i][j])
  }

  lemma {:induction false} SizeOfFlat(c: Config, s: nat, t: Tensor, groups: nat, channels: nat)
    requires s < 3 && HasShape(c, s, t, groups, channels)
    ensures Covers(c, s, Flat(t), groups * channels)
  {
    var (h, w) := (Cells(c.inputHeight, s), Cells(c.inputWidth, s));
    RowsOf(t, groups, channels, h, w);
    ConcatSize(t, channels);
    ConcatSize(Concat(t), h);
    ConcatSize(Concat(Concat(t)), w);
    SizesAgree(groups, channels, h, w);
  }

  lemma SideOfTensor(c: Config, s: nat, boxes: Tensor, side: nat, i: nat, j: nat, exp: real -> real)
    requires Positive(exp) && IsCell(c, s, i, j) && HasShape(c, s, boxes, 4, c.dflLen) && side < 4
    ensures Covers(c, s, Flat(boxes), 4 * c.dflLen)
    ensures Side(c, Channels(c, s, Flat(boxes), 4 * c.dflLen, i, j), side, exp)
         == Distance(SideLogits(c, s, boxes, side, i, j), exp)
  {
    SizeOfFlat(c, s, boxes, 4, c.dflLen);
    var all := Channels(c, s, Flat(boxes), 4 * c.dflLen, i, j);
    var (from, logits) := (SideOffset(side, c.dflLen), SideLogits(c, s, boxes, side, i, j));
    forall k | 0 <= k < c.dflLen ensures all[from + k] == logits[k] {
      ChannelAt(c, s, boxes, 4, c.dflLen, side, k, i, j);
      SameOffset(side, c.dflLen, k);
    }
    SliceIs(all, from, logits);
  }

  lemma SameOffset(side: nat, dflLen: nat, k: nat)
    ensures Offset(dflLen, side, k) == SideOffset(side, dflLen) + k
  {
  }

  lemma SliceIs(all: seq<real>, from: nat, part: seq<real>)
    requires from + |part| <= |all| && forall k | 0 <= k < |part| :: all[from + k] == part[k]
    ensures all[from..from + |part|] == part
  {
  }

  lemma ScoresOfTensor(c: Config, s: nat, scores: Tensor, i: nat, j: nat)
    requires IsCell(c, s, i, j) && HasShape(c, s, scores, 1, c.numClasses)
    ensures Covers(c, s, Flat(scores), c.numClasses)
    ensures Channels(c, s, Flat(scores), c.numClasses, i, j) == ScoresAt(c, s, scores, i, j)
  {
    SizeOfFlat(c, s, scores, 1, c.numClasses);
    forall k | 0 <= k < c.numClasses
      ensures Channels(c, s, Flat(scores), c.numClasses, i, j)[k] == ScoresAt(c, s, scores, i, j)[k]
    {
      ChannelAt(c, s, scores, 1, c.numClasses, 0, k, i, j);
    }
  }

  // ----- a box written into the tensors -----

  /** The four sides decode to the distances from the middle of the cell: left, top, right, bottom. */
  ghost predicate HoldsBox(c: Config, s: nat, boxes: Tensor, i: nat, j: nat, b: Box, exp: real -> real)
    requires Positive(exp) && IsCell(c, s, i, j) && HasShape(c, s, boxes, 4, c.dflLen)
  {
    && Distance(SideLogits(c, s, boxes, 0, i, j), exp) == -DistanceTo(b.xMin, j, STRIDES[s], c.inputWidth)
    && Distance(SideLogits(c, s, boxes, 1, i, j), exp) == -DistanceTo(b.yMin, i, STRIDES[s], c.inputHeight)
    && Distance(SideLogits(c, s, boxes, 2, i, j), exp) == DistanceTo(b.xMax, j, STRIDES[s], c.inputWidth)
    && Distance(SideLogits(c, s, boxes, 3, i, j), exp) == DistanceTo(b.yMax, i, STRIDES[s], c.inputHeight)
  }

  /** Class k has the highest score, and no class before it has as high a one. */
  predicate IsWinner(scores: seq<real>, k: nat) {
    && k < |scores|
    && (forall n | 0 <= n < |scores| :: scores[n] <= scores[k])
    && (forall n | 0 <= n < k :: scores[n] < scores[k])
  }

  lemma WinnerIsBest(scores: seq<real>, k: nat, floor: real)
    requires IsWinner(scores, k)
    ensures var (winner, best) := Best(scores, floor);
      if Qualifies(scores[k], floor) then winner == k && best == scores[k] else winner < 0
  {
    BestMeaning(scores, floor);
    if Qualifies(scores[k], floor) {
      assert SomeQualifies(scores, floor);
    }
  }

  lemma BoxOfTensor(c: Config, s: nat, boxes: Tensor, i: nat, j: nat, b: Box, exp: real -> real)
    requires Positive(exp) && IsCell(c, s, i, j) && HasShape(c, s, boxes, 4, c.dflLen) && InUnitSquare(b)
    requires HoldsBox(c, s, boxes, i, j, b, exp)
    ensures Covers(c, s, Flat(boxes), 4 * c.dflLen)
    ensures var logits := Channels(c, s, Flat(boxes), 4 * c.dflLen, i, j);
      Decoded(c, s, i, j, Side(c, logits, 0, exp), Side(c, logits, 1, exp), Side(c, logits, 2, exp),
              Side(c, logits, 3, exp)) == b
  {
    SideOfTensor(c, s, boxes, 0, i, j, exp);
    SideOfTensor(c, s, boxes, 1, i, j, exp);
    SideOfTensor(c, s, boxes, 2, i, j, exp);
    SideOfTensor(c, s, boxes, 3, i, j, exp);
    DecodeUndoesEncode(c, s, i, j, b);
  }

  /**
   * A box that is written into a cell of any scale is decoded with its class and its score, exactly if the score beats
   * the threshold and 0.
   */
  lemma WrittenBoxIsDecodedIff(c: Config, s: nat, boxes: Tensor, scores: Tensor, i: nat, j: nat, b: Box, k: nat,
                               exp: real -> real)
    requires Positive(exp) && IsCell(c, s, i, j) && InUnitSquare(b)
    requires HasShape(c, s, boxes, 4, c.dflLen) && HasShape(c, s, scores, 1, c.numClasses)
    requires HoldsBox(c, s, boxes, i, j, b, exp) && IsWinner(ScoresAt(c, s, scores, i, j), k)
    ensures Accepted(c, s, Flat(boxes), Flat(scores))
    ensures var score := ScoresAt(c, s, scores, i, j)[k];
      Cell(c, s, Flat(boxes), Flat(scores), i, j, exp)
      == if Qualifies(score, c.confidenceThreshold) then Some(Detection(k, Label(c.classNames, k), score, b)) else None
  {
    BoxOfTensor(c, s, boxes, i, j, b, exp);
    ScoresOfTensor(c, s, scores, i, j);
    WinnerIsBest(ScoresAt(c, s, scores, i, j), k, c.confidenceThreshold);
  }

  /** And then it is one of the candidates that are left to suppression. */
  lemma WrittenBoxIsCandidate(c: Config, raw: seq<seq<real>>, s: nat, boxes: Tensor, scores: Tensor, i: nat, j: nat,
                              b: Box, k: nat, exp: real -> real)
    requires Positive(exp) && |raw| / 3 >= 2 && IsCell(c, s, i, j) && InUnitSquare(b)
    requires HasShape(c, s, boxes, 4, c.dflLen) && HasShape(c, s, scores, 1, c.numClasses)
    requires BoxTensor(raw, s) == Flat(boxes) && ScoreTensor(raw, s) == Flat(scores)
    requires HoldsBox(c, s, boxes, i, j, b, exp) && IsWinner(ScoresAt(c, s, scores, i, j), k)
    requires Qualifies(ScoresAt(c, s, scores, i, j)[k], c.confidenceThreshold)
    ensures Detection(k, Label(c.classNames, k), ScoresAt(c, s, scores, i, j)[k], b) in Candidates(c, raw, 3, exp)
  {
    WrittenBoxIsDecodedIff(c, s, boxes, scores, i, j, b, k, exp);
    CellIsCandidate(c, raw, s, i, j, exp);
  }

  lemma CellIsCandidate(c: Config, raw: seq<seq<real>>, s: nat, i: nat, j: nat, exp: real -> real)
    requires Positive(exp) && |raw| / 3 >= 2 && IsCell(c, s, i, j)
    requires Accepted(c, s, BoxTensor(raw, s), ScoreTensor(raw, s))
    requires Cell(c, s, BoxTensor(raw, s), ScoreTensor(raw, s), i, j, exp).Some?
    ensures Cell(c, s, BoxTensor(raw, s), ScoreTensor(raw, s), i, j, exp).value in Candidates(c, raw, 3, exp)
  {
    var boxes, scores := BoxTensor(raw, s), ScoreTensor(raw, s);
    var d := Cell(c, s, boxes, scores, i, j, exp).value;
    assert FromRow(c, s, boxes, scores, i, Cells(c.inputWidth, s), d, exp);
    assert FromRows(c, s, boxes, scores, Cells(c.inputHeight, s), d, exp);
    assert FromCell(c, raw, 3, d, exp);
    CandidatesIff(c, raw, 3, d, exp);
  }

  // ----- boxes in pixels -----

  /** In pixels, an edge that is not cut off lies its distance, in cells, from the middle of the cell. */
  lemma EdgeInPixels(d: real, cell: nat, stride: nat, scale: nat)
    requires scale > 0 && 0.0 < Edge(d, cell, stride, scale) < 1.0
    ensures Edge(d, cell, stride, scale) * scale as real == (cell as real + 0.5 + d) * stride as real
  {
    var p := Mul(d + cell as real + 0.5, stride as real);
    assert Share(p, scale as real) * scale as real == p;
  }
}
