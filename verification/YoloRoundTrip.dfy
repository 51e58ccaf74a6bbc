/** From a tensor to a box and back: a box that is written into a head of YOLOv5 is found where it was put. */
module YoloRoundTrip {
  import opened Geometry
  import opened GridLayout
  import opened Nms
  import opened RealSums
  import opened Text
  import opened YoloPostprocess

  // ----- reading a head that is given element by element -----

  predicate IsHead(c: Config, s: nat, head: Tensor)
    requires s < 3
  {
    Shaped(head, NUM_ANCHORS, PropSize(c), Cells(c.inputHeight, s), Cells(c.inputWidth, s))
  }

  lemma SizeOfHead(c: Config, s: nat)
    requires s < 3
    ensures Product(Product(Product(NUM_ANCHORS, PropSize(c)), Cells(c.inputHeight, s)), Cells(c.inputWidth, s))
         == ExpectedSize(c, s)
  {
    SizesAgree(NUM_ANCHORS, PropSize(c), Cells(c.inputHeight, s), Cells(c.inputWidth, s));
  }

  lemma SizesAgree(a: nat, p: nat, h: nat, w: nat)
    ensures Product(Product(Product(a, p), h), w) == h * w * a * p
  {
  }

  /** The element that is read for a channel of a cell of an anchor is that of this anchor, channel, row and column. */
  lemma HeadAt(c: Config, s: nat, head: Tensor, a: nat, channel: nat, y: nat, x: nat)
    requires IsCell(c, s, a, y, x) && channel < PropSize(c) && IsHead(c, s, head)
    ensures |Flat(head)| == ExpectedSize(c, s)
    ensures At(c, s, Flat(head), a, channel, y, x) == head[a][channel][y][x]
  {
    var (h, w) := (Cells(c.inputHeight, s), Cells(c.inputWidth, s));
    FlatAt(head, NUM_ANCHORS, PropSize(c), h, w, a, channel, y, x);
    SizeOfHead(c, s);
    ReadIndexIsOffset(c, s, a, channel, y, x);
    NestedOffset(h, w, Offset(PropSize(c), a, channel), y, x);
  }

  // ----- a box written into a head -----

  function ScoresAt(c: Config, s: nat, head: Tensor, a: nat, y: nat, x: nat): (scores: seq<real>)
    requires IsCell(c, s, a, y, x) && IsHead(c, s, head)
    ensures |scores| == c.numClasses
  {
    seq(c.numClasses, n requires 0 <= n < c.numClasses => head[a][5 + n][y][x])
  }

  /** Class k has the highest score, and no class before it has as high a one. */
  predicate IsWinner(scores: seq<real>, k: nat) {
    && k < |scores| && scores[k] > -1.0
    && (forall n | 0 <= n < |scores| :: scores[n] <= scores[k])
    && (forall n | 0 <= n < k :: scores[n] < scores[k])
  }

  /** What a cell should hold for a box of class k: its centre, its size, and scores of which that of k is the best. */
  ghost predicate Holds(c: Config, s: nat, head: Tensor, a: nat, y: nat, x: nat, b: Box, k: nat, sqrt: real -> real)
    requires IsCell(c, s, a, y, x) && IsHead(c, s, head)
  {
    && head[a][0][y][x] == EncodedCenter(b.xMin, b.xMax, c.inputWidth, x, STRIDES[s])
    && head[a][1][y][x] == EncodedCenter(b.yMin, b.yMax, c.inputHeight, y, STRIDES[s])
    && head[a][2][y][x] == EncodedLength(b.xMin, b.xMax, c.inputWidth, ANCHORS[s][a * 2], sqrt)
    && head[a][3][y][x] == EncodedLength(b.yMin, b.yMax, c.inputHeight, ANCHORS[s][a * 2 + 1], sqrt)
    && IsWinner(ScoresAt(c, s, head, a, y, x), k)
  }

  /** Objectness times the score of the class. */
  function Confidence(c: Config, s: nat, head: Tensor, a: nat, y: nat, x: nat, k: nat): real
    requires IsCell(c, s, a, y, x) && IsHead(c, s, head) && k < c.numClasses
  {
    Mul(head[a][4][y][x], ScoresAt(c, s, head, a, y, x)[k])
  }

  lemma ScoresOfHead(c: Config, s: nat, head: Tensor, a: nat, y: nat, x: nat)
    requires IsCell(c, s, a, y, x) && IsHead(c, s, head)
    ensures |Flat(head)| == ExpectedSize(c, s)
    ensures ClassScores(c, s, Flat(head), a, y, x) == ScoresAt(c, s, head, a, y, x)
  {
    HeadAt(c, s, head, a, 0, y, x);
    forall n | 0 <= n < c.numClasses
      ensures ClassScores(c, s, Flat(head), a, y, x)[n] == ScoresAt(c, s, head, a, y, x)[n]
    {
      HeadAt(c, s, head, a, 5 + n, y, x);
    }
  }

  lemma WinnerIsBest(scores: seq<real>, k: nat)
    requires IsWinner(scores, k)
    ensures Best(scores) == (k, scores[k])
  {
    BestMeaning(scores);
    assert AnyAbove(scores);
  }

  lemma ProposalOfHead(c: Config, s: nat, head: Tensor, a: nat, y: nat, x: nat, b: Box, k: nat, sqrt: real -> real)
    requires IsCell(c, s, a, y, x) && IsHead(c, s, head) && InUnitSquare(b) && IsSqrt(sqrt)
    requires Holds(c, s, head, a, y, x, b, k, sqrt)
    ensures |Flat(head)| == ExpectedSize(c, s)
    ensures Proposal(c, s, Flat(head), a, y, x)
         == Detection(k, Label(c.classNames, k), Confidence(c, s, head, a, y, x, k), b)
  {
    ScoresOfHead(c, s, head, a, y, x);
    WinnerIsBest(ScoresAt(c, s, head, a, y, x), k);
    HeadAt(c, s, head, a, 0, y, x);
    HeadAt(c, s, head, a, 1, y, x);
    HeadAt(c, s, head, a, 2, y, x);
    HeadAt(c, s, head, a, 3, y, x);
    HeadAt(c, s, head, a, 4, y, x);
    DecodeUndoesEncode(c, s, a, y, x, b, sqrt);
  }

  /**
   * A box that is written into a cell of any anchor of any head is a candidate, with its class and the product of its
   * two scores, exactly if objectness and product reach the threshold.
   */
  lemma WrittenBoxIsFoundIff(c: Config, raw: seq<seq<real>>, s: nat, head: Tensor, a: nat, y: nat, x: nat,
                             b: Box, k: nat, sqrt: real -> real)
    requires IsCell(c, s, a, y, x) && IsHead(c, s, head) && s < |raw| && raw[s] == Flat(head)
    requires InUnitSquare(b) && IsSqrt(sqrt) && Holds(c, s, head, a, y, x, b, k, sqrt)
    ensures |Flat(head)| == ExpectedSize(c, s)
    ensures var (objectness, confidence) := (head[a][4][y][x], Confidence(c, s, head, a, y, x, k));
      Cell(c, s, Flat(head), a, y, x)
      == if objectness >= c.confidenceThreshold && confidence >= c.confidenceThreshold
         then Some(Detection(k, Label(c.classNames, k), confidence, b)) else None
    ensures Cell(c, s, Flat(head), a, y, x).Some? ==>
      Cell(c, s, Flat(head), a, y, x).value in Candidates(c, raw, Heads(raw))
  {
    ProposalOfHead(c, s, head, a, y, x, b, k, sqrt);
    HeadAt(c, s, head, a, 4, y, x);
    if Cell(c, s, Flat(head), a, y, x).Some? {
      CellIsCandidate(c, raw, s, a, y, x);
    }
  }

  lemma CellIsCandidate(c: Config, raw: seq<seq<real>>, s: nat, a: nat, y: nat, x: nat)
    requires IsCell(c, s, a, y, x) && s < |raw| && |raw[s]| == ExpectedSize(c, s)
    requires Cell(c, s, raw[s], a, y, x).Some?
    ensures Cell(c, s, raw[s], a, y, x).value in Candidates(c, raw, Heads(raw))
  {
    var d := Cell(c, s, raw[s], a, y, x).value;
    assert FromRow(c, s, raw[s], a, y, Cells(c.inputWidth, s), d);
    assert FromRows(c, s, raw[s], a, Cells(c.inputHeight, s), d);
    assert FromAnchors(c, s, raw[s], NUM_ANCHORS, d);
    assert FromHead(c, raw, s, d);
    CandidatesIff(c, raw, Heads(raw), d);
  }

  // ----- boxes in pixels -----

  /** In pixels: the middle lies 2 t - 0.5 cells beyond the cell's lower end, and the length is 4 size^2 anchors. */
  predicate OnAxis(lo: real, hi: real, scale: nat, t: real, size: real, cell: nat, stride: nat, anchor: nat) {
    && (lo + hi) * scale as real == 2.0 * (cell as real + 2.0 * t - 0.5) * stride as real
    && (hi - lo) * scale as real == 4.0 * (size * size) * anchor as real
  }

  /** The four outputs of a box that is not cut off at the border say where it is, in pixels. */
  lemma DecodedInPixels(c: Config, s: nat, a: nat, y: nat, x: nat, tx: real, ty: real, tw: real, th: real)
    requires IsCell(c, s, a, y, x)
    requires var b := Decoded(c, s, a, y, x, tx, ty, tw, th);
      0.0 < b.xMin && b.xMax < 1.0 && 0.0 < b.yMin && b.yMax < 1.0
    ensures var b := Decoded(c, s, a, y, x, tx, ty, tw, th);
      && OnAxis(b.xMin, b.xMax, c.inputWidth, tx, tw, x, STRIDES[s], ANCHORS[s][a * 2])
      && OnAxis(b.yMin, b.yMax, c.inputHeight, ty, th, y, STRIDES[s], ANCHORS[s][a * 2 + 1])
  {
    DecodedInUnitSquare(c, s, a, y, x, tx, ty, tw, th);
    SidesInPixels(tx, tw, x, STRIDES[s], ANCHORS[s][a * 2], c.inputWidth);
    SidesInPixels(ty, th, y, STRIDES[s], ANCHORS[s][a * 2 + 1], c.inputHeight);
  }

  lemma SidesInPixels(t: real, size: real, cell: nat, stride: nat, anchor: nat, scale: nat)
    requires scale > 0
    requires var (center, length) := (Center(t, cell, stride), Length(size, anchor));
      0.0 < Low(center, length, scale) < 1.0 && 0.0 < High(center, length, scale) < 1.0
    ensures var (center, length) := (Center(t, cell, stride), Length(size, anchor));
      OnAxis(Low(center, length, scale), High(center, length, scale), scale, t, size, cell, stride, anchor)
  {
    var (center, length, f) := (Center(t, cell, stride), Length(size, anchor), scale as real);
    var (lo, hi) := ((center - length / 2.0) / f, (center + length / 2.0) / f);
    assert lo * f == center - length / 2.0 && hi * f == center + length / 2.0;
    assert Sq(size * 2.0) == 4.0 * (size * size);
  }
}
