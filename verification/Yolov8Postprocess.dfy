/** Decoding the outputs of YOLOv8: the distribution of each side of a box is averaged into a distance. */
module Yolov8Postprocess {
  import opened Geometry
  import opened GridLayout
  import opened Nms
  import opened RealSums
  import opened Text

  datatype Config = Config(confidenceThreshold: real, nmsThreshold: real, numClasses: nat,
                           inputWidth: nat, inputHeight: nat, dflLen: nat, classNames: seq<string>)

  // ----- distributions -----

  ghost predicate Positive(exp: real -> real) {
    forall x :: exp(x) > 0.0
  }

  /** Each logit's exponential as a part of the whole. */
  function Share(part: real, whole: real): real
    requires whole != 0.0
  {
    part / whole
  }

  function ExpSum(logits: seq<real>, exp: real -> real): real
    decreases |logits|
  {
    if logits == [] then 0.0 else ExpSum(logits[..|logits| - 1], exp) + exp(logits[|logits| - 1])
  }

  /** The sum of i times the share of logit i. */
  function WeightedSum(logits: seq<real>, exp: real -> real, whole: real): real
    requires whole != 0.0
    decreases |logits|
  {
    if logits == [] then 0.0
    else
      var n := |logits| - 1;
      WeightedSum(logits[..n], exp, whole) + Times(n, Share(exp(logits[n]), whole))
  }

  lemma ExpSumStep(logits: seq<real>, i: nat, exp: real -> real)
    requires i < |logits|
    ensures ExpSum(logits[..i + 1], exp) == ExpSum(logits[..i], exp) + exp(logits[i])
  {
    assert logits[..i + 1][..i] == logits[..i];
  }

  lemma WeightedSumStep(logits: seq<real>, i: nat, exp: real -> real, whole: real)
    requires i < |logits| && whole != 0.0
    ensures WeightedSum(logits[..i + 1], exp, whole)
        == WeightedSum(logits[..i], exp, whole) + Times(i, Share(exp(logits[i]), whole))
  {
    assert logits[..i + 1][..i] == logits[..i];
  }

  lemma {:induction false} ExpSumPositive(logits: seq<real>, exp: real -> real)
    requires Positive(exp) && logits != []
    ensures ExpSum(logits, exp) > 0.0
    decreases |logits|
  {
    var n := |logits| - 1;
    var logit := logits[n];
    assert exp(logit) > 0.0;
    if n > 0 {
      ExpSumPositive(logits[..n], exp);
    } else {
      assert logits[..n] == [];
    }
  }

  /** The mean bin of a distribution; no bins give 0. */
  ghost function Distance(logits: seq<real>, exp: real -> real): real
    requires Positive(exp)
  {
    if logits == [] then 0.0
    else
      ExpSumPositive(logits, exp);
      WeightedSum(logits, exp, ExpSum(logits, exp))
  }

  lemma ShareGrows(sum: real, part: real, whole: real)
    requires whole > 0.0
    ensures Share(sum + part, whole) == Share(sum, whole) + Share(part, whole)
    ensures part > 0.0 ==> Share(part, whole) > 0.0
  {
  }

  lemma WholeShare(n: int, whole: real)
    requires whole > 0.0
    ensures Times(n, Share(whole, whole)) == n as real
  {
    assert whole / whole == 1.0;
  }

  lemma TimesBounds(n: int, m: int, x: real)
    requires 0 <= n <= m && 0.0 <= x
    ensures 0.0 <= Times(n, x) <= Times(m, x)
    ensures n < m && 0.0 < x ==> Times(n, x) < Times(m, x)
    ensures 0 < n && 0.0 < x ==> 0.0 < Times(n, x)
  {
    assert Times(m, x) - Times(n, x) == (m - n) as real * x;
  }

  lemma TimesOfSum(n: int, x: real, y: real)
    ensures Times(n, x + y) == Times(n, x) + Times(n, y)
  {
  }

  /** The weights lie between 0 and the last bin: strictly, once there are two. */
  lemma {:induction false} WeightedSumBounds(logits: seq<real>, exp: real -> real, whole: real)
    requires Positive(exp) && whole > 0.0 && logits != []
    ensures var n := |logits| - 1; var sum := WeightedSum(logits, exp, whole);
      && 0.0 <= sum <= Times(n, Share(ExpSum(logits, exp), whole))
      && (n > 0 ==> 0.0 < sum < Times(n, Share(ExpSum(logits, exp), whole)))
    decreases |logits|
  {
    var n := |logits| - 1;
    var init, part := logits[..n], Share(exp(logits[n]), whole);
    var logit := logits[n];
    assert exp(logit) > 0.0;
    ShareGrows(ExpSum(init, exp), exp(logits[n]), whole);
    TimesOfSum(n, Share(ExpSum(init, exp), whole), part);
    TimesBounds(n, n, part);
    if n > 0 {
      WeightedSumBounds(init, exp, whole);
      ExpSumPositive(init, exp);
      ShareGrows(0.0, ExpSum(init, exp), whole);
      TimesBounds(n - 1, n, Share(ExpSum(init, exp), whole));
    } else {
      assert init == [];
    }
  }

  /**
   * A decoded distance is a weighted mean of the bins, so it lies between the first and the last: inside, if there
   * are two.
   */
  lemma DistanceBounds(logits: seq<real>, exp: real -> real)
    requires Positive(exp) && logits != []
    ensures 0.0 <= Distance(logits, exp) <= (|logits| - 1) as real
    ensures |logits| > 1 ==> 0.0 < Distance(logits, exp) < (|logits| - 1) as real
  {
    ExpSumPositive(logits, exp);
    var whole := ExpSum(logits, exp);
    WeightedSumBounds(logits, exp, whole);
    WholeShare(|logits| - 1, whole);
  }

  // ----- one cell -----

  /** A tensor with this many channels over the grid of scale s. */
  predicate Covers(c: Config, s: nat, tensor: seq<real>, channels: nat)
    requires s < 3
  {
    |tensor| == channels * (Cells(c.inputHeight, s) * Cells(c.inputWidth, s))
  }

  predicate IsCell(c: Config, s: nat, i: nat, j: nat) {
    s < 3 && i < Cells(c.inputHeight, s) && j < Cells(c.inputWidth, s)
  }

  /** channel * grid_len + offset */
  function ReadIndex(c: Config, s: nat, channel: nat, i: nat, j: nat): nat
    requires s < 3
  {
    Offset(Cells(c.inputHeight, s) * Cells(c.inputWidth, s), channel, Offset(Cells(c.inputWidth, s), i, j))
  }

  /** Every read of a tensor of the accepted size is in bounds. */
  lemma ReadsInBounds(c: Config, s: nat, channels: nat, channel: nat, i: nat, j: nat)
    requires IsCell(c, s, i, j) && channel < channels
    ensures ReadIndex(c, s, channel, i, j) < channels * (Cells(c.inputHeight, s) * Cells(c.inputWidth, s))
  {
    OffsetInBounds(Cells(c.inputWidth, s), Cells(c.inputHeight, s), i, j);
    OffsetInBounds(Cells(c.inputHeight, s) * Cells(c.inputWidth, s), channels, channel,
                   Offset(Cells(c.inputWidth, s), i, j));
  }

  /** All channels of a cell, in order. */
  function Channels(c: Config, s: nat, tensor: seq<real>, channels: nat, i: nat, j: nat): (r: seq<real>)
    requires IsCell(c, s, i, j) && Covers(c, s, tensor, channels)
    ensures |r| == channels
  {
    seq(channels, k requires 0 <= k < channels =>
      (ReadsInBounds(c, s, channels, k, i, j); tensor[ReadIndex(c, s, k, i, j)]))
  }

  /** The first class of the highest score above both the floor and 0, and that score; -1 and 0 when there is none. */
  function Best(scores: seq<real>, floor: real): (r: (int, real))
    ensures -1 <= r.0 < |scores|
    decreases |scores|
  {
    if scores == [] then (-1, 0.0)
    else
      var before, last := Best(scores[..|scores| - 1], floor), scores[|scores| - 1];
      if last > floor && last > before.1 then (|scores| - 1, last) else before
  }

  /** A position along an axis, in cells, as a fraction of the input's side. */
  function Fraction(position: real, stride: nat, scale: nat): real
    requires scale > 0
  {
    Share(Mul(position, stride as real), scale as real)
  }

  /** An edge of a box at a signed distance, in cells, from the middle of a cell, kept inside the image. */
  function Edge(distance: real, cell: nat, stride: nat, scale: nat): (r: real)
    requires scale > 0
    ensures 0.0 <= r <= 1.0
  {
    Clamp01(Fraction(distance + cell as real + 0.5, stride, scale))
  }

  function Decoded(c: Config, s: nat, i: nat, j: nat, left: real, top: real, right: real, bottom: real): Box
    requires IsCell(c, s, i, j)
  {
    Box(Edge(-left, j, STRIDES[s], c.inputWidth), Edge(-top, i, STRIDES[s], c.inputHeight),
        Edge(right, j, STRIDES[s], c.inputWidth), Edge(bottom, i, STRIDES[s], c.inputHeight))
  }

  /** Where the distribution of a side starts. */
  function SideOffset(b: nat, dflLen: nat): (k: nat)
    ensures b < 4 ==> k <= 3 * dflLen
  {
    b * dflLen
  }

  /** The decoded distance of one side: 0 left, 1 top, 2 right, 3 bottom. */
  ghost function Side(c: Config, logits: seq<real>, side: nat, exp: real -> real): real
    requires Positive(exp) && side < 4 && |logits| == 4 * c.dflLen
  {
    Distance(logits[SideOffset(side, c.dflLen)..SideOffset(side, c.dflLen) + c.dflLen], exp)
  }

  /** The candidate of a cell, if one of its scores is high enough. */
  ghost function Cell(c: Config, s: nat, boxes: seq<real>, scores: seq<real>, i: nat, j: nat,
                      exp: real -> real): Option<Detection>
    requires Positive(exp) && IsCell(c, s, i, j) && Covers(c, s, boxes, 4 * c.dflLen)
    requires Covers(c, s, scores, c.numClasses)
  {
    var (k, score) := Best(Channels(c, s, scores, c.numClasses, i, j), c.confidenceThreshold);
    var logits := Channels(c, s, boxes, 4 * c.dflLen, i, j);
    if k < 0 then None
    else Some(Detection(k, Label(c.classNames, k), score,
                        Decoded(c, s, i, j, Side(c, logits, 0, exp), Side(c, logits, 1, exp),
                                Side(c, logits, 2, exp), Side(c, logits, 3, exp))))
  }

  // ----- the code -----

  /** The two inner loops of ComputeDFL, for the distribution that starts at from. */
  method MeanBin(tensor: array<real>, from: nat, dflLen: nat, exp: real -> real) returns (accSum: real)
    requires Positive(exp) && from + dflLen <= tensor.Length
    ensures accSum == Distance(tensor[from..from + dflLen], exp)
  {
    ghost var logits := tensor[from..from + dflLen];
    var expSum := 0.0;
    for i := 0 to dflLen
      invariant expSum == ExpSum(logits[..i], exp)
    {
      ExpSumStep(logits, i, exp);
      expSum := expSum + exp(tensor[from + i]);
    }
    assert logits[..dflLen] == logits;
    accSum := 0.0;
    if dflLen > 0 {
      ExpSumPositive(logits, exp);
      for i := 0 to dflLen
        invariant accSum == WeightedSum(logits[..i], exp, expSum)
      {
        WeightedSumStep(logits, i, exp, expSum);
        accSum := accSum + Times(i, Share(exp(tensor[from + i]), expSum));
      }
    }
  }

  method ComputeDFL(tensor: array<real>, dflLen: nat, exp: real -> real, box: array<real>)
    requires Positive(exp) && 4 * dflLen <= tensor.Length && box.Length == 4 && box != tensor
    modifies box
    ensures forall b | 0 <= b < 4 :: SideOffset(b, dflLen) <= tensor.Length - dflLen
    ensures forall b | 0 <= b < 4 ::
        box[b] == Distance(tensor[SideOffset(b, dflLen)..SideOffset(b, dflLen) + dflLen], exp)
  {
    for b := 0 to 4
      invariant forall k | 0 <= k < b ::
        box[k] == Distance(tensor[SideOffset(k, dflLen)..SideOffset(k, dflLen) + dflLen], exp)
    {
      box[b] := MeanBin(tensor, SideOffset(b, dflLen), dflLen, exp);
    }
  }

  predicate Accepted(c: Config, s: nat, boxes: seq<real>, scores: seq<real>)
    requires s < 3
  {
    Covers(c, s, boxes, 4 * c.dflLen) && Covers(c, s, scores, c.numClasses)
  }

  /** The number of distribution values that the buffer of one cell holds. */
  const BUFFER: nat := 64

  /** Otherwise the first cell with a class is written past the end of the buffer. */
  predicate BufferFits(c: Config) {
    4 * c.dflLen <= BUFFER
  }

  method DecodeCell(c: Config, s: nat, boxes: seq<real>, scores: seq<real>, i: nat, j: nat, exp: real -> real)
    returns (overrun: bool, d: Option<Detection>)
    requires Positive(exp) && IsCell(c, s, i, j) && Accepted(c, s, boxes, scores)
    ensures overrun <==> !BufferFits(c) && Cell(c, s, boxes, scores, i, j, exp).Some?
    ensures !overrun ==> d == Cell(c, s, boxes, scores, i, j, exp)
  {
    var maxClassId, maxScore := BestClass(c, s, scores, i, j);
    if maxClassId < 0 {
      return false, None;
    }
    if !BufferFits(c) {
      return true, None;
    }
    var left, top, right, bottom := DecodeSides(c, s, boxes, i, j, exp);
    var box := Decoded(c, s, i, j, left, top, right, bottom);
    return false, Some(Detection(maxClassId, Label(c.classNames, maxClassId), maxScore, box));
  }

  /** The distribution values of a cell are gathered into a buffer of fixed size and averaged side by side. */
  method DecodeSides(c: Config, s: nat, boxes: seq<real>, i: nat, j: nat, exp: real -> real)
    returns (left: real, top: real, right: real, bottom: real)
    requires Positive(exp) && IsCell(c, s, i, j) && Covers(c, s, boxes, 4 * c.dflLen) && 4 * c.dflLen <= BUFFER
    ensures var logits := Channels(c, s, boxes, 4 * c.dflLen, i, j);
      && left == Side(c, logits, 0, exp) && top == Side(c, logits, 1, exp)
      && right == Side(c, logits, 2, exp) && bottom == Side(c, logits, 3, exp)
  {
    var beforeDfl := new real[BUFFER];
    FillBuffer(c, s, boxes, i, j, beforeDfl);
    var box := new real[4];
    ComputeDFL(beforeDfl, c.dflLen, exp, box);
    SidesOfBuffer(c, beforeDfl[..], Channels(c, s, boxes, 4 * c.dflLen, i, j), exp);
    left, top, right, bottom := box[0], box[1], box[2], box[3];
    forall b | 0 <= b < 4
      ensures box[b] == Side(c, Channels(c, s, boxes, 4 * c.dflLen, i, j), b, exp)
    {
      var from := SideOffset(b, c.dflLen);
      assert beforeDfl[..][from..from + c.dflLen] == beforeDfl[from..from + c.dflLen];
    }
  }

  method BestClass(c: Config, s: nat, scores: seq<real>, i: nat, j: nat) returns (maxClassId: int, maxScore: real)
    requires IsCell(c, s, i, j) && Covers(c, s, scores, c.numClasses)
    ensures (maxClassId, maxScore) == Best(Channels(c, s, scores, c.numClasses, i, j), c.confidenceThreshold)
  {
    maxClassId, maxScore := -1, 0.0;
    ghost var all := Channels(c, s, scores, c.numClasses, i, j);
    for k := 0 to c.numClasses
      invariant (maxClassId, maxScore) == Best(all[..k], c.confidenceThreshold)
    {
      ReadsInBounds(c, s, c.numClasses, k, i, j);
      var score := scores[ReadIndex(c, s, k, i, j)];
      assert all[..k + 1][..k] == all[..k];
      if score > c.confidenceThreshold && score > maxScore {
        maxScore := score;
        maxClassId := k;
      }
    }
    assert all[..c.numClasses] == all;
  }

  method FillBuffer(c: Config, s: nat, boxes: seq<real>, i: nat, j: nat, beforeDfl: array<real>)
    requires IsCell(c, s, i, j) && Covers(c, s, boxes, 4 * c.dflLen) && 4 * c.dflLen <= beforeDfl.Length
    modifies beforeDfl
    ensures beforeDfl[..4 * c.dflLen] == Channels(c, s, boxes, 4 * c.dflLen, i, j)
  {
    for k := 0 to 4 * c.dflLen
      invariant forall n | 0 <= n < k :: beforeDfl[n] == Channels(c, s, boxes, 4 * c.dflLen, i, j)[n]
    {
      ReadsInBounds(c, s, 4 * c.dflLen, k, i, j);
      beforeDfl[k] := boxes[ReadIndex(c, s, k, i, j)];
    }
  }

  /** A side read from the buffer is a side read from the channels that filled it. */
  lemma SidesOfBuffer(c: Config, buffer: seq<real>, logits: seq<real>, exp: real -> real)
    requires Positive(exp) && 4 * c.dflLen <= |buffer| && buffer[..4 * c.dflLen] == logits
    ensures forall b | 0 <= b < 4 ::
      Distance(buffer[SideOffset(b, c.dflLen)..SideOffset(b, c.dflLen) + c.dflLen], exp) == Side(c, logits, b, exp)
  {
    forall b | 0 <= b < 4
      ensures Distance(buffer[SideOffset(b, c.dflLen)..SideOffset(b, c.dflLen) + c.dflLen], exp)
          == Side(c, logits, b, exp)
    {
      var from := SideOffset(b, c.dflLen);
      assert logits[from..from + c.dflLen] == buffer[from..from + c.dflLen];
    }
  }

  // ----- all cells, in the order of the loops -----

  /** The candidates of the first n cells of a row. */
  ghost function InRow(c: Config, s: nat, boxes: seq<real>, scores: seq<real>, i: nat, n: nat,
                       exp: real -> real): seq<Detection>
    requires Positive(exp) && s < 3 && Accepted(c, s, boxes, scores) && i < Cells(c.inputHeight, s)
    requires n <= Cells(c.inputWidth, s)
  {
    if n == 0 then []
    else Listed(InRow(c, s, boxes, scores, i, n - 1, exp), Cell(c, s, boxes, scores, i, n - 1, exp))
  }

  /** The candidates of the first n rows of a scale. */
  ghost function InRows(c: Config, s: nat, boxes: seq<real>, scores: seq<real>, n: nat,
                        exp: real -> real): seq<Detection>
    requires Positive(exp) && s < 3 && Accepted(c, s, boxes, scores) && n <= Cells(c.inputHeight, s)
  {
    if n == 0 then []
    else InRows(c, s, boxes, scores, n - 1, exp) + InRow(c, s, boxes, scores, n - 1, Cells(c.inputWidth, s), exp)
  }

  /** The candidates of one scale, none if it is skipped. */
  ghost function InScale(c: Config, raw: seq<seq<real>>, s: nat, exp: real -> real): seq<Detection>
    requires Positive(exp) && |raw| / 3 >= 2 && s < 3
  {
    var boxes, scores := BoxTensor(raw, s), ScoreTensor(raw, s);
    if Accepted(c, s, boxes, scores) then InRows(c, s, boxes, scores, Cells(c.inputHeight, s), exp) else []
  }

  /**
   * The candidates of the first n scales, each with its box tensor and score tensor; a scale of another size is
   * skipped.
   */
  ghost function Candidates(c: Config, raw: seq<seq<real>>, n: nat, exp: real -> real): seq<Detection>
    requires Positive(exp) && |raw| / 3 >= 2 && n <= 3
  {
    if n == 0 then []
    else Candidates(c, raw, n - 1, exp) + InScale(c, raw, n - 1, exp)
  }

  function BoxTensor(raw: seq<seq<real>>, s: nat): seq<real>
    requires |raw| / 3 >= 2 && s < 3
  {
    BranchesExist(raw, s);
    raw[s * (|raw| / 3)]
  }

  function ScoreTensor(raw: seq<seq<real>>, s: nat): seq<real>
    requires |raw| / 3 >= 2 && s < 3
  {
    BranchesExist(raw, s);
    raw[s * (|raw| / 3) + 1]
  }

  /** With two outputs or more to a scale, every scale has its pair: the check that breaks off the loop never fires. */
  lemma BranchesExist(raw: seq<seq<real>>, s: nat)
    requires |raw| / 3 >= 2 && s < 3
    ensures s * (|raw| / 3) < s * (|raw| / 3) + 1 < |raw|
  {
    var n := |raw| / 3;
    assert s == 0 || s == 1 || s == 2;
  }

  lemma NextInRow(c: Config, s: nat, boxes: seq<real>, scores: seq<real>, i: nat, j: nat, exp: real -> real)
    requires Positive(exp) && s < 3 && Accepted(c, s, boxes, scores) && IsCell(c, s, i, j)
    ensures InRow(c, s, boxes, scores, i, j + 1, exp)
         == Listed(InRow(c, s, boxes, scores, i, j, exp), Cell(c, s, boxes, scores, i, j, exp))
  {
  }

  lemma {:induction false} RowGrows(c: Config, s: nat, boxes: seq<real>, scores: seq<real>, i: nat, m: nat, n: nat,
                                    exp: real -> real)
    requires Positive(exp) && s < 3 && Accepted(c, s, boxes, scores) && i < Cells(c.inputHeight, s)
    requires m <= n <= Cells(c.inputWidth, s)
    ensures |InRow(c, s, boxes, scores, i, m, exp)| <= |InRow(c, s, boxes, scores, i, n, exp)|
    decreases n
  {
    if m < n {
      RowGrows(c, s, boxes, scores, i, m, n - 1, exp);
      NextInRow(c, s, boxes, scores, i, n - 1, exp);
    }
  }

  lemma {:induction false} RowsGrowToo(c: Config, s: nat, boxes: seq<real>, scores: seq<real>, m: nat, n: nat,
                                       exp: real -> real)
    requires Positive(exp) && s < 3 && Accepted(c, s, boxes, scores) && m <= n <= Cells(c.inputHeight, s)
    ensures |InRows(c, s, boxes, scores, m, exp)| <= |InRows(c, s, boxes, scores, n, exp)|
    decreases n
  {
    if m < n {
      RowsGrowToo(c, s, boxes, scores, m, n - 1, exp);
    }
  }

  lemma {:induction false} CandidatesGrow(c: Config, raw: seq<seq<real>>, m: nat, n: nat, exp: real -> real)
    requires Positive(exp) && |raw| / 3 >= 2 && m <= n <= 3
    ensures |Candidates(c, raw, m, exp)| <= |Candidates(c, raw, n, exp)|
    decreases n
  {
    if m < n {
      CandidatesGrow(c, raw, m, n - 1, exp);
    }
  }

  /** A candidate in the next cell makes the whole row non-empty. */
  lemma CandidateInRow(c: Config, s: nat, boxes: seq<real>, scores: seq<real>, i: nat, j: nat, exp: real -> real)
    requires Positive(exp) && s < 3 && Accepted(c, s, boxes, scores) && IsCell(c, s, i, j)
    ensures Cell(c, s, boxes, scores, i, j, exp).Some? ==>
      InRow(c, s, boxes, scores, i, Cells(c.inputWidth, s), exp) != []
  {
    NextInRow(c, s, boxes, scores, i, j, exp);
    RowGrows(c, s, boxes, scores, i, j + 1, Cells(c.inputWidth, s), exp);
  }

  method DecodeRow(c: Config, s: nat, boxes: seq<real>, scores: seq<real>, i: nat, found: seq<Detection>,
                   exp: real -> real)
    returns (overrun: bool, candidates: seq<Detection>)
    requires Positive(exp) && s < 3 && Accepted(c, s, boxes, scores) && i < Cells(c.inputHeight, s)
    ensures overrun <==> !BufferFits(c) && InRow(c, s, boxes, scores, i, Cells(c.inputWidth, s), exp) != []
    ensures !overrun ==> candidates == found + InRow(c, s, boxes, scores, i, Cells(c.inputWidth, s), exp)
  {
    candidates := found;
    for j := 0 to Cells(c.inputWidth, s)
      invariant candidates == found + InRow(c, s, boxes, scores, i, j, exp)
      invariant BufferFits(c) || InRow(c, s, boxes, scores, i, j, exp) == []
    {
      var d;
      overrun, d := DecodeCell(c, s, boxes, scores, i, j, exp);
      if overrun {
        CandidateInRow(c, s, boxes, scores, i, j, exp);
        return;
      }
      NextInRow(c, s, boxes, scores, i, j, exp);
      ListedBehind(found, InRow(c, s, boxes, scores, i, j, exp), d);
      if d.Some? {
        candidates := candidates + [d.value];
      }
    }
    overrun := false;
  }

  method DecodeScale(c: Config, s: nat, boxes: seq<real>, scores: seq<real>, found: seq<Detection>, exp: real -> real)
    returns (overrun: bool, candidates: seq<Detection>)
    requires Positive(exp) && s < 3 && Accepted(c, s, boxes, scores)
    ensures overrun <==> !BufferFits(c) && InRows(c, s, boxes, scores, Cells(c.inputHeight, s), exp) != []
    ensures !overrun ==> candidates == found + InRows(c, s, boxes, scores, Cells(c.inputHeight, s), exp)
  {
    candidates := found;
    for i := 0 to Cells(c.inputHeight, s)
      invariant candidates == found + InRows(c, s, boxes, scores, i, exp)
      invariant BufferFits(c) || InRows(c, s, boxes, scores, i, exp) == []
    {
      overrun, candidates := DecodeRow(c, s, boxes, scores, i, candidates, exp);
      if overrun {
        RowsGrowToo(c, s, boxes, scores, i + 1, Cells(c.inputHeight, s), exp);
        return;
      }
      Regroup(found, InRows(c, s, boxes, scores, i, exp), InRow(c, s, boxes, scores, i, Cells(c.inputWidth, s), exp));
    }
    overrun := false;
  }

  lemma NextScale(c: Config, raw: seq<seq<real>>, s: nat, exp: real -> real)
    requires Positive(exp) && |raw| / 3 >= 2 && s < 3
    ensures Candidates(c, raw, s + 1, exp) == Candidates(c, raw, s, exp) + InScale(c, raw, s, exp)
    ensures InScale(c, raw, s, exp) != [] ==> Candidates(c, raw, 3, exp) != []
  {
    CandidatesGrow(c, raw, s + 1, 3, exp);
  }

  /** The loop body of Process: one scale, skipped if a tensor has another size. */
  method DecodeIfAccepted(c: Config, raw: seq<seq<real>>, s: nat, found: seq<Detection>, exp: real -> real)
    returns (overrun: bool, candidates: seq<Detection>)
    requires Positive(exp) && |raw| / 3 >= 2 && s < 3
    ensures overrun <==> !BufferFits(c) && InScale(c, raw, s, exp) != []
    ensures !overrun ==> candidates == found + InScale(c, raw, s, exp)
  {
    var boxes, scores := BoxTensor(raw, s), ScoreTensor(raw, s);
    if !Accepted(c, s, boxes, scores) {
      return false, found;
    }
    overrun, candidates := DecodeScale(c, s, boxes, scores, found, exp);
  }

  /**
   * The result is the suppression of the candidates, unless some score qualifies and the bins do not fit the buffer.
   */
  method Process(c: Config, rawOutputs: seq<seq<real>>, exp: real -> real)
    returns (overrun: bool, result: seq<Detection>)
    requires Positive(exp)
    ensures |rawOutputs| / 3 < 2 ==> !overrun && result == []
    ensures |rawOutputs| / 3 >= 2 ==> (overrun <==> !BufferFits(c) && SomeScoreQualifies(c, rawOutputs))
    ensures |rawOutputs| / 3 >= 2 && !overrun ==> Suppressed(Candidates(c, rawOutputs, 3, exp), c.nmsThreshold, result)
  {
    var outputsPerBranch := |rawOutputs| / 3;
    if outputsPerBranch < 2 {
      return false, [];
    }
    CandidatesExistIff(c, rawOutputs, exp);
    var candidates := [];
    for s := 0 to 3
      invariant candidates == Candidates(c, rawOutputs, s, exp)
      invariant BufferFits(c) || candidates == []
    {
      NextScale(c, rawOutputs, s, exp);
      overrun, candidates := DecodeIfAccepted(c, rawOutputs, s, candidates, exp);
      if overrun {
        return true, [];
      }
    }
    var all := new Detection[|candidates|](k requires 0 <= k < |candidates| => candidates[k]);
    assert all[..] == candidates;
    result := NMS(all, c.nmsThreshold);
    overrun := false;
  }

  // ----- what a cell yields -----

  predicate Qualifies(score: real, floor: real) {
    score > floor && score > 0.0
  }

  ghost predicate SomeQualifies(scores: seq<real>, floor: real) {
    exists i :: 0 <= i < |scores| && Qualifies(scores[i], floor)
  }

  /** The class loop has found (k, best), the first of the highest scores. */
  predicate IsBest(scores: seq<real>, floor: real, k: int, best: real) {
    && k < |scores|
    && (if k >= 0 then best == scores[k] && Qualifies(best, floor) else best == 0.0)
    && (forall i | 0 <= i < |scores| && Qualifies(scores[i], floor) :: scores[i] <= best)
    && (forall i | 0 <= i < k :: scores[i] < best)
  }

  lemma BestStep(scores: seq<real>, last: real, floor: real, k: int, best: real)
    requires IsBest(scores, floor, k, best)
    ensures last > floor && last > best ==> IsBest(scores + [last], floor, |scores|, last)
    ensures !(last > floor && last > best) ==> IsBest(scores + [last], floor, k, best)
  {
  }

  lemma {:induction false} BestIsBest(scores: seq<real>, floor: real)
    ensures IsBest(scores, floor, Best(scores, floor).0, Best(scores, floor).1)
    decreases |scores|
  {
    if scores != [] {
      var init := scores[..|scores| - 1];
      BestIsBest(init, floor);
      BestStep(init, scores[|scores| - 1], floor, Best(init, floor).0, Best(init, floor).1);
      assert scores == init + [scores[|scores| - 1]];
    }
  }

  /** A class is found exactly when some score beats both the floor and 0, and then it is the first of the highest. */
  lemma BestMeaning(scores: seq<real>, floor: real)
    ensures var (k, best) := Best(scores, floor);
      && (k >= 0 <==> SomeQualifies(scores, floor))
      && (k >= 0 ==> best == scores[k] && Qualifies(best, floor) && forall i | 0 <= i < k :: scores[i] < best)
      && (forall i | 0 <= i < |scores| && Qualifies(scores[i], floor) :: scores[i] <= best)
      && (k < 0 ==> best == 0.0)
  {
    BestIsBest(scores, floor);
  }

  /** A decoded distance lies between the first bin and the last, inside if there are two; with fewer it is 0. */
  lemma SideBounds(c: Config, logits: seq<real>, side: nat, exp: real -> real)
    requires Positive(exp) && side < 4 && |logits| == 4 * c.dflLen
    ensures c.dflLen > 1 ==> 0.0 < Side(c, logits, side, exp) < (c.dflLen - 1) as real
    ensures c.dflLen <= 1 ==> Side(c, logits, side, exp) == 0.0
  {
    var part := logits[SideOffset(side, c.dflLen)..SideOffset(side, c.dflLen) + c.dflLen];
    if part != [] {
      DistanceBounds(part, exp);
    }
  }

  lemma FractionMonotone(p: real, q: real, stride: nat, scale: nat)
    requires p <= q && stride > 0 && scale > 0
    ensures Fraction(p, stride, scale) <= Fraction(q, stride, scale)
    ensures p < q ==> Fraction(p, stride, scale) < Fraction(q, stride, scale)
  {
    ScaledMonotone(p, q, stride as real);
    ShareMonotone(Mul(p, stride as real), Mul(q, stride as real), scale as real);
  }

  lemma ScaledMonotone(p: real, q: real, k: real)
    requires p <= q && k > 0.0
    ensures Mul(p, k) <= Mul(q, k)
    ensures p < q ==> Mul(p, k) < Mul(q, k)
  {
    assert Mul(q, k) - Mul(p, k) == (q - p) * k;
  }

  lemma ShareMonotone(p: real, q: real, k: real)
    requires p <= q && k > 0.0
    ensures Share(p, k) <= Share(q, k)
    ensures p < q ==> Share(p, k) < Share(q, k)
  {
    assert Share(q, k) * k == q && Share(p, k) * k == p;
  }

  lemma CellEndsInside(cell: nat, stride: nat, scale: nat)
    requires stride > 0 && cell < scale / stride
    ensures Mul((cell + 1) as real, stride as real) <= scale as real
  {
    RowsGrow(stride, cell + 1, scale / stride);
    assert ((cell + 1) * stride) as real == Mul((cell + 1) as real, stride as real);
  }

  /** The middle of a cell lies strictly inside the image. */
  lemma MiddleIsInside(cell: nat, stride: nat, scale: nat)
    requires stride > 0 && scale > 0 && cell < scale / stride
    ensures 0.0 < Fraction(cell as real + 0.5, stride, scale) < 1.0
  {
    CellEndsInside(cell, stride, scale);
    FractionMonotone(0.0, cell as real + 0.5, stride, scale);
    FractionMonotone(cell as real + 0.5, (cell + 1) as real, stride, scale);
    ShareMonotone(Mul((cell + 1) as real, stride as real), scale as real, scale as real);
    Ends(stride as real, scale as real);
  }

  lemma Ends(p: real, q: real)
    requires q > 0.0
    ensures Share(Mul(0.0, p), q) == 0.0 && Share(q, q) == 1.0
  {
  }

  /**
   * Along an axis, a box reaches from its cell's middle to both sides, and has extent exactly if one of its distances
   * does.
   */
  lemma EdgesAroundMiddle(before: real, after: real, cell: nat, stride: nat, scale: nat)
    requires before >= 0.0 && after >= 0.0 && stride > 0 && scale > 0 && cell < scale / stride
    ensures Edge(-before, cell, stride, scale) <= Fraction(cell as real + 0.5, stride, scale)
        <= Edge(after, cell, stride, scale)
    ensures Edge(-before, cell, stride, scale) < Edge(after, cell, stride, scale) <==> before > 0.0 || after > 0.0
  {
    var middle := cell as real + 0.5;
    MiddleIsInside(cell, stride, scale);
    FractionMonotone(-before + cell as real + 0.5, middle, stride, scale);
    FractionMonotone(middle, after + cell as real + 0.5, stride, scale);
  }

  predicate Contains(b: Box, x: real, y: real) {
    b.xMin <= x <= b.xMax && b.yMin <= y <= b.yMax
  }

  /**
   * A decoded box lies inside the image around the middle of its cell, and has area exactly if there are two bins or
   * more.
   */
  lemma BoxAroundItsCell(c: Config, s: nat, i: nat, j: nat, logits: seq<real>, exp: real -> real)
    requires Positive(exp) && IsCell(c, s, i, j) && |logits| == 4 * c.dflLen
    ensures var b := Decoded(c, s, i, j, Side(c, logits, 0, exp), Side(c, logits, 1, exp), Side(c, logits, 2, exp),
                             Side(c, logits, 3, exp));
      && InUnitSquare(b)
      && Contains(b, Fraction(j as real + 0.5, STRIDES[s], c.inputWidth),
                  Fraction(i as real + 0.5, STRIDES[s], c.inputHeight))
      && (b.xMin < b.xMax && b.yMin < b.yMax <==> c.dflLen >= 2)
  {
    SideBounds(c, logits, 0, exp);
    SideBounds(c, logits, 1, exp);
    SideBounds(c, logits, 2, exp);
    SideBounds(c, logits, 3, exp);
    EdgesAroundMiddle(Side(c, logits, 0, exp), Side(c, logits, 2, exp), j, STRIDES[s], c.inputWidth);
    EdgesAroundMiddle(Side(c, logits, 1, exp), Side(c, logits, 3, exp), i, STRIDES[s], c.inputHeight);
  }

  // ----- the distances that training uses, and their inverse -----

  /** How far, in cells, a position of an axis lies beyond the middle of a cell. */
  function DistanceTo(position: real, cell: nat, stride: nat, scale: nat): real
    requires stride > 0
  {
    position * scale as real / stride as real - cell as real - 0.5
  }

  lemma EdgeRoundTrip(position: real, cell: nat, stride: nat, scale: nat)
    requires stride > 0 && scale > 0 && 0.0 <= position <= 1.0
    ensures Edge(DistanceTo(position, cell, stride, scale), cell, stride, scale) == position
  {
    var p := position * scale as real;
    assert DistanceTo(position, cell, stride, scale) + cell as real + 0.5 == p / stride as real;
    assert p / stride as real * stride as real == p;
    assert p / scale as real == position;
  }

  /** Decoding undoes encoding: every box inside the image comes back from any cell, corner by corner. */
  lemma DecodeUndoesEncode(c: Config, s: nat, i: nat, j: nat, b: Box)
    requires IsCell(c, s, i, j) && InUnitSquare(b)
    ensures Decoded(c, s, i, j, -DistanceTo(b.xMin, j, STRIDES[s], c.inputWidth),
                    -DistanceTo(b.yMin, i, STRIDES[s], c.inputHeight),
                    DistanceTo(b.xMax, j, STRIDES[s], c.inputWidth),
                    DistanceTo(b.yMax, i, STRIDES[s], c.inputHeight)) == b
  {
    EdgeRoundTrip(b.xMin, j, STRIDES[s], c.inputWidth);
    EdgeRoundTrip(b.yMin, i, STRIDES[s], c.inputHeight);
    EdgeRoundTrip(b.xMax, j, STRIDES[s], c.inputWidth);
    EdgeRoundTrip(b.yMax, i, STRIDES[s], c.inputHeight);
  }

  // ----- which boxes come out -----

  /** Some cell of some scale of the accepted sizes yields d. */
  ghost predicate FromCell(c: Config, raw: seq<seq<real>>, n: nat, d: Detection, exp: real -> real)
    requires Positive(exp) && |raw| / 3 >= 2 && n <= 3
  {
    exists s | 0 <= s < n && Accepted(c, s, BoxTensor(raw, s), ScoreTensor(raw, s)) ::
      FromRows(c, s, BoxTensor(raw, s), ScoreTensor(raw, s), Cells(c.inputHeight, s), d, exp)
  }

  ghost predicate FromRows(c: Config, s: nat, boxes: seq<real>, scores: seq<real>, n: nat, d: Detection,
                           exp: real -> real)
    requires Positive(exp) && s < 3 && Accepted(c, s, boxes, scores) && n <= Cells(c.inputHeight, s)
  {
    exists i | 0 <= i < n :: FromRow(c, s, boxes, scores, i, Cells(c.inputWidth, s), d, exp)
  }

  ghost predicate FromRow(c: Config, s: nat, boxes: seq<real>, scores: seq<real>, i: nat, n: nat, d: Detection,
                          exp: real -> real)
    requires Positive(exp) && s < 3 && Accepted(c, s, boxes, scores) && i < Cells(c.inputHeight, s)
    requires n <= Cells(c.inputWidth, s)
  {
    exists j | 0 <= j < n :: Cell(c, s, boxes, scores, i, j, exp) == Some(d)
  }

  lemma RowStep(c: Config, s: nat, boxes: seq<real>, scores: seq<real>, i: nat, n: nat, d: Detection, exp: real -> real)
    requires Positive(exp) && s < 3 && Accepted(c, s, boxes, scores) && i < Cells(c.inputHeight, s)
    requires n < Cells(c.inputWidth, s)
    ensures FromRow(c, s, boxes, scores, i, n + 1, d, exp)
       <==> FromRow(c, s, boxes, scores, i, n, d, exp) || Cell(c, s, boxes, scores, i, n, exp) == Some(d)
  {
  }

  lemma {:induction false} RowMembers(c: Config, s: nat, boxes: seq<real>, scores: seq<real>, i: nat, n: nat,
                                      d: Detection, exp: real -> real)
    requires Positive(exp) && s < 3 && Accepted(c, s, boxes, scores) && i < Cells(c.inputHeight, s)
    requires n <= Cells(c.inputWidth, s)
    ensures d in InRow(c, s, boxes, scores, i, n, exp) <==> FromRow(c, s, boxes, scores, i, n, d, exp)
  {
    if n > 0 {
      RowMembers(c, s, boxes, scores, i, n - 1, d, exp);
      RowStep(c, s, boxes, scores, i, n - 1, d, exp);
      ListedMembers(InRow(c, s, boxes, scores, i, n - 1, exp), Cell(c, s, boxes, scores, i, n - 1, exp), d);
    }
  }

  lemma RowsStep(c: Config, s: nat, boxes: seq<real>, scores: seq<real>, n: nat, d: Detection, exp: real -> real)
    requires Positive(exp) && s < 3 && Accepted(c, s, boxes, scores) && n < Cells(c.inputHeight, s)
    ensures FromRows(c, s, boxes, scores, n + 1, d, exp)
       <==> FromRows(c, s, boxes, scores, n, d, exp) || FromRow(c, s, boxes, scores, n, Cells(c.inputWidth, s), d, exp)
  {
  }

  lemma InRowsStep(c: Config, s: nat, boxes: seq<real>, scores: seq<real>, n: nat, d: Detection, exp: real -> real)
    requires Positive(exp) && s < 3 && Accepted(c, s, boxes, scores) && n < Cells(c.inputHeight, s)
    ensures d in InRows(c, s, boxes, scores, n + 1, exp)
       <==> d in InRows(c, s, boxes, scores, n, exp) || d in InRow(c, s, boxes, scores, n, Cells(c.inputWidth, s), exp)
  {
  }

  lemma {:induction false} RowsMembers(c: Config, s: nat, boxes: seq<real>, scores: seq<real>, n: nat,
                                       d: Detection, exp: real -> real)
    requires Positive(exp) && s < 3 && Accepted(c, s, boxes, scores) && n <= Cells(c.inputHeight, s)
    ensures d in InRows(c, s, boxes, scores, n, exp) <==> FromRows(c, s, boxes, scores, n, d, exp)
  {
    if n > 0 {
      RowsMembers(c, s, boxes, scores, n - 1, d, exp);
      RowMembers(c, s, boxes, scores, n - 1, Cells(c.inputWidth, s), d, exp);
      RowsStep(c, s, boxes, scores, n - 1, d, exp);
      InRowsStep(c, s, boxes, scores, n - 1, d, exp);
    }
  }

  /** The candidates are what the cells of the scales of the accepted sizes yield, and nothing else. */
  lemma {:induction false} CandidatesIff(c: Config, raw: seq<seq<real>>, n: nat, d: Detection, exp: real -> real)
    requires Positive(exp) && |raw| / 3 >= 2 && n <= 3
    ensures d in Candidates(c, raw, n, exp) <==> FromCell(c, raw, n, d, exp)
  {
    if n > 0 {
      CandidatesIff(c, raw, n - 1, d, exp);
      var boxes, scores := BoxTensor(raw, n - 1), ScoreTensor(raw, n - 1);
      if Accepted(c, n - 1, boxes, scores) {
        RowsMembers(c, n - 1, boxes, scores, Cells(c.inputHeight, n - 1), d, exp);
      }
    }
  }

  // ----- when there is a candidate at all -----

  /** Some class of the cell has a score that is high enough. */
  ghost predicate ScoreQualifies(c: Config, s: nat, scores: seq<real>, i: nat, j: nat)
    requires IsCell(c, s, i, j) && Covers(c, s, scores, c.numClasses)
  {
    SomeQualifies(Channels(c, s, scores, c.numClasses, i, j), c.confidenceThreshold)
  }

  ghost predicate ScaleQualifies(c: Config, s: nat, boxes: seq<real>, scores: seq<real>)
    requires s < 3
  {
    Accepted(c, s, boxes, scores)
    && exists i: nat, j: nat :: IsCell(c, s, i, j) && ScoreQualifies(c, s, scores, i, j)
  }

  /** Some score of an accepted scale is high enough: a look at the tensors, before any box is decoded. */
  ghost predicate SomeScoreQualifies(c: Config, raw: seq<seq<real>>)
    requires |raw| / 3 >= 2
  {
    exists s: nat :: s < 3 && ScaleQualifies(c, s, BoxTensor(raw, s), ScoreTensor(raw, s))
  }

  lemma CellExistsIff(c: Config, s: nat, boxes: seq<real>, scores: seq<real>, i: nat, j: nat, exp: real -> real)
    requires Positive(exp) && IsCell(c, s, i, j) && Accepted(c, s, boxes, scores)
    ensures Cell(c, s, boxes, scores, i, j, exp).Some? <==> ScoreQualifies(c, s, scores, i, j)
  {
    BestMeaning(Channels(c, s, scores, c.numClasses, i, j), c.confidenceThreshold);
  }

  lemma ScaleHasCandidate(c: Config, raw: seq<seq<real>>, s: nat, exp: real -> real) returns (d: Detection)
    requires Positive(exp) && |raw| / 3 >= 2 && s < 3 && ScaleQualifies(c, s, BoxTensor(raw, s), ScoreTensor(raw, s))
    ensures FromCell(c, raw, 3, d, exp)
  {
    var boxes, scores := BoxTensor(raw, s), ScoreTensor(raw, s);
    var i: nat, j: nat :| IsCell(c, s, i, j) && ScoreQualifies(c, s, scores, i, j);
    CellExistsIff(c, s, boxes, scores, i, j, exp);
    d := Cell(c, s, boxes, scores, i, j, exp).value;
    assert FromRow(c, s, boxes, scores, i, Cells(c.inputWidth, s), d, exp);
    assert FromRows(c, s, boxes, scores, Cells(c.inputHeight, s), d, exp);
  }

  lemma CandidateHasScale(c: Config, raw: seq<seq<real>>, d: Detection, exp: real -> real)
    requires Positive(exp) && |raw| / 3 >= 2 && FromCell(c, raw, 3, d, exp)
    ensures SomeScoreQualifies(c, raw)
  {
    var s :| 0 <= s < 3 && Accepted(c, s, BoxTensor(raw, s), ScoreTensor(raw, s))
          && FromRows(c, s, BoxTensor(raw, s), ScoreTensor(raw, s), Cells(c.inputHeight, s), d, exp);
    var boxes, scores := BoxTensor(raw, s), ScoreTensor(raw, s);
    var i :| 0 <= i < Cells(c.inputHeight, s) && FromRow(c, s, boxes, scores, i, Cells(c.inputWidth, s), d, exp);
    var j :| 0 <= j < Cells(c.inputWidth, s) && Cell(c, s, boxes, scores, i, j, exp) == Some(d);
    CellExistsIff(c, s, boxes, scores, i, j, exp);
    assert IsCell(c, s, i, j) && ScaleQualifies(c, s, boxes, scores);
  }

  /** There is a candidate exactly if some score of an accepted scale beats the threshold and 0. */
  lemma CandidatesExistIff(c: Config, raw: seq<seq<real>>, exp: real -> real)
    requires Positive(exp) && |raw| / 3 >= 2
    ensures Candidates(c, raw, 3, exp) != [] <==> SomeScoreQualifies(c, raw)
  {
    if SomeScoreQualifies(c, raw) {
      var s: nat :| s < 3 && ScaleQualifies(c, s, BoxTensor(raw, s), ScoreTensor(raw, s));
      var d := ScaleHasCandidate(c, raw, s, exp);
      CandidatesIff(c, raw, 3, d, exp);
    }
    if Candidates(c, raw, 3, exp) != [] {
      var d := Candidates(c, raw, 3, exp)[0];
      CandidatesIff(c, raw, 3, d, exp);
      CandidateHasScale(c, raw, d, exp);
    }
  }

  lemma OneCell(c: Config, boxes: seq<real>, score: real)
    requires c.inputWidth == c.inputHeight == 8 && c.numClasses == 1 && |boxes| == 4 * c.dflLen
    requires Qualifies(score, c.confidenceThreshold)
    ensures ScaleQualifies(c, 0, boxes, [score])
  {
    assert Cells(8, 0) == 1;
    assert IsCell(c, 0, 0, 0) && Covers(c, 0, [score], 1);
    assert Channels(c, 0, [score], 1, 0, 0)[0] == score;
  }

  const WITNESS := Config(0.5, 0.45, 1, 8, 8, 17, [])

  /** One class, 17 bins, an image of one cell: whatever the box tensor holds, a score of 0.9 overruns the buffer. */
  lemma SeventeenBinsOverrun(boxes: seq<real>)
    requires |boxes| == 68
    ensures !BufferFits(WITNESS) && SomeScoreQualifies(WITNESS, [boxes, [0.9], [], [], [], []])
  {
    var raw := [boxes, [0.9], [], [], [], []];
    OneCell(WITNESS, boxes, 0.9);
    assert BoxTensor(raw, 0) == boxes && ScoreTensor(raw, 0) == [0.9];
  }

  /** Every candidate lies inside the image, beats the threshold and has area if there are two bins or more. */
  lemma CandidatesAreSound(c: Config, raw: seq<seq<real>>, n: nat, d: Detection, exp: real -> real)
    requires Positive(exp) && |raw| / 3 >= 2 && n <= 3 && FromCell(c, raw, n, d, exp)
    ensures InUnitSquare(d.box) && Qualifies(d.confidence, c.confidenceThreshold)
        && d.className == Label(c.classNames, d.classId)
    ensures d.box.xMin < d.box.xMax && d.box.yMin < d.box.yMax <==> c.dflLen >= 2
  {
    var s :| 0 <= s < n && Accepted(c, s, BoxTensor(raw, s), ScoreTensor(raw, s))
          && FromRows(c, s, BoxTensor(raw, s), ScoreTensor(raw, s), Cells(c.inputHeight, s), d, exp);
    var boxes, scores := BoxTensor(raw, s), ScoreTensor(raw, s);
    var i :| 0 <= i < Cells(c.inputHeight, s) && FromRow(c, s, boxes, scores, i, Cells(c.inputWidth, s), d, exp);
    var j :| 0 <= j < Cells(c.inputWidth, s) && Cell(c, s, boxes, scores, i, j, exp) == Some(d);
    BoxAroundItsCell(c, s, i, j, Channels(c, s, boxes, 4 * c.dflLen, i, j), exp);
    BestMeaning(Channels(c, s, scores, c.numClasses, i, j), c.confidenceThreshold);
  }

  /** What Process hands on: sound candidates, no two of them in conflict, and one of them in place of each left out. */
  lemma ResultIsSound(c: Config, raw: seq<seq<real>>, result: seq<Detection>, exp: real -> real)
    requires Positive(exp) && |raw| / 3 >= 2 && Suppressed(Candidates(c, raw, 3, exp), c.nmsThreshold, result)
    ensures ConflictFree(result, c.nmsThreshold)
    ensures forall d | d in result ::
        FromCell(c, raw, 3, d, exp) && InUnitSquare(d.box) && Qualifies(d.confidence, c.confidenceThreshold)
    ensures forall d | FromCell(c, raw, 3, d, exp) && d !in result :: exists k ::
        k in result && DroppedFor(d, k, c.nmsThreshold)
  {
    var candidates := Candidates(c, raw, 3, exp);
    var sorted: seq<Detection> :| IsSorting(sorted, candidates) && result == Greedy(sorted, c.nmsThreshold);
    GreedyMeaning(sorted, c.nmsThreshold);
    SublistMembers(result, sorted);
    SameMembers(sorted, candidates);
    forall d | d in result
      ensures FromCell(c, raw, 3, d, exp) && InUnitSquare(d.box) && Qualifies(d.confidence, c.confidenceThreshold)
    {
      assert d in Members(sorted);
      CandidatesIff(c, raw, 3, d, exp);
      CandidatesAreSound(c, raw, 3, d, exp);
    }
    forall d | FromCell(c, raw, 3, d, exp) && d !in result
      ensures exists k :: k in result && DroppedFor(d, k, c.nmsThreshold)
    {
      CandidatesIff(c, raw, 3, d, exp);
      assert d in Members(candidates);
    }
  }
}
