/** Decoding the three output heads of YOLOv5 into boxes. */
module YoloPostprocess {
  import opened Geometry
  import opened GridLayout
  import opened Nms
  import opened RealSums
  import opened Text

  const ANCHORS: seq<seq<nat>> := [
    [10, 13, 16, 30, 33, 23],
    [30, 61, 62, 45, 59, 119],
    [116, 90, 156, 198, 373, 326]
  ]
  const NUM_ANCHORS: nat := 3

  datatype Config = Config(confidenceThreshold: real, nmsThreshold: real, numClasses: nat,
                           inputWidth: nat, inputHeight: nat, classNames: seq<string>)

  function PropSize(c: Config): nat {
    5 + c.numClasses
  }

  function ExpectedSize(c: Config, s: nat): nat
    requires s < 3
  {
    Cells(c.inputHeight, s) * Cells(c.inputWidth, s) * NUM_ANCHORS * PropSize(c)
  }

  /** A cell of one anchor of a head. */
  predicate IsCell(c: Config, s: nat, a: nat, y: nat, x: nat) {
    s < 3 && a < NUM_ANCHORS && y < Cells(c.inputHeight, s) && x < Cells(c.inputWidth, s)
  }

  /** base + channel * grid_len + pos */
  function ReadIndex(c: Config, s: nat, a: nat, channel: nat, y: nat, x: nat): nat
    requires s < 3
  {
    var gridLen := Cells(c.inputHeight, s) * Cells(c.inputWidth, s);
    a * PropSize(c) * gridLen + channel * gridLen + Offset(Cells(c.inputWidth, s), y, x)
  }

  lemma ReadIndexIsOffset(c: Config, s: nat, a: nat, channel: nat, y: nat, x: nat)
    requires s < 3
    ensures ReadIndex(c, s, a, channel, y, x)
         == Offset(Cells(c.inputHeight, s) * Cells(c.inputWidth, s), Offset(PropSize(c), a, channel),
                   Offset(Cells(c.inputWidth, s), y, x))
    ensures ExpectedSize(c, s) == (NUM_ANCHORS * PropSize(c)) * (Cells(c.inputHeight, s) * Cells(c.inputWidth, s))
  {
  }

  /** Every read of a head of the accepted size is in bounds. */
  lemma ReadsInBounds(c: Config, s: nat, a: nat, channel: nat, y: nat, x: nat)
    requires IsCell(c, s, a, y, x) && channel < PropSize(c)
    ensures ReadIndex(c, s, a, channel, y, x) < ExpectedSize(c, s)
  {
    ReadIndexIsOffset(c, s, a, channel, y, x);
    OffsetInBounds(Cells(c.inputWidth, s), Cells(c.inputHeight, s), y, x);
    OffsetInBounds(PropSize(c), NUM_ANCHORS, a, channel);
    OffsetInBounds(Cells(c.inputHeight, s) * Cells(c.inputWidth, s), NUM_ANCHORS * PropSize(c),
                   Offset(PropSize(c), a, channel), Offset(Cells(c.inputWidth, s), y, x));
  }

  /** No two channels of any cells share an element of the head. */
  lemma ReadsAreDistinct(c: Config, s: nat, a: nat, channel: nat, y: nat, x: nat, a': nat, channel': nat, y': nat,
                         x': nat)
    requires IsCell(c, s, a, y, x) && channel < PropSize(c)
    requires IsCell(c, s, a', y', x') && channel' < PropSize(c)
    requires ReadIndex(c, s, a, channel, y, x) == ReadIndex(c, s, a', channel', y', x')
    ensures (a, channel, y, x) == (a', channel', y', x')
  {
    var gridW, gridLen := Cells(c.inputWidth, s), Cells(c.inputHeight, s) * Cells(c.inputWidth, s);
    ReadIndexIsOffset(c, s, a, channel, y, x);
    ReadIndexIsOffset(c, s, a', channel', y', x');
    OffsetInBounds(gridW, Cells(c.inputHeight, s), y, x);
    OffsetInBounds(gridW, Cells(c.inputHeight, s), y', x');
    OffsetUnique(gridLen, Offset(PropSize(c), a, channel), Offset(gridW, y, x), Offset(PropSize(c), a', channel'),
                 Offset(gridW, y', x'));
    OffsetUnique(PropSize(c), a, channel, a', channel');
    OffsetUnique(gridW, y, x, y', x');
  }

  /** Every element of the head belongs to a channel of a cell. */
  lemma EveryElementHasItsPlace(c: Config, s: nat, k: nat) returns (a: nat, channel: nat, y: nat, x: nat)
    requires s < 3 && k < ExpectedSize(c, s)
    ensures IsCell(c, s, a, y, x) && channel < PropSize(c) && ReadIndex(c, s, a, channel, y, x) == k
  {
    ReadIndexIsOffset(c, s, 0, 0, 0, 0);
    var plane, pos := OffsetOnto(Cells(c.inputHeight, s) * Cells(c.inputWidth, s), NUM_ANCHORS * PropSize(c), k);
    a, channel := OffsetOnto(PropSize(c), NUM_ANCHORS, plane);
    y, x := OffsetOnto(Cells(c.inputWidth, s), Cells(c.inputHeight, s), pos);
    ReadIndexIsOffset(c, s, a, channel, y, x);
  }

  // ----- one cell -----

  function At(c: Config, s: nat, output: seq<real>, a: nat, channel: nat, y: nat, x: nat): real
    requires IsCell(c, s, a, y, x) && channel < PropSize(c) && |output| == ExpectedSize(c, s)
  {
    ReadsInBounds(c, s, a, channel, y, x);
    output[ReadIndex(c, s, a, channel, y, x)]
  }

  function ClassScores(c: Config, s: nat, output: seq<real>, a: nat, y: nat, x: nat): (scores: seq<real>)
    requires IsCell(c, s, a, y, x) && |output| == ExpectedSize(c, s)
    ensures |scores| == c.numClasses
  {
    seq(c.numClasses, k requires 0 <= k < c.numClasses => At(c, s, output, a, 5 + k, y, x))
  }

  /** The first class of the highest score above -1, and that score; class 0 and -1 when there is none. */
  function Best(scores: seq<real>): (r: (nat, real))
    decreases |scores|
  {
    if scores == [] then (0, -1.0)
    else
      var before, last := Best(scores[..|scores| - 1]), scores[|scores| - 1];
      if last > before.1 then (|scores| - 1, last) else before
  }

  /** The middle of a box along one axis, in pixels. */
  function Center(t: real, cell: nat, stride: nat): real {
    (t * 2.0 - 0.5 + cell as real) * stride as real
  }

  /** The extent of a box along one axis, in pixels. */
  function Length(t: real, anchor: nat): real {
    Sq(t * 2.0) * anchor as real
  }

  /** The lower end of an extent around a middle, as a clamped fraction of the input's side. */
  function Low(center: real, length: real, scale: nat): (r: real)
    requires scale > 0
    ensures 0.0 <= r <= 1.0
  {
    Clamp01((center - length / 2.0) / scale as real)
  }

  /** The upper end. */
  function High(center: real, length: real, scale: nat): (r: real)
    requires scale > 0
    ensures 0.0 <= r <= 1.0
  {
    Clamp01((center + length / 2.0) / scale as real)
  }

  function Decoded(c: Config, s: nat, a: nat, y: nat, x: nat, tx: real, ty: real, tw: real, th: real): Box
    requires IsCell(c, s, a, y, x)
  {
    var cx := Center(tx, x, STRIDES[s]);
    var cy := Center(ty, y, STRIDES[s]);
    var w := Length(tw, ANCHORS[s][a * 2]);
    var h := Length(th, ANCHORS[s][a * 2 + 1]);
    Box(Low(cx, w, c.inputWidth), Low(cy, h, c.inputHeight), High(cx, w, c.inputWidth), High(cy, h, c.inputHeight))
  }

  /** The candidate a cell stands for, whatever its confidence. */
  function Proposal(c: Config, s: nat, output: seq<real>, a: nat, y: nat, x: nat): Detection
    requires IsCell(c, s, a, y, x) && |output| == ExpectedSize(c, s)
  {
    var best := Best(ClassScores(c, s, output, a, y, x));
    Detection(best.0, Label(c.classNames, best.0), Mul(At(c, s, output, a, 4, y, x), best.1),
              Decoded(c, s, a, y, x, At(c, s, output, a, 0, y, x), At(c, s, output, a, 1, y, x),
                      At(c, s, output, a, 2, y, x), At(c, s, output, a, 3, y, x)))
  }

  /** The candidate of a cell: its objectness and its confidence must both reach the threshold. */
  function Cell(c: Config, s: nat, output: seq<real>, a: nat, y: nat, x: nat): Option<Detection>
    requires IsCell(c, s, a, y, x) && |output| == ExpectedSize(c, s)
  {
    var d := Proposal(c, s, output, a, y, x);
    if At(c, s, output, a, 4, y, x) < c.confidenceThreshold || d.confidence < c.confidenceThreshold then None
        else Some(d)
  }

  // ----- all cells, in the order of the loops -----

  /** The candidates of the first n cells of a row. */
  function InRow(c: Config, s: nat, output: seq<real>, a: nat, y: nat, n: nat): seq<Detection>
    requires s < 3 && a < NUM_ANCHORS && y < Cells(c.inputHeight, s) && n <= Cells(c.inputWidth, s)
    requires |output| == ExpectedSize(c, s)
  {
    if n == 0 then [] else Listed(InRow(c, s, output, a, y, n - 1), Cell(c, s, output, a, y, n - 1))
  }

  /** The candidates of the first n rows of an anchor. */
  function InRows(c: Config, s: nat, output: seq<real>, a: nat, n: nat): seq<Detection>
    requires s < 3 && a < NUM_ANCHORS && n <= Cells(c.inputHeight, s) && |output| == ExpectedSize(c, s)
  {
    if n == 0 then [] else InRows(c, s, output, a, n - 1) + InRow(c, s, output, a, n - 1, Cells(c.inputWidth, s))
  }

  /** The candidates of the first n anchors of a head. */
  function InAnchors(c: Config, s: nat, output: seq<real>, n: nat): seq<Detection>
    requires s < 3 && n <= NUM_ANCHORS && |output| == ExpectedSize(c, s)
  {
    if n == 0 then [] else InAnchors(c, s, output, n - 1) + InRows(c, s, output, n - 1, Cells(c.inputHeight, s))
  }

  /** The candidates of the first n heads; a head of another size is skipped. */
  function Candidates(c: Config, rawOutputs: seq<seq<real>>, n: nat): seq<Detection>
    requires n <= |rawOutputs| && n <= 3
  {
    if n == 0 then []
    else
      Candidates(c, rawOutputs, n - 1) +
      if |rawOutputs[n - 1]| == ExpectedSize(c, n - 1) then InAnchors(c, n - 1, rawOutputs[n - 1], NUM_ANCHORS) else []
  }

  function Heads(rawOutputs: seq<seq<real>>): nat {
    if |rawOutputs| < 3 then |rawOutputs| else 3
  }

  // ----- the code -----

  method DecodeCell(c: Config, s: nat, output: seq<real>, a: nat, y: nat, x: nat) returns (d: Option<Detection>)
    requires IsCell(c, s, a, y, x) && |output| == ExpectedSize(c, s)
    ensures d == Cell(c, s, output, a, y, x)
  {
    var objConf := At(c, s, output, a, 4, y, x);
    if objConf < c.confidenceThreshold {
      return None;
    }
    var bestClass, bestScore := 0, -1.0;
    ghost var scores := ClassScores(c, s, output, a, y, x);
    for k := 0 to c.numClasses
      invariant (bestClass, bestScore) == Best(scores[..k])
    {
      var score := At(c, s, output, a, 5 + k, y, x);
      assert scores[..k + 1][..k] == scores[..k];
      if score > bestScore {
        bestScore := score;
        bestClass := k;
      }
    }
    assert scores[..c.numClasses] == scores;
    var confidence := Mul(objConf, bestScore);
    if confidence < c.confidenceThreshold {
      return None;
    }
    var box := Decoded(c, s, a, y, x, At(c, s, output, a, 0, y, x), At(c, s, output, a, 1, y, x),
                       At(c, s, output, a, 2, y, x), At(c, s, output, a, 3, y, x));
    return Some(Detection(bestClass, Label(c.classNames, bestClass), confidence, box));
  }

  /** The innermost loop over cells. */
  method DecodeRow(c: Config, s: nat, output: seq<real>, a: nat, y: nat,
                   found: seq<Detection>) returns (candidates: seq<Detection>)
    requires s < 3 && a < NUM_ANCHORS && y < Cells(c.inputHeight, s) && |output| == ExpectedSize(c, s)
    ensures candidates == found + InRow(c, s, output, a, y, Cells(c.inputWidth, s))
  {
    candidates := found;
    for x := 0 to Cells(c.inputWidth, s)
      invariant candidates == found + InRow(c, s, output, a, y, x)
    {
      var d := DecodeCell(c, s, output, a, y, x);
      if d.Some? {
        candidates := candidates + [d.value];
      }
    }
  }

  /** The loops over the anchors and rows of one head. */
  method DecodeHead(c: Config, s: nat, output: seq<real>, found: seq<Detection>) returns (candidates: seq<Detection>)
    requires s < 3 && |output| == ExpectedSize(c, s)
    ensures candidates == found + InAnchors(c, s, output, NUM_ANCHORS)
  {
    candidates := found;
    for a := 0 to NUM_ANCHORS
      invariant candidates == found + InAnchors(c, s, output, a)
    {
      ghost var before := candidates;
      for y := 0 to Cells(c.inputHeight, s)
        invariant candidates == before + InRows(c, s, output, a, y)
      {
        candidates := DecodeRow(c, s, output, a, y, candidates);
        Regroup(before, InRows(c, s, output, a, y), InRow(c, s, output, a, y, Cells(c.inputWidth, s)));
      }
      Regroup(found, InAnchors(c, s, output, a), InRows(c, s, output, a, Cells(c.inputHeight, s)));
    }
  }

  /** The result is the suppression of the candidates. */
  method Process(c: Config, rawOutputs: seq<seq<real>>) returns (result: seq<Detection>)
    ensures Suppressed(Candidates(c, rawOutputs, Heads(rawOutputs)), c.nmsThreshold, result)
  {
    if rawOutputs == [] {
      assert IsSorting([], Candidates(c, rawOutputs, Heads(rawOutputs)));
      return [];
    }
    var candidates := [];
    for s := 0 to Heads(rawOutputs)
      invariant candidates == Candidates(c, rawOutputs, s)
    {
      if |rawOutputs[s]| != ExpectedSize(c, s) {
        continue;
      }
      candidates := DecodeHead(c, s, rawOutputs[s], candidates);
    }
    var boxes := new Detection[|candidates|](i requires 0 <= i < |candidates| => candidates[i]);
    assert boxes[..] == candidates;
    result := NMS(boxes, c.nmsThreshold);
  }

  // ----- what a cell yields -----

  /** Some score exceeds -1. */
  predicate AnyAbove(scores: seq<real>) {
    exists i :: 0 <= i < |scores| && scores[i] > -1.0
  }

  lemma AnyAboveSnoc(init: seq<real>, last: real)
    ensures AnyAbove(init + [last]) <==> AnyAbove(init) || last > -1.0
  {
    var scores := init + [last];
    assert scores[|init|] == last;
    if AnyAbove(init) {
      var i :| 0 <= i < |init| && init[i] > -1.0;
      assert scores[i] > -1.0;
    }
  }

  /** The first class of the highest score, and class 0 with -1 exactly if no score exceeds -1. */
  lemma {:induction false} BestMeaning(scores: seq<real>)
    ensures forall i | 0 <= i < |scores| :: scores[i] <= Best(scores).1
    ensures AnyAbove(scores) ==>
      var (k, best) := Best(scores); k < |scores| && best == scores[k] && forall i | 0 <= i < k :: scores[i] < best
    ensures !AnyAbove(scores) ==> Best(scores) == (0, -1.0)
    ensures Best(scores).1 >= -1.0
    decreases |scores|
  {
    if scores != [] {
      var init, last := scores[..|scores| - 1], scores[|scores| - 1];
      assert scores == init + [last];
      BestMeaning(init);
      AnyAboveSnoc(init, last);
      if last > Best(init).1 {
        assert Best(scores) == (|init|, last);
      } else {
        assert Best(scores) == Best(init);
      }
    }
  }

  /** Scores a sigmoid gives. */
  predicate Sigmoidal(output: seq<real>) {
    forall i | 0 <= i < |output| :: 0.0 <= output[i] <= 1.0
  }

  lemma ProductBelowFactor(p: real, q: real)
    requires 0.0 <= p && q <= 1.0
    ensures Mul(p, q) <= p
  {
    assert p * (1.0 - q) >= 0.0;
  }

  lemma AtIsSigmoidal(c: Config, s: nat, output: seq<real>, a: nat, channel: nat, y: nat, x: nat)
    requires IsCell(c, s, a, y, x) && channel < PropSize(c) && |output| == ExpectedSize(c, s) && Sigmoidal(output)
    ensures 0.0 <= At(c, s, output, a, channel, y, x) <= 1.0
  {
    ReadsInBounds(c, s, a, channel, y, x);
  }

  lemma BestIsSigmoidal(c: Config, s: nat, output: seq<real>, a: nat, y: nat, x: nat)
    requires IsCell(c, s, a, y, x) && |output| == ExpectedSize(c, s) && Sigmoidal(output)
    ensures Best(ClassScores(c, s, output, a, y, x)).1 <= 1.0
  {
    var scores := ClassScores(c, s, output, a, y, x);
    BestMeaning(scores);
    var k := Best(scores).0;
    if k < |scores| {
      AtIsSigmoidal(c, s, output, a, 5 + k, y, x);
    }
  }

  /** Leaving a cell early for its objectness alone loses nothing that the test of the full product would keep. */
  lemma EarlyExitLosesNothing(c: Config, s: nat, output: seq<real>, a: nat, y: nat, x: nat)
    requires IsCell(c, s, a, y, x) && |output| == ExpectedSize(c, s) && Sigmoidal(output)
    ensures var d := Proposal(c, s, output, a, y, x);
      Cell(c, s, output, a, y, x) == if d.confidence < c.confidenceThreshold then None else Some(d)
  {
    AtIsSigmoidal(c, s, output, a, 4, y, x);
    BestIsSigmoidal(c, s, output, a, y, x);
    ProductBelowFactor(At(c, s, output, a, 4, y, x), Best(ClassScores(c, s, output, a, y, x)).1);
  }

  lemma QuotientMonotone(p: real, q: real, d: real)
    requires p <= q && d > 0.0
    ensures p / d <= q / d
  {
  }

  lemma SideInOrder(center: real, length: real, scale: nat)
    requires length >= 0.0 && scale > 0
    ensures Low(center, length, scale) <= High(center, length, scale)
  {
    QuotientMonotone(center - length / 2.0, center + length / 2.0, scale as real);
    ClampMonotone((center - length / 2.0) / scale as real, (center + length / 2.0) / scale as real);
  }

  lemma LengthIsNonNegative(t: real, anchor: nat)
    ensures Length(t, anchor) >= 0.0
  {
    SqNonNegative(t * 2.0);
  }

  /** Whatever the head holds, a decoded box lies inside the image with its corners in order. */
  lemma DecodedInUnitSquare(c: Config, s: nat, a: nat, y: nat, x: nat, tx: real, ty: real, tw: real, th: real)
    requires IsCell(c, s, a, y, x)
    ensures InUnitSquare(Decoded(c, s, a, y, x, tx, ty, tw, th))
  {
    LengthIsNonNegative(tw, ANCHORS[s][a * 2]);
    LengthIsNonNegative(th, ANCHORS[s][a * 2 + 1]);
    SideInOrder(Center(tx, x, STRIDES[s]), Length(tw, ANCHORS[s][a * 2]), c.inputWidth);
    SideInOrder(Center(ty, y, STRIDES[s]), Length(th, ANCHORS[s][a * 2 + 1]), c.inputHeight);
  }

  // ----- the encoding that training uses, and its inverse -----

  /** The offset a network should emit for a box that spans lo to hi of an axis. */
  function EncodedCenter(lo: real, hi: real, scale: nat, cell: nat, stride: nat): real
    requires stride > 0
  {
    ((lo + hi) / 2.0 * scale as real / stride as real - cell as real + 0.5) / 2.0
  }

  /** The size a network should emit for it. */
  ghost function EncodedLength(lo: real, hi: real, scale: nat, anchor: nat, sqrt: real -> real): real
    requires anchor > 0
  {
    sqrt((hi - lo) * scale as real / anchor as real) / 2.0
  }

  lemma CenterRoundTrip(lo: real, hi: real, scale: nat, cell: nat, stride: nat)
    requires stride > 0
    ensures Center(EncodedCenter(lo, hi, scale, cell, stride), cell, stride) == (lo + hi) / 2.0 * scale as real
  {
    var q := (lo + hi) / 2.0 * scale as real / stride as real;
    assert EncodedCenter(lo, hi, scale, cell, stride) * 2.0 - 0.5 + cell as real == q;
  }

  lemma LengthRoundTrip(lo: real, hi: real, scale: nat, anchor: nat, sqrt: real -> real)
    requires anchor > 0 && lo <= hi && IsSqrt(sqrt)
    ensures Length(EncodedLength(lo, hi, scale, anchor, sqrt), anchor) == (hi - lo) * scale as real
  {
    var q := (hi - lo) * scale as real / anchor as real;
    QuotientMonotone(0.0, (hi - lo) * scale as real, anchor as real);
    var root := sqrt(q);
    assert EncodedLength(lo, hi, scale, anchor, sqrt) * 2.0 == root;
    assert Sq(root) == q;
  }

  lemma SidesRoundTrip(lo: real, hi: real, scale: nat)
    requires scale > 0 && 0.0 <= lo <= hi <= 1.0
    ensures var center, length := (lo + hi) / 2.0 * scale as real, (hi - lo) * scale as real;
      Low(center, length, scale) == lo && High(center, length, scale) == hi
  {
    var f := scale as real;
    assert (lo + hi) / 2.0 * f - (hi - lo) * f / 2.0 == lo * f;
    assert (lo + hi) / 2.0 * f + (hi - lo) * f / 2.0 == hi * f;
  }

  lemma AxisRoundTrip(lo: real, hi: real, scale: nat, cell: nat, stride: nat, anchor: nat, sqrt: real -> real)
    requires scale > 0 && stride > 0 && anchor > 0 && 0.0 <= lo <= hi <= 1.0 && IsSqrt(sqrt)
    ensures var center, length := Center(EncodedCenter(lo, hi, scale, cell, stride), cell, stride),
                                  Length(EncodedLength(lo, hi, scale, anchor, sqrt), anchor);
      Low(center, length, scale) == lo && High(center, length, scale) == hi
  {
    CenterRoundTrip(lo, hi, scale, cell, stride);
    LengthRoundTrip(lo, hi, scale, anchor, sqrt);
    SidesRoundTrip(lo, hi, scale);
  }

  /** Decoding undoes encoding: every box inside the image comes back from any cell and any anchor, corner by corner. */
  lemma DecodeUndoesEncode(c: Config, s: nat, a: nat, y: nat, x: nat, b: Box, sqrt: real -> real)
    requires IsCell(c, s, a, y, x) && InUnitSquare(b) && IsSqrt(sqrt)
    ensures Decoded(c, s, a, y, x,
                    EncodedCenter(b.xMin, b.xMax, c.inputWidth, x, STRIDES[s]),
                    EncodedCenter(b.yMin, b.yMax, c.inputHeight, y, STRIDES[s]),
                    EncodedLength(b.xMin, b.xMax, c.inputWidth, ANCHORS[s][a * 2], sqrt),
                    EncodedLength(b.yMin, b.yMax, c.inputHeight, ANCHORS[s][a * 2 + 1], sqrt)) == b
  {
    AxisRoundTrip(b.xMin, b.xMax, c.inputWidth, x, STRIDES[s], ANCHORS[s][a * 2], sqrt);
    AxisRoundTrip(b.yMin, b.yMax, c.inputHeight, y, STRIDES[s], ANCHORS[s][a * 2 + 1], sqrt);
  }

  // ----- which boxes come out -----

  /** Some cell of some head of the accepted size yields d. */
  ghost predicate FromCell(c: Config, rawOutputs: seq<seq<real>>, n: nat, d: Detection)
    requires n <= |rawOutputs| && n <= 3
  {
    exists s | 0 <= s < n :: FromHead(c, rawOutputs, s, d)
  }

  ghost predicate FromAnchors(c: Config, s: nat, output: seq<real>, n: nat, d: Detection)
    requires s < 3 && n <= NUM_ANCHORS && |output| == ExpectedSize(c, s)
  {
    exists a | 0 <= a < n :: FromRows(c, s, output, a, Cells(c.inputHeight, s), d)
  }

  ghost predicate FromRows(c: Config, s: nat, output: seq<real>, a: nat, n: nat, d: Detection)
    requires s < 3 && a < NUM_ANCHORS && n <= Cells(c.inputHeight, s) && |output| == ExpectedSize(c, s)
  {
    exists y | 0 <= y < n :: FromRow(c, s, output, a, y, Cells(c.inputWidth, s), d)
  }

  ghost predicate FromRow(c: Config, s: nat, output: seq<real>, a: nat, y: nat, n: nat, d: Detection)
    requires s < 3 && a < NUM_ANCHORS && y < Cells(c.inputHeight, s) && n <= Cells(c.inputWidth, s)
    requires |output| == ExpectedSize(c, s)
  {
    exists x | 0 <= x < n :: Cell(c, s, output, a, y, x) == Some(d)
  }

  lemma RowStep(c: Config, s: nat, output: seq<real>, a: nat, y: nat, n: nat, d: Detection)
    requires s < 3 && a < NUM_ANCHORS && y < Cells(c.inputHeight, s) && n < Cells(c.inputWidth, s)
    requires |output| == ExpectedSize(c, s)
    ensures FromRow(c, s, output, a, y, n + 1, d)
       <==> FromRow(c, s, output, a, y, n, d) || Cell(c, s, output, a, y, n) == Some(d)
  {
  }

  lemma {:induction false} RowMembers(c: Config, s: nat, output: seq<real>, a: nat, y: nat, n: nat, d: Detection)
    requires s < 3 && a < NUM_ANCHORS && y < Cells(c.inputHeight, s) && n <= Cells(c.inputWidth, s)
    requires |output| == ExpectedSize(c, s)
    ensures d in InRow(c, s, output, a, y, n) <==> FromRow(c, s, output, a, y, n, d)
  {
    if n > 0 {
      RowMembers(c, s, output, a, y, n - 1, d);
      RowStep(c, s, output, a, y, n - 1, d);
      ListedMembers(InRow(c, s, output, a, y, n - 1), Cell(c, s, output, a, y, n - 1), d);
    }
  }

  lemma RowsStep(c: Config, s: nat, output: seq<real>, a: nat, n: nat, d: Detection)
    requires s < 3 && a < NUM_ANCHORS && n < Cells(c.inputHeight, s) && |output| == ExpectedSize(c, s)
    ensures FromRows(c, s, output, a, n + 1, d)
       <==> FromRows(c, s, output, a, n, d) || FromRow(c, s, output, a, n, Cells(c.inputWidth, s), d)
  {
  }

  lemma InRowsStep(c: Config, s: nat, output: seq<real>, a: nat, n: nat, d: Detection)
    requires s < 3 && a < NUM_ANCHORS && n < Cells(c.inputHeight, s) && |output| == ExpectedSize(c, s)
    ensures d in InRows(c, s, output, a, n + 1)
       <==> d in InRows(c, s, output, a, n) || d in InRow(c, s, output, a, n, Cells(c.inputWidth, s))
  {
  }

  lemma {:induction false} RowsMembers(c: Config, s: nat, output: seq<real>, a: nat, n: nat, d: Detection)
    requires s < 3 && a < NUM_ANCHORS && n <= Cells(c.inputHeight, s) && |output| == ExpectedSize(c, s)
    ensures d in InRows(c, s, output, a, n) <==> FromRows(c, s, output, a, n, d)
  {
    if n > 0 {
      RowsMembers(c, s, output, a, n - 1, d);
      RowMembers(c, s, output, a, n - 1, Cells(c.inputWidth, s), d);
      RowsStep(c, s, output, a, n - 1, d);
      InRowsStep(c, s, output, a, n - 1, d);
    }
  }

  lemma {:induction false} AnchorsMembers(c: Config, s: nat, output: seq<real>, n: nat, d: Detection)
    requires s < 3 && n <= NUM_ANCHORS && |output| == ExpectedSize(c, s)
    ensures d in InAnchors(c, s, output, n) <==> FromAnchors(c, s, output, n, d)
  {
    if n > 0 {
      AnchorsMembers(c, s, output, n - 1, d);
      RowsMembers(c, s, output, n - 1, Cells(c.inputHeight, s), d);
    }
  }

  /** Head s is of the accepted size and one of its cells yields d. */
  ghost predicate FromHead(c: Config, rawOutputs: seq<seq<real>>, s: nat, d: Detection)
    requires s < |rawOutputs| && s < 3
  {
    |rawOutputs[s]| == ExpectedSize(c, s) && FromAnchors(c, s, rawOutputs[s], NUM_ANCHORS, d)
  }

  lemma HeadStep(c: Config, rawOutputs: seq<seq<real>>, n: nat, d: Detection)
    requires n < |rawOutputs| && n < 3
    ensures FromCell(c, rawOutputs, n + 1, d) <==> FromCell(c, rawOutputs, n, d) || FromHead(c, rawOutputs, n, d)
  {
  }

  lemma InHeadStep(c: Config, rawOutputs: seq<seq<real>>, n: nat, d: Detection)
    requires n < |rawOutputs| && n < 3
    ensures d in Candidates(c, rawOutputs, n + 1)
        <==> d in Candidates(c, rawOutputs, n) || FromHead(c, rawOutputs, n, d)
  {
    if |rawOutputs[n]| == ExpectedSize(c, n) {
      AnchorsMembers(c, n, rawOutputs[n], NUM_ANCHORS, d);
    }
  }

  /** The candidates are what the cells of the heads of the accepted size yield, and nothing else. */
  lemma {:induction false} CandidatesIff(c: Config, rawOutputs: seq<seq<real>>, n: nat, d: Detection)
    requires n <= |rawOutputs| && n <= 3
    ensures d in Candidates(c, rawOutputs, n) <==> FromCell(c, rawOutputs, n, d)
  {
    if n > 0 {
      CandidatesIff(c, rawOutputs, n - 1, d);
      HeadStep(c, rawOutputs, n - 1, d);
      InHeadStep(c, rawOutputs, n - 1, d);
    }
  }

  /** Every candidate lies inside the image, reaches the threshold and carries the name of its class. */
  lemma CandidatesAreSound(c: Config, rawOutputs: seq<seq<real>>, n: nat, d: Detection)
    requires n <= |rawOutputs| && n <= 3 && d in Candidates(c, rawOutputs, n)
    ensures InUnitSquare(d.box) && d.confidence >= c.confidenceThreshold
        && d.className == Label(c.classNames, d.classId)
  {
    CandidatesIff(c, rawOutputs, n, d);
    var s :| 0 <= s < n && FromHead(c, rawOutputs, s, d);
    var output := rawOutputs[s];
    var a :| 0 <= a < NUM_ANCHORS && FromRows(c, s, output, a, Cells(c.inputHeight, s), d);
    var y :| 0 <= y < Cells(c.inputHeight, s) && FromRow(c, s, output, a, y, Cells(c.inputWidth, s), d);
    var x :| 0 <= x < Cells(c.inputWidth, s) && Cell(c, s, output, a, y, x) == Some(d);
    DecodedInUnitSquare(c, s, a, y, x, At(c, s, output, a, 0, y, x), At(c, s, output, a, 1, y, x),
                        At(c, s, output, a, 2, y, x), At(c, s, output, a, 3, y, x));
  }

  /** What Process hands on: sound candidates, no two of them in conflict, and one of them in place of each left out. */
  lemma ResultIsSound(c: Config, rawOutputs: seq<seq<real>>, result: seq<Detection>)
    requires Suppressed(Candidates(c, rawOutputs, Heads(rawOutputs)), c.nmsThreshold, result)
    ensures ConflictFree(result, c.nmsThreshold)
    ensures forall d | d in result :: FromCell(c, rawOutputs, Heads(rawOutputs), d) && InUnitSquare(d.box)
                                      && d.confidence >= c.confidenceThreshold
    ensures forall d | FromCell(c, rawOutputs, Heads(rawOutputs), d) && d !in result ::
              exists k :: k in result && DroppedFor(d, k, c.nmsThreshold)
  {
    var n := Heads(rawOutputs);
    var candidates := Candidates(c, rawOutputs, n);
    var sorted: seq<Detection> :| IsSorting(sorted, candidates) && result == Greedy(sorted, c.nmsThreshold);
    GreedyMeaning(sorted, c.nmsThreshold);
    SublistMembers(result, sorted);
    SameMembers(sorted, candidates);
    forall d | d in result
      ensures FromCell(c, rawOutputs, n, d) && InUnitSquare(d.box) && d.confidence >= c.confidenceThreshold
    {
      assert d in Members(sorted);
      CandidatesIff(c, rawOutputs, n, d);
      CandidatesAreSound(c, rawOutputs, n, d);
    }
    forall d | FromCell(c, rawOutputs, n, d) && d !in result
      ensures exists k :: k in result && DroppedFor(d, k, c.nmsThreshold)
    {
      CandidatesIff(c, rawOutputs, n, d);
      assert d in Members(candidates);
    }
  }

  /**
   * At a suppression threshold of 1 or more every candidate comes out, because decoded boxes never overlap by more
   * than all.
   */
  lemma NothingIsSuppressedAtOne(c: Config, rawOutputs: seq<seq<real>>, result: seq<Detection>)
    requires c.nmsThreshold >= 1.0
    requires Suppressed(Candidates(c, rawOutputs, Heads(rawOutputs)), c.nmsThreshold, result)
    ensures IsSorting(result, Candidates(c, rawOutputs, Heads(rawOutputs)))
  {
    var n := Heads(rawOutputs);
    var candidates := Candidates(c, rawOutputs, n);
    var sorted: seq<Detection> :| IsSorting(sorted, candidates) && result == Greedy(sorted, c.nmsThreshold);
    SameMembers(sorted, candidates);
    forall i, j | 0 <= i < j < |sorted| ensures !Conflict(sorted[i], sorted[j], c.nmsThreshold) {
      assert sorted[i] in Members(candidates) && sorted[j] in Members(candidates);
      CandidatesAreSound(c, rawOutputs, n, sorted[i]);
      CandidatesAreSound(c, rawOutputs, n, sorted[j]);
      IoUBounded(sorted[i].box, sorted[j].box);
    }
    NothingToSuppress(sorted, c.nmsThreshold);
  }
}
