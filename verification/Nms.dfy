/** Non-maximum suppression: the bitmap loop, the greedy selection it computes, and the kernel that selection is. */
module Nms {
  import opened Geometry

  predicate Conflict(a: Detection, b: Detection, threshold: real) {
    a.classId == b.classId && IoU(a.box, b.box) > threshold
  }

  predicate Descending(s: seq<Detection>) {
    forall i, j | 0 <= i < j < |s| :: s[i].confidence >= s[j].confidence
  }

  function Unconflicted(s: seq<Detection>, head: Detection, threshold: real): (r: seq<Detection>)
    ensures |r| <= |s|
  {
    if s == [] then []
    else if Conflict(head, s[0], threshold) then Unconflicted(s[1..], head, threshold)
    else [s[0]] + Unconflicted(s[1..], head, threshold)
  }

  /** Keep the head, drop what conflicts with it, go on with the rest. */
  function Greedy(s: seq<Detection>, threshold: real): seq<Detection>
    decreases |s|
  {
    if s == [] then [] else [s[0]] + Greedy(Unconflicted(s[1..], s[0], threshold), threshold)
  }

  // ----- the code -----

  /** std::sort by falling confidence: nothing is promised about the order of ties. */
  method SortByConfidence(boxes: array<Detection>)
    modifies boxes
    ensures Descending(boxes[..]) && multiset(boxes[..]) == multiset(old(boxes[..]))
  {
    for n := 0 to boxes.Length
      invariant forall i, j | 0 <= i < n && i < j < boxes.Length :: boxes[i].confidence >= boxes[j].confidence
      invariant multiset(boxes[..]) == multiset(old(boxes[..]))
    {
      var best := n;
      for k := n to boxes.Length
        invariant n <= best < boxes.Length
        invariant forall j | n <= j < k :: boxes[best].confidence >= boxes[j].confidence
      {
        if boxes[k].confidence > boxes[best].confidence {
          best := k;
        }
      }
      boxes[n], boxes[best] := boxes[best], boxes[n];
    }
  }

  /** The boxes from position i on that are not marked. */
  ghost function Live(s: seq<Detection>, suppressed: seq<bool>, i: nat): seq<Detection>
    requires |suppressed| == |s| && i <= |s|
    decreases |s| - i
  {
    if i == |s| then [] else if suppressed[i] then Live(s, suppressed, i + 1) else [s[i]] + Live(s, suppressed, i + 1)
  }

  lemma {:induction false} LiveAfterMarking(s: seq<Detection>, before: seq<bool>, after: seq<bool>, i: nat,
                                            head: Detection, threshold: real)
    requires |before| == |after| == |s| && i <= |s|
    requires forall j | i <= j < |s| :: after[j] == (before[j] || Conflict(head, s[j], threshold))
    ensures Live(s, after, i) == Unconflicted(Live(s, before, i), head, threshold)
    decreases |s| - i
  {
    if i < |s| {
      LiveAfterMarking(s, before, after, i + 1, head, threshold);
      var rest := Live(s, before, i + 1);
      assert ([s[i]] + rest)[1..] == rest;
    }
  }

  lemma {:induction false} AllLive(s: seq<Detection>, suppressed: seq<bool>, i: nat)
    requires |suppressed| == |s| && i <= |s| && forall j | i <= j < |s| :: !suppressed[j]
    ensures Live(s, suppressed, i) == s[i..]
    decreases |s| - i
  {
    if i < |s| {
      AllLive(s, suppressed, i + 1);
    }
  }

  method NMS(boxes: array<Detection>, threshold: real) returns (result: seq<Detection>)
    modifies boxes
    ensures IsSorting(boxes[..], old(boxes[..])) && result == Greedy(boxes[..], threshold)
  {
    if boxes.Length == 0 {
      return [];
    }
    SortByConfidence(boxes);
    ghost var s := boxes[..];
    var suppressed := new bool[boxes.Length](_ => false);
    result := [];
    assert Live(s, suppressed[..], 0) == s by {
      AllLive(s, suppressed[..], 0);
    }
    for i := 0 to boxes.Length
      invariant boxes[..] == s
      invariant result + Greedy(Live(s, suppressed[..], i), threshold) == Greedy(s, threshold)
    {
      if suppressed[i] {
        continue;
      }
      KeptBox(s, suppressed[..], i, result, threshold);
      result := result + [boxes[i]];
      SuppressConflicts(boxes, suppressed, i, threshold);
    }
    assert result + [] == result;
  }

  /** The bitmap once the boxes behind i that conflict with it are marked. */
  function Marked(s: seq<Detection>, suppressed: seq<bool>, i: nat, threshold: real): (r: seq<bool>)
    requires i < |s| == |suppressed|
    ensures |r| == |s|
  {
    seq(|s|, k requires 0 <= k < |s| => suppressed[k] || (i < k && Conflict(s[i], s[k], threshold)))
  }

  lemma KeptBox(s: seq<Detection>, suppressed: seq<bool>, i: nat, kept: seq<Detection>, threshold: real)
    requires i < |s| == |suppressed| && !suppressed[i]
    ensures kept + [s[i]] + Greedy(Live(s, Marked(s, suppressed, i, threshold), i + 1), threshold)
         == kept + Greedy(Live(s, suppressed, i), threshold)
  {
    var after := Marked(s, suppressed, i, threshold);
    LiveAfterMarking(s, suppressed, after, i + 1, s[i], threshold);
    GreedyStep(s[i], Live(s, suppressed, i + 1), threshold);
    var rest := Greedy(Live(s, after, i + 1), threshold);
    assert kept + [s[i]] + rest == kept + ([s[i]] + rest);
  }

  /** The inner loop of NMS. */
  method SuppressConflicts(boxes: array<Detection>, suppressed: array<bool>, i: nat, threshold: real)
    requires i < boxes.Length == suppressed.Length
    modifies suppressed
    ensures suppressed[..] == Marked(boxes[..], old(suppressed[..]), i, threshold)
  {
    for j := i + 1 to boxes.Length
      invariant forall k | 0 <= k < boxes.Length ::
        suppressed[k] == (old(suppressed[k]) || (i < k < j && Conflict(boxes[i], boxes[k], threshold)))
    {
      if suppressed[j] {
        continue;
      }
      if boxes[i].classId == boxes[j].classId && IoU(boxes[i].box, boxes[j].box) > threshold {
        suppressed[j] := true;
      }
    }
  }

  lemma GreedyStep(head: Detection, rest: seq<Detection>, threshold: real)
    ensures Greedy([head] + rest, threshold) == [head] + Greedy(Unconflicted(rest, head, threshold), threshold)
  {
    assert ([head] + rest)[1..] == rest;
  }

  /** One of the ways to put boxes in order of falling confidence. */
  predicate IsSorting(sorted: seq<Detection>, boxes: seq<Detection>) {
    Descending(sorted) && multiset(sorted) == multiset(boxes)
  }

  /** result is the selection from the boxes in some such order. */
  ghost predicate Suppressed(boxes: seq<Detection>, threshold: real, result: seq<Detection>) {
    exists sorted :: IsSorting(sorted, boxes) && result == Greedy(sorted, threshold)
  }

  // ----- what the selection means -----

  predicate ConflictFree(s: seq<Detection>, threshold: real) {
    forall i, j | 0 <= i < j < |s| :: !Conflict(s[i], s[j], threshold)
  }

  predicate Sublist(a: seq<Detection>, b: seq<Detection>)
    decreases |b|
  {
    a == [] || (b != [] && ((a[0] == b[0] && Sublist(a[1..], b[1..])) || Sublist(a, b[1..])))
  }

  /** x was dropped for the sake of k, a kept box of its class that is at least as sure and overlaps it too much. */
  predicate DroppedFor(x: Detection, k: Detection, threshold: real) {
    k.confidence >= x.confidence && Conflict(k, x, threshold)
  }

  lemma ConflictSymmetric(a: Detection, b: Detection, threshold: real)
    ensures Conflict(a, b, threshold) == Conflict(b, a, threshold)
  {
    IoUSymmetric(a.box, b.box);
  }

  lemma {:induction false} UnconflictedMembers(s: seq<Detection>, head: Detection, threshold: real)
    ensures forall x :: x in Unconflicted(s, head, threshold) <==> x in s && !Conflict(head, x, threshold)
    ensures Sublist(Unconflicted(s, head, threshold), s)
  {
    if s != [] {
      UnconflictedMembers(s[1..], head, threshold);
      var r := Unconflicted(s[1..], head, threshold);
      assert ([s[0]] + r)[1..] == r;
      assert s == [s[0]] + s[1..];
    }
  }

  lemma {:induction false} SublistTrans(a: seq<Detection>, b: seq<Detection>, c: seq<Detection>)
    requires Sublist(a, b) && Sublist(b, c)
    ensures Sublist(a, c)
    decreases |c|, |b|
  {
    if a != [] && b != [] {
      if b[0] == c[0] && Sublist(b[1..], c[1..]) {
        if a[0] == b[0] && Sublist(a[1..], b[1..]) {
          SublistTrans(a[1..], b[1..], c[1..]);
        } else {
          SublistTrans(a, b[1..], c[1..]);
        }
      } else {
        SublistTrans(a, b, c[1..]);
      }
    }
  }

  lemma {:induction false} SublistMembers(a: seq<Detection>, b: seq<Detection>)
    requires Sublist(a, b)
    ensures forall x | x in a :: x in b
    decreases |b|
  {
    if a != [] {
      assert a == [a[0]] + a[1..];
      if a[0] == b[0] && Sublist(a[1..], b[1..]) {
        SublistMembers(a[1..], b[1..]);
      } else {
        SublistMembers(a, b[1..]);
      }
    }
  }

  lemma {:induction false} SublistDescending(a: seq<Detection>, b: seq<Detection>)
    requires Sublist(a, b) && Descending(b)
    ensures Descending(a)
    decreases |b|
  {
    if a != [] {
      if a[0] == b[0] && Sublist(a[1..], b[1..]) {
        SublistMembers(a[1..], b[1..]);
        SublistDescending(a[1..], b[1..]);
        forall j | 0 < j < |a| ensures a[0].confidence >= a[j].confidence {
          assert a[j] == a[1..][j - 1];
          assert a[j] in b[1..];
        }
        forall i, j | 0 < i < j < |a| ensures a[i].confidence >= a[j].confidence {
          assert a[1..][i - 1] == a[i] && a[1..][j - 1] == a[j];
        }
      } else {
        SublistDescending(a, b[1..]);
      }
    }
  }

  /**
   * The survivors are a conflict-free sublist of the sorted boxes, and every box left out was dropped for a survivor.
   */
  lemma {:induction false} GreedyMeaning(s: seq<Detection>, threshold: real)
    requires Descending(s)
    ensures Sublist(Greedy(s, threshold), s)
    ensures ConflictFree(Greedy(s, threshold), threshold)
    ensures forall x | x in s && x !in Greedy(s, threshold) ::
      exists k :: k in Greedy(s, threshold) && DroppedFor(x, k, threshold)
    decreases |s|
  {
    if s != [] {
      var head, rest := s[0], Unconflicted(s[1..], s[0], threshold);
      var kept := Greedy(rest, threshold);
      UnconflictedMembers(s[1..], head, threshold);
      SublistDescending(rest, s[1..]);
      GreedyMeaning(rest, threshold);
      SublistTrans(kept, rest, s[1..]);
      assert ([head] + kept)[1..] == kept;
      SublistMembers(kept, rest);
      HeadIsFree(head, kept, threshold);
      forall x | x in s && x !in [head] + kept
        ensures exists k :: k in [head] + kept && DroppedFor(x, k, threshold)
      {
        if x in rest {
          var k :| k in kept && DroppedFor(x, k, threshold);
          assert k in [head] + kept;
        } else {
          assert head in [head] + kept && DroppedFor(x, head, threshold);
        }
      }
    }
  }

  lemma HeadIsFree(head: Detection, kept: seq<Detection>, threshold: real)
    requires ConflictFree(kept, threshold) && forall x | x in kept :: !Conflict(head, x, threshold)
    ensures ConflictFree([head] + kept, threshold)
  {
  }

  // ----- running it again -----

  lemma {:induction false} NothingToSuppress(s: seq<Detection>, threshold: real)
    requires ConflictFree(s, threshold)
    ensures Greedy(s, threshold) == s
  {
    if s != [] {
      forall x | x in s[1..] ensures !Conflict(s[0], x, threshold) {
      }
      NoneConflicted(s[1..], s[0], threshold);
      NothingToSuppress(s[1..], threshold);
    }
  }

  lemma {:induction false} NoneConflicted(s: seq<Detection>, head: Detection, threshold: real)
    requires forall x | x in s :: !Conflict(head, x, threshold)
    ensures Unconflicted(s, head, threshold) == s
  {
    if s != [] {
      NoneConflicted(s[1..], head, threshold);
    }
  }

  /** Conflict-freedom does not depend on the order of the boxes. */
  ghost predicate FreeBag(m: multiset<Detection>, threshold: real) {
    forall x, y | x in m && y in m && (x != y || m[x] >= 2) :: !Conflict(x, y, threshold)
  }

  lemma {:induction false} TwoPlaces(s: seq<Detection>, x: Detection) returns (i: nat, j: nat)
    requires multiset(s)[x] >= 2
    ensures i < j < |s| && s[i] == x == s[j]
  {
    assert s == [s[0]] + s[1..];
    if s[0] == x {
      assert x in multiset(s[1..]);
      var k :| 0 <= k < |s[1..]| && s[1..][k] == x;
      i, j := 0, k + 1;
    } else {
      i, j := TwoPlaces(s[1..], x);
      i, j := i + 1, j + 1;
    }
  }

  lemma FreeBagIff(s: seq<Detection>, threshold: real)
    ensures ConflictFree(s, threshold) <==> FreeBag(multiset(s), threshold)
  {
    if ConflictFree(s, threshold) {
      forall x, y | x in multiset(s) && y in multiset(s) && (x != y || multiset(s)[x] >= 2)
        ensures !Conflict(x, y, threshold)
      {
        if x == y {
          var i, j := TwoPlaces(s, x);
        } else {
          FreePair(s, x, y, threshold);
        }
      }
    }
    if FreeBag(multiset(s), threshold) {
      forall i, j | 0 <= i < j < |s| ensures !Conflict(s[i], s[j], threshold) {
        assert s == s[..j] + s[j..] && s[i] in s[..j] && s[j] in s[j..];
      }
    }
  }

  /** Suppressing the survivors again keeps every one of them, however the second sort arranges ties. */
  lemma NmsIsIdempotent(s: seq<Detection>, again: seq<Detection>, threshold: real)
    requires Descending(s) && multiset(again) == multiset(Greedy(s, threshold))
    ensures Greedy(again, threshold) == again
  {
    GreedyMeaning(s, threshold);
    FreeBagIff(Greedy(s, threshold), threshold);
    FreeBagIff(again, threshold);
    NothingToSuppress(again, threshold);
  }

  // ----- independence of the input order -----

  ghost predicate DistinctConfidences(boxes: set<Detection>) {
    forall x, y | x in boxes && y in boxes && x != y :: x.confidence != y.confidence
  }

  /** Boxes that conflict are never equally sure; distinct confidences are the simplest way to have this. */
  ghost predicate TieFree(boxes: set<Detection>, threshold: real) {
    forall x, y | x in boxes && y in boxes && x != y && Conflict(x, y, threshold) :: x.confidence != y.confidence
  }

  /** A kernel: no two members conflict, and every box outside conflicts with a more confident member. */
  ghost predicate IsKernel(kernel: set<Detection>, boxes: set<Detection>, threshold: real) {
    && kernel <= boxes
    && (forall x, y | x in kernel && y in kernel && x != y :: !Conflict(x, y, threshold))
    && (forall x | x in boxes - kernel :: exists k ::
        k in kernel && k.confidence > x.confidence && Conflict(k, x, threshold))
  }

  function Above(boxes: set<Detection>, x: Detection): set<Detection> {
    set y | y in boxes && y.confidence > x.confidence
  }

  lemma {:induction false} KernelsAgree(kernel: set<Detection>, other: set<Detection>, boxes: set<Detection>,
                                        threshold: real, x: Detection)
    requires IsKernel(kernel, boxes, threshold) && IsKernel(other, boxes, threshold) && x in boxes
    ensures x in kernel <==> x in other
    decreases Above(boxes, x)
  {
    forall y | y in Above(boxes, x) ensures y in kernel <==> y in other {
      assert y !in Above(boxes, y);
      assert Above(boxes, y) < Above(boxes, x);
      KernelsAgree(kernel, other, boxes, threshold, y);
    }
  }

  /** A conflict graph has one kernel: what is kept does not depend on how it was found. */
  lemma KernelUnique(kernel: set<Detection>, other: set<Detection>, boxes: set<Detection>, threshold: real)
    requires IsKernel(kernel, boxes, threshold) && IsKernel(other, boxes, threshold)
    ensures kernel == other
  {
    forall x | x in boxes ensures x in kernel <==> x in other {
      KernelsAgree(kernel, other, boxes, threshold, x);
    }
  }

  function Members(s: seq<Detection>): set<Detection> {
    set x | x in s
  }

  /** Without tied conflicts the survivors are the kernel of the conflict graph. */
  lemma GreedyIsKernel(s: seq<Detection>, threshold: real)
    requires Descending(s) && TieFree(Members(s), threshold)
    ensures IsKernel(Members(Greedy(s, threshold)), Members(s), threshold)
  {
    var kept := Greedy(s, threshold);
    GreedyMeaning(s, threshold);
    SublistMembers(kept, s);
    forall x, y | x in kept && y in kept && x != y ensures !Conflict(x, y, threshold) {
      FreePair(kept, x, y, threshold);
    }
    forall x | x in Members(s) - Members(kept)
      ensures exists k :: k in Members(kept) && k.confidence > x.confidence && Conflict(k, x, threshold)
    {
      var k :| k in kept && DroppedFor(x, k, threshold);
      assert k in Members(s) && x in Members(s) && k != x;
      assert k in Members(kept);
    }
  }

  lemma FreePair(s: seq<Detection>, x: Detection, y: Detection, threshold: real)
    requires ConflictFree(s, threshold) && x in s && y in s && x != y
    ensures !Conflict(x, y, threshold)
  {
    ConflictSymmetric(x, y, threshold);
    var i :| 0 <= i < |s| && s[i] == x;
    var j :| 0 <= j < |s| && s[j] == y;
    assert i < j || j < i;
  }

  lemma SameHead(s: seq<Detection>, t: seq<Detection>)
    requires Descending(s) && Descending(t) && multiset(s) == multiset(t) && s != [] && t != []
    requires DistinctConfidences(Members(s))
    ensures s[0] == t[0]
  {
    assert s[0] in multiset(t) && t[0] in multiset(s);
    assert s[0] in t && t[0] in s;
    assert s[0] in Members(s) && t[0] in Members(s);
  }

  lemma TailBag(s: seq<Detection>)
    requires s != []
    ensures multiset(s[1..]) == multiset(s) - multiset{s[0]}
    ensures s == [s[0]] + s[1..] && Members(s[1..]) <= Members(s)
    ensures Descending(s) ==> Descending(s[1..])
  {
    assert s == [s[0]] + s[1..];
  }

  /** Distinct confidences leave one way to sort, so the result is one list whatever order the boxes came in. */
  lemma {:induction false} OneSortedOrder(s: seq<Detection>, t: seq<Detection>)
    requires Descending(s) && Descending(t) && multiset(s) == multiset(t) && DistinctConfidences(Members(s))
    ensures s == t
  {
    assert |s| == |multiset(s)| == |t|;
    if s != [] {
      SameHead(s, t);
      TailBag(s);
      TailBag(t);
      OneSortedOrder(s[1..], t[1..]);
    }
  }

  lemma NmsIgnoresInputOrder(input1: seq<Detection>, input2: seq<Detection>, sorted1: seq<Detection>,
                             sorted2: seq<Detection>,
                             threshold: real)
    requires multiset(input1) == multiset(input2) && DistinctConfidences(Members(input1))
    requires Descending(sorted1) && multiset(sorted1) == multiset(input1)
    requires Descending(sorted2) && multiset(sorted2) == multiset(input2)
    ensures Greedy(sorted1, threshold) == Greedy(sorted2, threshold)
    ensures forall kernel | IsKernel(kernel, Members(input1), threshold) ::
        kernel == Members(Greedy(sorted1, threshold))
  {
    SameMembers(sorted1, input1);
    OneSortedOrder(sorted1, sorted2);
    GreedyIsKernel(sorted1, threshold);
    forall kernel | IsKernel(kernel, Members(input1), threshold) ensures kernel == Members(Greedy(sorted1, threshold)) {
      KernelUnique(kernel, Members(Greedy(sorted1, threshold)), Members(input1), threshold);
    }
  }

  lemma SameMembers(s: seq<Detection>, t: seq<Detection>)
    requires multiset(s) == multiset(t)
    ensures Members(s) == Members(t)
  {
    forall x ensures x in s <==> x in t {
      assert x in multiset(s) <==> x in multiset(t);
    }
  }

  /** Two boxes that are equally sure and conflict survive or not by their position. */
  lemma TiesDependOnOrder(a: Detection, b: Detection, threshold: real)
    requires a != b && a.confidence == b.confidence && Conflict(a, b, threshold)
    ensures Descending([a, b]) && Descending([b, a]) && multiset([a, b]) == multiset([b, a])
    ensures Greedy([a, b], threshold) == [a] && Greedy([b, a], threshold) == [b]
    ensures Members(Greedy([a, b], threshold)) != Members(Greedy([b, a], threshold))
  {
    ConflictSymmetric(a, b, threshold);
    GreedyStep(a, [b], threshold);
    GreedyStep(b, [a], threshold);
    assert a in Members([a]) && a !in Members([b]);
  }
}
