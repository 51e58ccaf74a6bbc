/** When the boxes that survive suppression depend on the order the boxes came in. */
module NmsOrder {
  import opened Geometry
  import opened Nms

  // ----- suppression of one list after another -----

  /** What no kept box conflicts with. */
  function Filtered(s: seq<Detection>, kept: seq<Detection>, threshold: real): seq<Detection>
    decreases |kept|
  {
    if kept == [] then s else Filtered(Unconflicted(s, kept[0], threshold), kept[1..], threshold)
  }

  lemma {:induction false} UnconflictedConcat(a: seq<Detection>, b: seq<Detection>, head: Detection, threshold: real)
    ensures Unconflicted(a + b, head, threshold) == Unconflicted(a, head, threshold) + Unconflicted(b, head, threshold)
  {
    if a == [] {
      assert a + b == b;
    } else {
      assert (a + b)[1..] == a[1..] + b;
      UnconflictedConcat(a[1..], b, head, threshold);
    }
  }

  lemma FilteredStep(s: seq<Detection>, head: Detection, kept: seq<Detection>, threshold: real)
    ensures Filtered(s, [head] + kept, threshold) == Filtered(Unconflicted(s, head, threshold), kept, threshold)
  {
    assert ([head] + kept)[1..] == kept;
  }

  /** What survives of a list is what survives of its beginning, and then of the rest that this leaves. */
  lemma {:induction false} GreedyConcat(a: seq<Detection>, b: seq<Detection>, threshold: real)
    ensures Greedy(a + b, threshold)
        == Greedy(a, threshold) + Greedy(Filtered(b, Greedy(a, threshold), threshold), threshold)
    decreases |a|
  {
    if a == [] {
      assert a + b == b;
    } else {
      var head, rest := a[0], a[1..];
      var a', b' := Unconflicted(rest, head, threshold), Unconflicted(b, head, threshold);
      assert a == [head] + rest && a + b == [head] + (rest + b);
      calc {
        Greedy(a + b, threshold);
        { GreedyStep(head, rest + b, threshold); }
        [head] + Greedy(Unconflicted(rest + b, head, threshold), threshold);
        { UnconflictedConcat(rest, b, head, threshold); }
        [head] + Greedy(a' + b', threshold);
        { GreedyConcat(a', b', threshold); }
        [head] + (Greedy(a', threshold) + Greedy(Filtered(b', Greedy(a', threshold), threshold), threshold));
        { FilteredStep(b, head, Greedy(a', threshold), threshold); }
        [head] + (Greedy(a', threshold) + Greedy(Filtered(b, [head] + Greedy(a', threshold), threshold), threshold));
        [head] + Greedy(a', threshold) + Greedy(Filtered(b, [head] + Greedy(a', threshold), threshold), threshold);
        { GreedyStep(head, rest, threshold); }
        Greedy(a, threshold) + Greedy(Filtered(b, Greedy(a, threshold), threshold), threshold);
      }
    }
  }

  /** A box at the front that no kept box conflicts with stays at the front. */
  lemma {:induction false} FrontStays(x: Detection, rest: seq<Detection>, kept: seq<Detection>, threshold: real)
    requires forall k | k in kept :: !Conflict(k, x, threshold)
    ensures var r := Filtered([x] + rest, kept, threshold); r != [] && r[0] == x
    decreases |kept|
  {
    if kept != [] {
      assert kept == [kept[0]] + kept[1..];
      assert ([x] + rest)[1..] == rest;
      FrontStays(x, Unconflicted(rest, kept[0], threshold), kept[1..], threshold);
    }
  }

  lemma FirstUnopposedIsKept(above: seq<Detection>, x: Detection, rest: seq<Detection>, threshold: real)
    requires forall k | k in Greedy(above, threshold) :: !Conflict(k, x, threshold)
    ensures x in Greedy(above + ([x] + rest), threshold)
  {
    var kept := Greedy(above, threshold);
    FrontStays(x, rest, kept, threshold);
    GreedyConcat(above, [x] + rest, threshold);
    assert Greedy(Filtered([x] + rest, kept, threshold), threshold)[0] == x;
  }

  // ----- the boxes of one input -----

  /** No survivor that is more confident conflicts with x. */
  ghost predicate Unopposed(x: Detection, kept: seq<Detection>, threshold: real) {
    forall k | k in kept && k.confidence > x.confidence :: !Conflict(k, x, threshold)
  }

  /** Two different boxes are tied and conflict, and no more confident survivor decides between them. */
  ghost predicate Tied(x: Detection, y: Detection, kept: seq<Detection>, threshold: real) {
    && x != y && x.confidence == y.confidence && Conflict(x, y, threshold)
    && Unopposed(x, kept, threshold) && Unopposed(y, kept, threshold)
  }

  ghost predicate Contested(sorted: seq<Detection>, threshold: real) {
    exists x, y :: x in sorted && y in sorted && Tied(x, y, Greedy(sorted, threshold), threshold)
  }

  /** Every order of falling confidence of these boxes has the same survivors. */
  ghost predicate OrderIndependent(sorted: seq<Detection>, threshold: real) {
    forall t | IsSorting(t, sorted) :: Members(Greedy(t, threshold)) == Members(Greedy(sorted, threshold))
  }

  /** A box that a tied survivor displaced contests with it. */
  lemma DisplacedByTie(s: seq<Detection>, x: Detection, threshold: real) returns (k: Detection)
    requires Descending(s) && x in s && x !in Greedy(s, threshold) && Unopposed(x, Greedy(s, threshold), threshold)
    ensures k in Greedy(s, threshold) && Tied(x, k, Greedy(s, threshold), threshold)
  {
    GreedyMeaning(s, threshold);
    var kept := Greedy(s, threshold);
    k :| k in kept && DroppedFor(x, k, threshold);
    ConflictSymmetric(k, x, threshold);
    forall j | j in kept && j.confidence > k.confidence ensures !Conflict(j, k, threshold) {
      FreePair(kept, j, k, threshold);
    }
  }

  lemma SurvivorIsUnopposed(s: seq<Detection>, x: Detection, threshold: real)
    requires Descending(s) && x in Greedy(s, threshold)
    ensures Unopposed(x, Greedy(s, threshold), threshold)
  {
    GreedyMeaning(s, threshold);
    var kept := Greedy(s, threshold);
    forall k | k in kept && k.confidence > x.confidence ensures !Conflict(k, x, threshold) {
      FreePair(kept, k, x, threshold);
    }
  }

  /** Survivors that agree above a confidence oppose the same boxes of that confidence. */
  predicate AgreeAbove(a: seq<Detection>, b: seq<Detection>, confidence: real) {
    (forall k | k in a && k.confidence > confidence :: k in b)
        && (forall k | k in b && k.confidence > confidence :: k in a)
  }

  lemma OpposedAlike(a: seq<Detection>, b: seq<Detection>, x: Detection, threshold: real)
    requires AgreeAbove(a, b, x.confidence)
    ensures Unopposed(x, a, threshold) == Unopposed(x, b, threshold)
  {
  }

  lemma TieCarriesOver(a: seq<Detection>, b: seq<Detection>, x: Detection, k: Detection, threshold: real)
    requires AgreeAbove(a, b, x.confidence) && Tied(x, k, b, threshold)
    ensures Tied(x, k, a, threshold)
  {
    OpposedAlike(a, b, x, threshold);
    OpposedAlike(a, b, k, threshold);
  }

  /** A tie in the survivors of some order is a contest in any order that agrees on the more confident survivors. */
  lemma TieContests(s: seq<Detection>, kept: seq<Detection>, x: Detection, k: Detection, threshold: real)
    requires x in s && k in s && Tied(x, k, kept, threshold) && AgreeAbove(Greedy(s, threshold), kept, x.confidence)
    ensures Contested(s, threshold)
  {
    TieCarriesOver(Greedy(s, threshold), kept, x, k, threshold);
  }

  /** Without a contest any two orders agree on a box if they agree on all more confident ones. */
  lemma AgreeAt(s: seq<Detection>, t: seq<Detection>, x: Detection, threshold: real)
    requires Descending(s) && IsSorting(t, s) && !Contested(s, threshold) && x in s
    requires AgreeAbove(Greedy(s, threshold), Greedy(t, threshold), x.confidence)
    ensures x in Greedy(s, threshold) <==> x in Greedy(t, threshold)
  {
    var a, b := Greedy(s, threshold), Greedy(t, threshold);
    GreedyMeaning(s, threshold);
    GreedyMeaning(t, threshold);
    SublistMembers(a, s);
    SublistMembers(b, t);
    SameMembers(s, t);
    assert x in Members(s);
    OpposedAlike(a, b, x, threshold);
    if x in a && x !in b {
      SurvivorIsUnopposed(s, x, threshold);
      var k := DisplacedByTie(t, x, threshold);
      assert k in Members(t);
      TieContests(s, b, x, k, threshold);
    }
    if x in b && x !in a {
      SurvivorIsUnopposed(t, x, threshold);
      var k := DisplacedByTie(s, x, threshold);
      TieContests(s, a, x, k, threshold);
    }
  }

  lemma {:induction false} AgreeEverywhere(s: seq<Detection>, t: seq<Detection>, x: Detection, threshold: real)
    requires Descending(s) && IsSorting(t, s) && !Contested(s, threshold) && x in s
    ensures x in Greedy(s, threshold) <==> x in Greedy(t, threshold)
    decreases Above(Members(s), x)
  {
    var a, b := Greedy(s, threshold), Greedy(t, threshold);
    GreedyMeaning(s, threshold);
    GreedyMeaning(t, threshold);
    SublistMembers(a, s);
    SublistMembers(b, t);
    SameMembers(s, t);
    forall k | k in s && k.confidence > x.confidence ensures k in a <==> k in b {
      assert k in Above(Members(s), x) && k !in Above(Members(s), k);
      assert Above(Members(s), k) < Above(Members(s), x);
      AgreeEverywhere(s, t, k, threshold);
    }
    assert forall k | k in b :: k in Members(t);
    AgreeAt(s, t, x, threshold);
  }

  // ----- a contest can go either way -----

  /** How many boxes lead the list with more than this confidence. */
  lemma {:induction false} LeadersEnd(s: seq<Detection>, confidence: real) returns (h: nat)
    requires Descending(s)
    ensures h <= |s| && (forall i | 0 <= i < h :: s[i].confidence > confidence)
    ensures forall i | h <= i < |s| :: s[i].confidence <= confidence
  {
    if s == [] || s[0].confidence <= confidence {
      h := 0;
    } else {
      h := LeadersEnd(s[1..], confidence);
      h := h + 1;
    }
  }

  lemma DescendingConcat(a: seq<Detection>, b: seq<Detection>)
    requires Descending(a) && Descending(b) && forall p, q | p in a && q in b :: p.confidence >= q.confidence
    ensures Descending(a + b)
  {
    forall i, j | 0 <= i < j < |a + b| ensures (a + b)[i].confidence >= (a + b)[j].confidence {
      if i < |a| <= j {
        assert a[i] in a && b[j - |a|] in b;
      }
    }
  }

  /** The boxes of a list of ties and less confident ones with the j-th put first. */
  lemma PutFirst(tail: seq<Detection>, j: nat)
    requires Descending(tail) && j < |tail| && tail[j].confidence == tail[0].confidence
    ensures var t := [tail[j]] + (tail[..j] + tail[j + 1..]);
      Descending(t) && multiset(t) == multiset(tail) && forall d | d in t :: d in tail
  {
    var rest := tail[..j] + tail[j + 1..];
    assert tail == tail[..j] + [tail[j]] + tail[j + 1..];
    assert Descending(rest);
    DescendingConcat([tail[j]], rest);
  }

  /** The leaders stay, and the rest may be put in another order. */
  lemma SortingOfParts(s: seq<Detection>, h: nat, t: seq<Detection>)
    requires Descending(s) && h <= |s| && Descending(t) && multiset(t) == multiset(s[h..])
    requires forall d | d in t :: d in s[h..]
    ensures IsSorting(s[..h] + t, s)
  {
    assert s == s[..h] + s[h..];
    forall p, q | p in s[..h] && q in t ensures p.confidence >= q.confidence {
      assert q in s[h..];
      var j :| 0 <= j < |s[h..]| && s[h..][j] == q;
      assert s[h + j] == q;
    }
    DescendingConcat(s[..h], t);
  }

  /** Survivors among the leaders are the survivors of the whole list that are more confident. */
  lemma LeadersSurvive(s: seq<Detection>, h: nat, threshold: real)
    requires Descending(s) && h <= |s|
    ensures forall k | k in Greedy(s[..h], threshold) :: k in Greedy(s, threshold) && k in s[..h]
  {
    assert s == s[..h] + s[h..];
    GreedyConcat(s[..h], s[h..], threshold);
    GreedyMeaning(s[..h], threshold);
    SublistMembers(Greedy(s[..h], threshold), s[..h]);
  }

  /** An order in which x survives. */
  lemma OrderKeeping(s: seq<Detection>, x: Detection, threshold: real) returns (t: seq<Detection>)
    requires Descending(s) && x in s && Unopposed(x, Greedy(s, threshold), threshold)
    ensures IsSorting(t, s) && x in Greedy(t, threshold)
  {
    var h := LeadersEnd(s, x.confidence);
    var i :| 0 <= i < |s| && s[i] == x;
    var tail, j := s[h..], i - h;
    assert tail[j] == x && tail[0] == s[h];
    PutFirst(tail, j);
    var rest := tail[..j] + tail[j + 1..];
    SortingOfParts(s, h, [x] + rest);
    LeadersSurvive(s, h, threshold);
    forall k | k in Greedy(s[..h], threshold) ensures !Conflict(k, x, threshold) {
      var n :| 0 <= n < h && s[n] == k;
    }
    FirstUnopposedIsKept(s[..h], x, rest, threshold);
    t := s[..h] + ([x] + rest);
  }

  /**
   * For the boxes of one input, in any order of falling confidence: the survivors do not depend on the order exactly
   * if no two tied boxes conflict that no more confident survivor conflicts with.
   */
  lemma OrderIndependentIff(sorted: seq<Detection>, threshold: real)
    requires Descending(sorted)
    ensures OrderIndependent(sorted, threshold) <==> !Contested(sorted, threshold)
  {
    if Contested(sorted, threshold) {
      var x, y :| x in sorted && y in sorted && Tied(x, y, Greedy(sorted, threshold), threshold);
      var t := OrderKeeping(sorted, x, threshold);
      var u := OrderKeeping(sorted, y, threshold);
      GreedyMeaning(t, threshold);
      if y in Greedy(t, threshold) {
        FreePair(Greedy(t, threshold), x, y, threshold);
      }
      assert y in Members(Greedy(u, threshold)) && y !in Members(Greedy(t, threshold));
    } else {
      forall t | IsSorting(t, sorted) ensures Members(Greedy(t, threshold)) == Members(Greedy(sorted, threshold)) {
        SameSurvivors(sorted, t, threshold);
      }
    }
  }

  lemma SameSurvivors(s: seq<Detection>, t: seq<Detection>, threshold: real)
    requires Descending(s) && IsSorting(t, s) && !Contested(s, threshold)
    ensures Members(Greedy(t, threshold)) == Members(Greedy(s, threshold))
  {
    GreedyMeaning(s, threshold);
    GreedyMeaning(t, threshold);
    SublistMembers(Greedy(s, threshold), s);
    SublistMembers(Greedy(t, threshold), t);
    SameMembers(s, t);
    forall x ensures x in Greedy(t, threshold) <==> x in Greedy(s, threshold) {
      if x in s {
        AgreeEverywhere(s, t, x, threshold);
      } else {
        assert x !in Members(t);
      }
    }
  }

  // ----- all inputs from one stock of boxes -----

  /** Any two sorted arrangements of the same boxes, drawn from this stock, keep the same set. */
  ghost predicate StockIsOrderIndependent(stock: set<Detection>, threshold: real) {
    forall s, t | Descending(s) && Descending(t) && multiset(s) == multiset(t) && Members(s) <= stock ::
      Members(Greedy(s, threshold)) == Members(Greedy(t, threshold))
  }

  /** Exactly when the order of the input can matter: when two conflicting boxes are tied. */
  lemma StockIsOrderIndependentIff(stock: set<Detection>, threshold: real)
    ensures StockIsOrderIndependent(stock, threshold) <==> TieFree(stock, threshold)
  {
    if TieFree(stock, threshold) {
      forall s, t | Descending(s) && Descending(t) && multiset(s) == multiset(t) && Members(s) <= stock
        ensures Members(Greedy(s, threshold)) == Members(Greedy(t, threshold))
      {
        SameMembers(s, t);
        GreedyIsKernel(s, threshold);
        GreedyIsKernel(t, threshold);
        KernelUnique(Members(Greedy(s, threshold)), Members(Greedy(t, threshold)), Members(s), threshold);
      }
    }
    if StockIsOrderIndependent(stock, threshold) {
      forall a, b | a in stock && b in stock && a != b && Conflict(a, b, threshold)
          ensures a.confidence != b.confidence {
        if a.confidence == b.confidence {
          assert Members([a, b]) <= stock;
          TiesDependOnOrder(a, b, threshold);
        }
      }
    }
  }
}
