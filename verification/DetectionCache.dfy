/** The deduplication cache: a deque pruned from the front, against a specification that never forgets. */
module DetectionCache {
  import opened Geometry
  import opened RealSums

  datatype Sighting = Sighting(className: string, confidence: real, box: Box, at: real)

  /** The test of the scan: b repeats a. */
  predicate Repeats(a: Sighting, b: Sighting, threshold: real) {
    a.className == b.className && IoU(a.box, b.box) >= threshold
  }

  /** Which sighting repeats which. */
  type Relation = (Sighting, Sighting) -> bool

  function Same(threshold: real): Relation {
    (a, b) => Repeats(a, b, threshold)
  }

  predicate Expired(s: Sighting, now: real, ttl: real) {
    now - s.at > ttl
  }

  predicate InTimeOrder(s: seq<Sighting>) {
    forall i, j | 0 <= i < j < |s| :: s[i].at <= s[j].at
  }

  /** In time order, and none after the clock. */
  ghost predicate TimedUpTo(s: seq<Sighting>, clock: real) {
    InTimeOrder(s) && forall i | 0 <= i < |s| :: s[i].at <= clock
  }

  /** What is left once expired entries are popped until the front one is not. */
  function FrontPopped(cache: seq<Sighting>, now: real, ttl: real): (r: seq<Sighting>)
    ensures |r| <= |cache|
  {
    if cache != [] && Expired(cache[0], now, ttl) then FrontPopped(cache[1..], now, ttl) else cache
  }

  /** All that has not expired. */
  function Unexpired(s: seq<Sighting>, now: real, ttl: real): seq<Sighting>
    decreases |s|
  {
    if s == [] then []
    else if Expired(s[0], now, ttl) then Unexpired(s[1..], now, ttl)
    else [s[0]] + Unexpired(s[1..], now, ttl)
  }

  // ----- the specification: one look at everything accepted so far -----

  ghost predicate Novel(accepted: seq<Sighting>, s: Sighting, same: Relation, ttl: real) {
    forall a | a in accepted && same(a, s) :: Expired(a, s.at, ttl)
  }

  /** The sightings accepted out of a run of calls. */
  ghost function Accepted(calls: seq<Sighting>, same: Relation, ttl: real): seq<Sighting>
    decreases |calls|
  {
    if calls == [] then []
    else
      var before, last := Accepted(calls[..|calls| - 1], same, ttl), calls[|calls| - 1];
      if Novel(before, last, same, ttl) then before + [last] else before
  }

  // ----- the code -----

  class DetectionCache {
    const iouThreshold: real
    const ttl: real
    var cache: seq<Sighting>
    ghost var calls: seq<Sighting>
    ghost var clock: real

    ghost function Everything(): seq<Sighting>
      reads this
    {
      Accepted(calls, Same(iouThreshold), ttl)
    }

    ghost predicate Valid()
      reads this
    {
      Consistent(cache, calls, clock, Same(iouThreshold), ttl)
    }

    constructor (iouThreshold: real, ttl: real, ghost start: real)
      ensures Valid() && calls == [] && clock == start
      ensures this.iouThreshold == iouThreshold && this.ttl == ttl
    {
      this.iouThreshold, this.ttl := iouThreshold, ttl;
      cache, calls, clock := [], [], start;
    }

    /** The loop that opens IsNovel and is the whole of Cleanup. */
    method PopExpired(now: real)
      modifies this`cache
      ensures cache == FrontPopped(old(cache), now, ttl)
    {
      while cache != [] && now - cache[0].at > ttl
        invariant FrontPopped(cache, now, ttl) == FrontPopped(old(cache), now, ttl)
        decreases |cache|
      {
        cache := cache[1..];
      }
    }

    /** Under a clock that does not run backwards the loop leaves exactly what has not expired. */
    method DropExpired(now: real)
      requires Valid() && clock <= now
      modifies this`cache, this`clock
      ensures Valid() && clock == now
      ensures cache == Unexpired(Everything(), now, ttl)
    {
      PoppedIsConsistent(cache, calls, clock, now, Same(iouThreshold), ttl);
      PopExpired(now);
      clock := now;
    }

    /** The answer is what a look at everything ever accepted would give. */
    method IsNovel(className: string, confidence: real, box: Box, now: real) returns (novel: bool)
      requires Valid() && clock <= now
      modifies this
      ensures Valid() && clock == now
      ensures calls == old(calls) + [Sighting(className, confidence, box, now)]
      ensures novel == Novel(old(Everything()), Sighting(className, confidence, box, now), Same(iouThreshold), ttl)
    {
      ghost var s := Sighting(className, confidence, box, now);
      DropExpired(now);
      var repeated := IsRepeated(className, box, s);
      Decided(cache, calls, s, repeated, Same(iouThreshold), ttl);
      if repeated {
        calls := calls + [s];
        return false;
      }
      calls := calls + [s];
      cache := cache + [Sighting(className, confidence, box, now)];
      return true;
    }

    /** The loop of IsNovel over the entries that are left. */
    method IsRepeated(className: string, box: Box, ghost s: Sighting) returns (repeated: bool)
      requires s.className == className && s.box == box
      ensures repeated <==> exists j :: 0 <= j < |cache| && Same(iouThreshold)(cache[j], s)
    {
      for k := 0 to |cache|
        invariant forall j | 0 <= j < k :: !Same(iouThreshold)(cache[j], s)
      {
        if cache[k].className != className {
          continue;
        }
        if IoU(cache[k].box, box) >= iouThreshold {
          return true;
        }
      }
      return false;
    }

    method Cleanup(now: real)
      requires Valid() && clock <= now
      modifies this`cache, this`clock
      ensures Valid() && clock == now
      ensures cache == Unexpired(Everything(), now, ttl)
    {
      DropExpired(now);
    }

    method Size() returns (n: nat)
      ensures n == |cache|
    {
      return |cache|;
    }
  }

  /** The cache is the tail of what was accepted, and what it let go has expired. */
  ghost predicate Holds(cache: seq<Sighting>, accepted: seq<Sighting>, clock: real, ttl: real) {
    && |cache| <= |accepted|
    && cache == accepted[|accepted| - |cache|..]
    && forall i | 0 <= i < |accepted| - |cache| :: Expired(accepted[i], clock, ttl)
  }

  /** The cache after these calls. */
  ghost predicate Consistent(cache: seq<Sighting>, calls: seq<Sighting>, clock: real, same: Relation, ttl: real) {
    Holds(cache, Accepted(calls, same, ttl), clock, ttl) && TimedUpTo(calls, clock)
  }

  lemma {:induction false} FrontPoppedIsTail(cache: seq<Sighting>, now: real, ttl: real)
    ensures var r := FrontPopped(cache, now, ttl);
      Holds(r, cache, now, ttl) && (r != [] ==> !Expired(r[0], now, ttl))
  {
    if cache != [] && Expired(cache[0], now, ttl) {
      FrontPoppedIsTail(cache[1..], now, ttl);
      var r := FrontPopped(cache[1..], now, ttl);
      assert cache[|cache| - |r|..] == cache[1..][|cache[1..]| - |r|..];
      forall i | 0 <= i < |cache| - |r| ensures Expired(cache[i], now, ttl) {
        assert i > 0 ==> cache[i] == cache[1..][i - 1];
      }
    }
  }

  /** Popping what has expired at a later time keeps the cache the tail of what was accepted. */
  lemma PoppedHolds(cache: seq<Sighting>, accepted: seq<Sighting>, clock: real, now: real, ttl: real)
    requires Holds(cache, accepted, clock, ttl) && clock <= now
    ensures var r := FrontPopped(cache, now, ttl);
      Holds(r, accepted, now, ttl) && (r != [] ==> !Expired(r[0], now, ttl))
  {
    FrontPoppedIsTail(cache, now, ttl);
    var r := FrontPopped(cache, now, ttl);
    var k := |accepted| - |cache|;
    assert cache[|cache| - |r|..] == accepted[|accepted| - |r|..];
    forall i | 0 <= i < |accepted| - |r| ensures Expired(accepted[i], now, ttl) {
      assert i >= k ==> accepted[i] == cache[i - k];
    }
  }

  /** Popping at a later time leaves exactly what has not expired of all that was accepted. */
  lemma PoppedIsConsistent(cache: seq<Sighting>, calls: seq<Sighting>, clock: real, now: real, same: Relation,
                           ttl: real)
    requires Consistent(cache, calls, clock, same, ttl) && clock <= now
    ensures Consistent(FrontPopped(cache, now, ttl), calls, now, same, ttl)
    ensures FrontPopped(cache, now, ttl) == Unexpired(Accepted(calls, same, ttl), now, ttl)
  {
    var accepted := Accepted(calls, same, ttl);
    PoppedHolds(cache, accepted, clock, now, ttl);
    AcceptedTimes(calls, same, ttl, clock);
    SortedTailIsUnexpired(FrontPopped(cache, now, ttl), accepted, now, ttl);
  }

  lemma NextCall(calls: seq<Sighting>, s: Sighting, same: Relation, ttl: real)
    ensures var before := Accepted(calls, same, ttl);
      Accepted(calls + [s], same, ttl) == if Novel(before, s, same, ttl) then before + [s] else before
  {
    assert (calls + [s])[..|calls + [s]| - 1] == calls;
  }

  lemma {:induction false} AcceptedTimes(calls: seq<Sighting>, same: Relation, ttl: real, clock: real)
    requires TimedUpTo(calls, clock)
    ensures TimedUpTo(Accepted(calls, same, ttl), clock)
    decreases |calls|
  {
    if calls != [] {
      AcceptedTimes(calls[..|calls| - 1], same, ttl, calls[|calls| - 1].at);
    }
  }

  lemma {:induction false} UnexpiredTail(s: seq<Sighting>, k: nat, now: real, ttl: real)
    requires k <= |s| && forall i | 0 <= i < k :: Expired(s[i], now, ttl)
    ensures Unexpired(s, now, ttl) == Unexpired(s[k..], now, ttl)
  {
    if k > 0 {
      UnexpiredTail(s[1..], k - 1, now, ttl);
      assert s[1..][k - 1..] == s[k..];
    }
  }

  lemma {:induction false} NothingExpired(s: seq<Sighting>, now: real, ttl: real)
    requires forall i | 0 <= i < |s| :: !Expired(s[i], now, ttl)
    ensures Unexpired(s, now, ttl) == s
  {
    if s != [] {
      NothingExpired(s[1..], now, ttl);
    }
  }

  /** Once the front has not expired, the tail that is left is all that has not. */
  lemma SortedTailIsUnexpired(cache: seq<Sighting>, accepted: seq<Sighting>, now: real, ttl: real)
    requires InTimeOrder(accepted) && Holds(cache, accepted, now, ttl)
    requires cache != [] ==> !Expired(cache[0], now, ttl)
    ensures cache == Unexpired(accepted, now, ttl)
  {
    var k := |accepted| - |cache|;
    UnexpiredTail(accepted, k, now, ttl);
    forall i | 0 <= i < |cache| ensures !Expired(cache[i], now, ttl) {
      assert cache[i] == accepted[k + i] && cache[0] == accepted[k];
    }
    NothingExpired(cache, now, ttl);
  }

  lemma {:induction false} UnexpiredMembers(s: seq<Sighting>, now: real, ttl: real)
    ensures forall x :: x in Unexpired(s, now, ttl) <==> x in s && !Expired(x, now, ttl)
  {
    if s != [] {
      UnexpiredMembers(s[1..], now, ttl);
      assert s == [s[0]] + s[1..];
    }
  }

  /** The scan of the unexpired entries decides as a scan of everything would. */
  lemma TailDecides(cache: seq<Sighting>, accepted: seq<Sighting>, s: Sighting, same: Relation, ttl: real)
    requires cache == Unexpired(accepted, s.at, ttl)
    ensures Novel(accepted, s, same, ttl) <==> forall j | 0 <= j < |cache| :: !same(cache[j], s)
  {
    UnexpiredMembers(accepted, s.at, ttl);
    if Novel(accepted, s, same, ttl) {
      forall j | 0 <= j < |cache| ensures !same(cache[j], s) {
        assert cache[j] in accepted;
      }
    }
  }

  lemma OneMoreCall(calls: seq<Sighting>, s: Sighting)
    requires TimedUpTo(calls, s.at)
    ensures TimedUpTo(calls + [s], s.at)
  {
  }

  lemma OneMoreHeld(cache: seq<Sighting>, accepted: seq<Sighting>, s: Sighting, clock: real, ttl: real)
    requires Holds(cache, accepted, clock, ttl)
    ensures Holds(cache + [s], accepted + [s], clock, ttl)
  {
    var k := |accepted| - |cache|;
    assert (accepted + [s])[k..] == accepted[k..] + [s];
  }

  /** What IsNovel leaves behind: the sighting joins the cache exactly if it is novel. */
  lemma Recorded(cache: seq<Sighting>, calls: seq<Sighting>, s: Sighting, same: Relation, ttl: real)
    requires Consistent(cache, calls, s.at, same, ttl)
    ensures var held := if Novel(Accepted(calls, same, ttl), s, same, ttl) then cache + [s] else cache;
      Consistent(held, calls + [s], s.at, same, ttl)
  {
    NextCall(calls, s, same, ttl);
    OneMoreCall(calls, s);
    OneMoreHeld(cache, Accepted(calls, same, ttl), s, s.at, ttl);
  }

  lemma Decided(cache: seq<Sighting>, calls: seq<Sighting>, s: Sighting, repeated: bool, same: Relation, ttl: real)
    requires Consistent(cache, calls, s.at, same, ttl) && cache == Unexpired(Accepted(calls, same, ttl), s.at, ttl)
    requires repeated <==> exists j :: 0 <= j < |cache| && same(cache[j], s)
    ensures Novel(Accepted(calls, same, ttl), s, same, ttl) == !repeated
    ensures Consistent(if repeated then cache else cache + [s], calls + [s], s.at, same, ttl)
  {
    TailDecides(cache, Accepted(calls, same, ttl), s, same, ttl);
    Recorded(cache, calls, s, same, ttl);
  }

  // ----- what the answers mean over a run -----

  /**
   * A sighting is new exactly if every one accepted before of its class, whose box overlaps its own by at least the
   * threshold, is more than the time to live ago.
   */
  lemma NovelIff(accepted: seq<Sighting>, s: Sighting, threshold: real, ttl: real)
    ensures Novel(accepted, s, Same(threshold), ttl)
       <==> forall a | a in accepted && a.className == s.className && IoU(a.box, s.box) >= threshold ::
              s.at - a.at > ttl
  {
    forall a | a in accepted
      ensures Same(threshold)(a, s) <==> a.className == s.className && IoU(a.box, s.box) >= threshold
    {
    }
  }

  /**
   * Popping only from the front removes all that has expired, whenever it is done, exactly if the entries are in time
   * order.
   */
  lemma FrontPoppingIsExactIff(cache: seq<Sighting>, ttl: real)
    ensures (forall now :: FrontPopped(cache, now, ttl) == Unexpired(cache, now, ttl)) <==> InTimeOrder(cache)
  {
    if InTimeOrder(cache) {
      forall now ensures FrontPopped(cache, now, ttl) == Unexpired(cache, now, ttl) {
        FrontPoppedIsTail(cache, now, ttl);
        SortedTailIsUnexpired(FrontPopped(cache, now, ttl), cache, now, ttl);
      }
    } else {
      var i, j :| 0 <= i < j < |cache| && cache[i].at > cache[j].at;
      var now := cache[i].at + ttl;
      FrontPoppedIsTail(cache, now, ttl);
      var k := |cache| - |FrontPopped(cache, now, ttl)|;
      assert k <= i;
      assert FrontPopped(cache, now, ttl)[j - k] == cache[j];
      UnexpiredMembers(cache, now, ttl);
      assert cache[j] in FrontPopped(cache, now, ttl) && Expired(cache[j], now, ttl);
      assert FrontPopped(cache, now, ttl) != Unexpired(cache, now, ttl);
    }
  }

  ghost predicate Apart(s: seq<Sighting>, same: Relation, ttl: real) {
    forall i, j | 0 <= i < j < |s| && same(s[i], s[j]) :: s[j].at - s[i].at > ttl
  }

  /** Of two accepted sightings the later repeats the earlier only after more than the time to live. */
  lemma {:induction false} AcceptedAreApart(calls: seq<Sighting>, same: Relation, ttl: real)
    ensures Apart(Accepted(calls, same, ttl), same, ttl)
    decreases |calls|
  {
    if calls != [] {
      AcceptedAreApart(calls[..|calls| - 1], same, ttl);
    }
  }

  /** A sighting that stands for s: the same class, enough overlap, and no older than the time to live. */
  ghost predicate StandsFor(a: Sighting, s: Sighting, same: Relation, ttl: real) {
    same(a, s) && !Expired(a, s.at, ttl)
  }

  /**
   * No sighting is lost without a stand-in: each is accepted or repeats one accepted before it, and not expired then.
   */
  lemma {:induction false} EverySightingIsStoodFor(calls: seq<Sighting>, same: Relation, ttl: real, k: nat)
    requires k < |calls|
    ensures var accepted := Accepted(calls, same, ttl);
      calls[k] in accepted || exists a ::
          a in Accepted(calls[..k], same, ttl) && a in accepted && StandsFor(a, calls[k], same, ttl)
    decreases |calls|
  {
    var init := calls[..|calls| - 1];
    if k < |init| {
      EverySightingIsStoodFor(init, same, ttl, k);
      assert init[..k] == calls[..k];
    }
  }

  ghost predicate AllRepeat(s: seq<Sighting>, same: Relation) {
    forall i, j | 0 <= i < j < |s| :: same(s[i], s[j])
  }

  lemma {:induction false} AcceptedAmong(calls: seq<Sighting>, same: Relation, ttl: real)
    ensures forall a | a in Accepted(calls, same, ttl) :: a in calls
    decreases |calls|
  {
    if calls != [] {
      AcceptedAmong(calls[..|calls| - 1], same, ttl);
    }
  }

  lemma {:induction false} AcceptedRepeatToo(calls: seq<Sighting>, same: Relation, ttl: real)
    requires AllRepeat(calls, same)
    ensures AllRepeat(Accepted(calls, same, ttl), same)
    decreases |calls|
  {
    if calls != [] {
      var init, last := calls[..|calls| - 1], calls[|calls| - 1];
      AcceptedRepeatToo(init, same, ttl);
      AcceptedAmong(init, same, ttl);
      forall a | a in init ensures same(a, last) {
        var i :| 0 <= i < |init| && init[i] == a;
        assert calls[i] == a;
      }
    }
  }

  lemma {:induction false} ApartTakesTime(s: seq<Sighting>, same: Relation, ttl: real)
    requires s != [] && Apart(s, same, ttl) && AllRepeat(s, same)
    ensures Times(|s| - 1, ttl) <= s[|s| - 1].at - s[0].at
    decreases |s|
  {
    if |s| > 1 {
      ApartTakesTime(s[..|s| - 1], same, ttl);
      OneMoreTime(|s| - 2, ttl);
      assert same(s[|s| - 2], s[|s| - 1]);
    } else {
      assert Times(0, ttl) == 0.0;
    }
  }

  /** An object that stays where it is is forwarded at most 1 + elapsed / ttl times. */
  lemma ObjectThatStaysIsThrottled(calls: seq<Sighting>, same: Relation, ttl: real)
    requires calls != [] && InTimeOrder(calls) && AllRepeat(calls, same)
    ensures Times(|Accepted(calls, same, ttl)| - 1, ttl) <= calls[|calls| - 1].at - calls[0].at
  {
    var accepted := Accepted(calls, same, ttl);
    FirstIsAccepted(calls, same, ttl);
    AcceptedAreApart(calls, same, ttl);
    AcceptedRepeatToo(calls, same, ttl);
    ApartTakesTime(accepted, same, ttl);
    AcceptedAmong(calls, same, ttl);
    assert accepted[|accepted| - 1] in calls;
  }

  lemma {:induction false} FirstIsAccepted(calls: seq<Sighting>, same: Relation, ttl: real)
    requires calls != []
    ensures var accepted := Accepted(calls, same, ttl); accepted != [] && accepted[0] == calls[0]
    decreases |calls|
  {
    if |calls| > 1 {
      FirstIsAccepted(calls[..|calls| - 1], same, ttl);
    } else {
      assert calls[..0] == [];
    }
  }
}
