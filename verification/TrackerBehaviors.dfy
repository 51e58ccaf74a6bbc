/** A track that has been followed long enough is never overlooked: it stays put or it runs. */
module TrackerBehaviors {
  import opened Geometry
  import opened RealSums
  import opened Text
  import opened TrackerRuns
  import opened Tracking

  // ----- distances -----

  lemma PositiveProduct(x: real, y: real)
    requires 0.0 < x && 0.0 < y
    ensures 0.0 < x * y
  {
  }

  lemma SquareOrder(x: real, y: real)
    requires 0.0 <= y && x * x <= y * y
    ensures x <= y
  {
    assert x * x - y * y == (x - y) * (x + y);
    if x > y {
      PositiveProduct(x - y, x + y);
    }
  }

  lemma PlaneCauchySchwarz(a: real, b: real, c: real, d: real)
    ensures (a * c + b * d) * (a * c + b * d) <= (a * a + b * b) * (c * c + d * d)
  {
    var e := a * d - b * c;
    assert (a * a + b * b) * (c * c + d * d) - (a * c + b * d) * (a * c + b * d) == e * e;
  }

  lemma SquareOfProduct(u: real, v: real)
    ensures (u * v) * (u * v) == (u * u) * (v * v)
  {
  }

  lemma SquareOfSum(u: real, v: real)
    ensures (u + v) * (u + v) == u * u + v * v + 2.0 * (u * v)
  {
  }

  /** |(a, b) + (c, d)| <= |(a, b)| + |(c, d)| for lengths u, v and w of the three vectors. */
  lemma LengthTriangle(a: real, b: real, c: real, d: real, u: real, v: real, w: real)
    requires u >= 0.0 && u * u == a * a + b * b
    requires v >= 0.0 && v * v == c * c + d * d
    requires w >= 0.0 && w * w == (a + c) * (a + c) + (b + d) * (b + d)
    ensures w <= u + v
  {
    var dot := a * c + b * d;
    assert dot <= u * v by {
      PlaneCauchySchwarz(a, b, c, d);
      SquareOfProduct(u, v);
      SquareOrder(dot, u * v);
    }
    assert w * w <= (u + v) * (u + v) by {
      SquareOfSum(a, c);
      SquareOfSum(b, d);
      SquareOfSum(u, v);
    }
    SquareOrder(w, u + v);
  }

  lemma DistanceTriangle(sqrt: real -> real, p: Point, q: Point, r: Point)
    requires IsSqrt(sqrt)
    ensures Distance(sqrt, p, r) <= Distance(sqrt, p, q) + Distance(sqrt, q, r)
  {
    var (a, b, c, d) := (q.0 - p.0, q.1 - p.1, r.0 - q.0, r.1 - q.1);
    NormSquared(sqrt, p, q);
    NormSquared(sqrt, q, r);
    NormSquared(sqrt, p, r);
    assert r.0 - p.0 == a + c && r.1 - p.1 == b + d;
    LengthTriangle(a, b, c, d, Distance(sqrt, p, q), Distance(sqrt, q, r), Distance(sqrt, p, r));
  }

  lemma NormSquared(sqrt: real -> real, p: Point, q: Point)
    requires IsSqrt(sqrt)
    ensures var n, dx, dy := Distance(sqrt, p, q), q.0 - p.0, q.1 - p.1;
      n >= 0.0 && n * n == dx * dx + dy * dy
  {
    var dx, dy := q.0 - p.0, q.1 - p.1;
    assert dx * dx >= 0.0 && dy * dy >= 0.0;
  }

  /** Walking is never shorter than going straight. */
  lemma {:induction false} PathIsLonger(sqrt: real -> real, points: seq<Point>, n: nat)
    requires IsSqrt(sqrt) && 1 <= n <= |points|
    ensures Distance(sqrt, points[0], points[n - 1]) <= PathLength(sqrt, points, n)
  {
    if n == 1 {
      StepIsPositiveIff(sqrt, points[0], points[0]);
    } else {
      PathIsLonger(sqrt, points, n - 1);
      DistanceTriangle(sqrt, points[0], points[n - 2], points[n - 1]);
    }
  }

  // ----- reports -----

  lemma Average(total: real, steps: real, threshold: real)
    requires steps >= 1.0
    ensures total / steps > threshold <==> total > threshold * steps
  {
    var avg := total / steps;
    assert avg * steps == total;
    assert avg > threshold ==> (avg - threshold) * steps > 0.0;
    assert avg <= threshold ==> (threshold - avg) * steps >= 0.0;
  }

  /** A followed track is reported as Loitering or Running unless the threshold is zero and it never moved. */
  lemma FollowedTrackIsReportedIff(c: Config, sqrt: real -> real, t: Track)
    requires IsSqrt(sqrt) && t.consecutiveFrames >= c.loiterFrames && |t.trajectory| >= 2
    ensures Behavior(c, sqrt, t) in {Some(Loitering), Some(Running)}
       <==> c.runningSpeedThreshold != 0.0 || exists i ::
           0 < i < |t.trajectory| && t.trajectory[i] != t.trajectory[i - 1]
  {
    LoitersOrRunsIff(c, sqrt, t);
    PathIsPositiveIff(sqrt, t.trajectory, |t.trajectory|);
  }

  lemma LoitersOrRunsIff(c: Config, sqrt: real -> real, t: Track)
    requires IsSqrt(sqrt) && t.consecutiveFrames >= c.loiterFrames && |t.trajectory| >= 2
    ensures Loiters(c, sqrt, t) || Runs(c, sqrt, t)
       <==> c.runningSpeedThreshold != 0.0 || PathLength(sqrt, t.trajectory, |t.trajectory|) > 0.0
  {
    var n, v := |t.trajectory|, c.runningSpeedThreshold;
    var path := PathLength(sqrt, t.trajectory, n);
    var direct := Distance(sqrt, t.trajectory[0], t.trajectory[n - 1]);
    PathIsLonger(sqrt, t.trajectory, n);
    StepIsPositiveIff(sqrt, t.trajectory[0], t.trajectory[n - 1]);
    RunsIff(c, sqrt, t);
    ReachIsTimes(v, n);
    Verdict(v, n, direct, path);
  }

  lemma Verdict(v: real, n: nat, direct: real, path: real)
    requires n >= 2 && 0.0 <= direct <= path
    ensures direct < Times(n, v) || path > Times(n - 1, v) <==> v != 0.0 || path > 0.0
  {
    OneMoreTime(n - 1, v);
    SignOfTimes(n - 1, v);
  }

  lemma SignOfTimes(n: nat, v: real)
    requires n >= 1
    ensures v < 0.0 ==> Times(n, v) < 0.0
    ensures v == 0.0 ==> Times(n, v) == 0.0
  {
  }

  lemma {:induction false} PathIsPositiveIff(sqrt: real -> real, points: seq<Point>, n: nat)
    requires IsSqrt(sqrt) && n <= |points|
    ensures PathLength(sqrt, points, n) >= 0.0
    ensures PathLength(sqrt, points, n) > 0.0 <==> exists i :: 0 < i < n && points[i] != points[i - 1]
  {
    if n >= 2 {
      PathIsPositiveIff(sqrt, points, n - 1);
      StepIsPositiveIff(sqrt, points[n - 2], points[n - 1]);
    }
  }

  lemma StepIsPositiveIff(sqrt: real -> real, p: Point, q: Point)
    requires IsSqrt(sqrt)
    ensures Distance(sqrt, p, q) >= 0.0 && (Distance(sqrt, p, q) > 0.0 <==> p != q)
  {
    NormSquared(sqrt, p, q);
    PositiveLengthIff(Distance(sqrt, p, q), q.0 - p.0, q.1 - p.1);
  }

  lemma PositiveLengthIff(n: real, dx: real, dy: real)
    requires n >= 0.0 && n * n == dx * dx + dy * dy
    ensures n > 0.0 <==> dx != 0.0 || dy != 0.0
  {
    if dx != 0.0 || dy != 0.0 {
      calc {
        n * n;
      ==
        dx * dx + dy * dy;
      >  { SumOfSquaresPositive(dx, dy); }
        0.0;
      }
    } else {
      SquareOrder(n, 0.0);
    }
  }

  lemma SumOfSquaresPositive(x: real, y: real)
    requires x != 0.0 || y != 0.0
    ensures x * x + y * y > 0.0
  {
    assert x * x >= 0.0 && y * y >= 0.0;
    assert x * x > 0.0 || y * y > 0.0;
  }

  // ----- what each verdict says of the track -----

  /** The end of the trajectory lies less than the threshold, taken once for every point, from its start. */
  predicate StaysPut(c: Config, t: Track) {
    var n := |t.trajectory|;
    && n >= 2 && c.runningSpeedThreshold > 0.0
    && Sq(t.trajectory[n - 1].0 - t.trajectory[0].0) + Sq(t.trajectory[n - 1].1 - t.trajectory[0].1)
       < Sq(Times(n, c.runningSpeedThreshold))
  }

  predicate LongerThan(p: Point, q: Point, v: real) {
    v < 0.0 || Sq(q.0 - p.0) + Sq(q.1 - p.1) > Sq(v)
  }

  predicate SomeStepLonger(t: Track, v: real) {
    exists i :: 0 < i < |t.trajectory| && LongerThan(t.trajectory[i - 1], t.trajectory[i], v)
  }

  predicate AllStepsLonger(t: Track, v: real) {
    forall i | 0 < i < |t.trajectory| :: LongerThan(t.trajectory[i - 1], t.trajectory[i], v)
  }

  /** The track has fewer than half as many matches as frames passed from its first sighting to its last. */
  predicate SeldomSeen(t: Track) {
    t.lastSeen > t.firstSeen && 0 < 2 * t.consecutiveFrames < t.lastSeen - t.firstSeen
  }

  lemma SquaresInOrder(x: real, y: real)
    requires 0.0 <= x && 0.0 <= y
    ensures x < y <==> Sq(x) < Sq(y)
  {
    if Sq(y) <= Sq(x) {
      SquareOrder(y, x);
    } else {
      SquareOrder(x, y);
    }
  }

  lemma DistanceBelowIff(sqrt: real -> real, p: Point, q: Point, r: real)
    requires IsSqrt(sqrt)
    ensures Distance(sqrt, p, q) < r <==> r > 0.0 && Sq(q.0 - p.0) + Sq(q.1 - p.1) < Sq(r)
  {
    NormSquared(sqrt, p, q);
    if r > 0.0 {
      SquaresInOrder(Distance(sqrt, p, q), r);
    }
  }

  lemma LongerThanIff(sqrt: real -> real, p: Point, q: Point, v: real)
    requires IsSqrt(sqrt)
    ensures LongerThan(p, q, v) <==> Distance(sqrt, p, q) > v
  {
    NormSquared(sqrt, p, q);
    if v >= 0.0 {
      SquaresInOrder(v, Distance(sqrt, p, q));
    }
  }

  lemma ReachIsTimes(v: real, n: nat)
    requires n > 0
    ensures Reach(v, n) == Times(n, v) && (Times(n, v) > 0.0 <==> v > 0.0)
  {
    assert v > 0.0 ==> n as real * v > 0.0;
    assert v <= 0.0 ==> n as real * (-v) >= 0.0;
  }

  lemma {:induction false} PathOfSteps(sqrt: real -> real, t: Track, v: real, n: nat)
    requires IsSqrt(sqrt) && 1 <= n <= |t.trajectory|
    ensures !SomeStepLonger(t, v) ==> PathLength(sqrt, t.trajectory, n) <= Times(n - 1, v)
    ensures AllStepsLonger(t, v) && n >= 2 ==> PathLength(sqrt, t.trajectory, n) > Times(n - 1, v)
  {
    assert Times(0, v) == 0.0;
    if n >= 2 {
      PathOfSteps(sqrt, t, v, n - 1);
      LongerThanIff(sqrt, t.trajectory[n - 2], t.trajectory[n - 1], v);
      OneMoreTime(n - 2, v);
    }
  }

  /** Loitering is a matter of how far the end of the trajectory lies from its start. */
  lemma LoiteringIff(c: Config, sqrt: real -> real, t: Track)
    requires IsSqrt(sqrt)
    ensures Behavior(c, sqrt, t) == Some(Loitering) <==> t.consecutiveFrames >= c.loiterFrames && StaysPut(c, t)
  {
    var n := |t.trajectory|;
    if n >= 2 {
      ReachIsTimes(c.runningSpeedThreshold, n);
      DistanceBelowIff(sqrt, t.trajectory[0], t.trajectory[n - 1], Reach(c.runningSpeedThreshold, n));
    }
  }

  lemma RunsIff(c: Config, sqrt: real -> real, t: Track)
    ensures var n := |t.trajectory|;
      Runs(c, sqrt, t)
      <==> n >= 2 && PathLength(sqrt, t.trajectory, n) > Times(n - 1, c.runningSpeedThreshold)
  {
    var n, v := |t.trajectory|, c.runningSpeedThreshold;
    if n >= 2 {
      Average(PathLength(sqrt, t.trajectory, n), (n - 1) as real, v);
      assert Times(n - 1, v) == v * (n - 1) as real;
    }
  }

  /** A running track made a step longer than the threshold. */
  lemma RunningMeans(c: Config, sqrt: real -> real, t: Track)
    requires IsSqrt(sqrt) && Behavior(c, sqrt, t) == Some(Running)
    ensures SomeStepLonger(t, c.runningSpeedThreshold)
  {
    RunsIff(c, sqrt, t);
    PathOfSteps(sqrt, t, c.runningSpeedThreshold, |t.trajectory|);
  }

  /** A track whose steps are all longer than the threshold runs, unless it loiters. */
  lemma LongStepsRun(c: Config, sqrt: real -> real, t: Track)
    requires IsSqrt(sqrt) && |t.trajectory| >= 2 && AllStepsLonger(t, c.runningSpeedThreshold)
    ensures Behavior(c, sqrt, t) in {Some(Loitering), Some(Running)}
  {
    RunsIff(c, sqrt, t);
    PathOfSteps(sqrt, t, c.runningSpeedThreshold, |t.trajectory|);
  }

  /** A lingering track was seldom seen, and a track that was seldom seen shows some behaviour. */
  lemma LingeringMeans(c: Config, sqrt: real -> real, t: Track)
    requires t.lastSeen - t.firstSeen < 0x8000_0000
    ensures Behavior(c, sqrt, t) == Some(Lingering) ==> SeldomSeen(t)
    ensures SeldomSeen(t) ==> Behavior(c, sqrt, t).Some?
  {
    if t.lastSeen > t.firstSeen {
      var span := t.lastSeen - t.firstSeen;
      assert Int32(span) == span;
      assert t.consecutiveFrames < Half(span + 1) <==> 2 * t.consecutiveFrames < span;
    }
  }

  /** What a report of this behaviour says of the track. */
  predicate Justified(c: Config, t: Track, b: BehaviorType) {
    match b
    case Loitering => t.consecutiveFrames >= c.loiterFrames && StaysPut(c, t)
    case Running => SomeStepLonger(t, c.runningSpeedThreshold)
                    && !(t.consecutiveFrames >= c.loiterFrames && StaysPut(c, t))
    case Lingering => t.lastSeen - t.firstSeen < 0x8000_0000 ==> SeldomSeen(t)
  }

  /** Every entry of a report is true of a track of that id, and every track that loiters is in it. */
  lemma ReportsAreJustified(c: Config, sqrt: real -> real, tracks: seq<Track>)
    requires IsSqrt(sqrt)
    ensures forall id: nat, b | (id, b) in Report(c, sqrt, tracks) ::
              exists t :: t in tracks && t.id == id && Justified(c, t, b)
    ensures forall t | t in tracks && Justified(c, t, Loitering) :: (t.id, Loitering) in Report(c, sqrt, tracks)
  {
    ReportMembers(c, sqrt, tracks);
    forall id: nat, b | (id, b) in Report(c, sqrt, tracks)
      ensures exists t :: t in tracks && t.id == id && Justified(c, t, b)
    {
      assert Shows(c, sqrt, tracks, id, b);
      var t :| t in tracks && t.id == id && Behavior(c, sqrt, t) == Some(b);
      BehaviorIsJustified(c, sqrt, t);
    }
    forall t | t in tracks && Justified(c, t, Loitering) ensures (t.id, Loitering) in Report(c, sqrt, tracks) {
      LoiteringIff(c, sqrt, t);
      assert Shows(c, sqrt, tracks, t.id, Loitering);
    }
  }

  lemma BehaviorIsJustified(c: Config, sqrt: real -> real, t: Track)
    requires IsSqrt(sqrt) && Behavior(c, sqrt, t).Some?
    ensures Justified(c, t, Behavior(c, sqrt, t).value)
  {
    LoiteringIff(c, sqrt, t);
    if Behavior(c, sqrt, t) == Some(Running) {
      RunningMeans(c, sqrt, t);
    }
    if t.lastSeen - t.firstSeen < 0x8000_0000 {
      LingeringMeans(c, sqrt, t);
    }
  }

  /** Some track with this id shows this behaviour. */
  predicate Shows(c: Config, sqrt: real -> real, tracks: seq<Track>, id: nat, b: BehaviorType) {
    exists t :: t in tracks && t.id == id && Behavior(c, sqrt, t) == Some(b)
  }

  /** The report lists exactly the tracks that show a behaviour. */
  lemma {:induction false} ReportMembers(c: Config, sqrt: real -> real, tracks: seq<Track>)
    ensures forall id: nat, b :: (id, b) in Report(c, sqrt, tracks) <==> Shows(c, sqrt, tracks, id, b)
    decreases |tracks|
  {
    if tracks != [] {
      var init, last := tracks[..|tracks| - 1], tracks[|tracks| - 1];
      ReportMembers(c, sqrt, init);
      assert tracks == init + [last];
    }
  }

  /** No track is reported twice. */
  lemma {:induction false} ReportDistinct(c: Config, sqrt: real -> real, tracks: seq<Track>)
    requires DistinctIds(tracks)
    ensures forall i, j | 0 <= i < j < |Report(c, sqrt, tracks)| ::
              Report(c, sqrt, tracks)[i].0 != Report(c, sqrt, tracks)[j].0
    decreases |tracks|
  {
    if tracks != [] {
      var init, last := tracks[..|tracks| - 1], tracks[|tracks| - 1];
      var before := Report(c, sqrt, init);
      ReportDistinct(c, sqrt, init);
      ReportMembers(c, sqrt, init);
      forall i | 0 <= i < |before| ensures before[i].0 != last.id {
        var (id, b) := before[i];
        assert (id, b) in before && Shows(c, sqrt, init, id, b);
      }
    }
  }

  lemma OneBehavior(c: Config, sqrt: real -> real, tracks: seq<Track>, t: Track)
    requires DistinctIds(tracks) && t in tracks
    ensures forall b :: Shows(c, sqrt, tracks, t.id, b) <==> Behavior(c, sqrt, t) == Some(b)
  {
    forall u | u in tracks && u.id == t.id ensures u == t {
      var i :| 0 <= i < |tracks| && tracks[i] == u;
      var j :| 0 <= j < |tracks| && tracks[j] == t;
      assert !(i < j) && !(j < i);
    }
  }

  /**
   * In any run, with a positive speed threshold, a track matched often enough gets one report: Loitering if it stays
   * put, else Running.
   */
  lemma LongTracksAreReported(c: Config, sqrt: real -> real, inputs: seq<Input>, t: Track)
    requires IsSqrt(sqrt) && inputs != [] && FramesRise(inputs) && c.runningSpeedThreshold > 0.0
    requires t in Run(c, inputs).tracks && t.consecutiveFrames >= c.loiterFrames
    requires t.consecutiveFrames >= 2 && c.trajectoryLength >= 2
    ensures var report := Report(c, sqrt, Run(c, inputs).tracks);
      && ((t.id, Loitering) in report <==> StaysPut(c, t))
      && ((t.id, Running) in report <==> !StaysPut(c, t))
      && (t.id, Lingering) !in report
  {
    var s := Run(c, inputs);
    LiveTracks(c, inputs);
    assert Honest(c, t, s.history, inputs[|inputs| - 1].frame);
    FollowedTrackIsReportedIff(c, sqrt, t);
    LoiteringIff(c, sqrt, t);
    ReportMembers(c, sqrt, s.tracks);
    OneBehavior(c, sqrt, s.tracks, t);
  }

  predicate Middle(p: Point, b: Box) {
    p.0 - b.xMin == b.xMax - p.0 && p.1 - b.yMin == b.yMax - p.1
  }

  lemma CenterIsMiddle(b: Box)
    ensures Middle(Center(b), b)
  {
  }

  /** Each point of the trajectory is the middle of a box; the boxes are those of the latest sightings, in order. */
  predicate Middles(t: Track, mine: seq<Sighting>) {
    var n := |t.trajectory|;
    n <= |mine| && forall k | 0 <= k < n :: Middle(t.trajectory[k], mine[|mine| - n + k].detection.box)
  }

  lemma WindowOfMiddles(c: Config, t: Track, history: seq<Sighting>)
    requires TrackOk(c, t, history)
    ensures Middles(t, Of(history, t.id))
  {
    var mine, n := Of(history, t.id), |t.trajectory|;
    var points := Centres(mine);
    forall k | 0 <= k < n ensures Middle(t.trajectory[k], mine[|mine| - n + k].detection.box) {
      assert t.trajectory[k] == points[|points| - n + k];
      CenterIsMiddle(mine[|mine| - n + k].detection.box);
    }
  }

  /** In any run the points of a trajectory are the middles of the boxes last sighted under its id, in order. */
  lemma TrajectoriesAreMiddles(c: Config, inputs: seq<Input>)
    ensures var s := Run(c, inputs); forall t | t in s.tracks :: Middles(t, Of(s.history, t.id))
  {
    var s := Run(c, inputs);
    RunConsistent(c, inputs);
    forall t | t in s.tracks ensures Middles(t, Of(s.history, t.id)) {
      WindowOfMiddles(c, t, s.history);
    }
  }
}
