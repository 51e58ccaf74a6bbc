/** Frame-to-frame tracking by greedy overlap matching. */
module Tracking {
  import opened Geometry
  import opened Text

  type Point = (real, real)

  datatype Config = Config(
    iouThreshold: real,
    maxLostFrames: int,
    trajectoryLength: int,
    loiterFrames: int,
    runningSpeedThreshold: real)

  datatype Track = Track(
    id: nat,
    className: string,
    confidence: real,
    box: Box,
    firstSeen: nat,
    lastSeen: nat,
    consecutiveFrames: int,
    trajectory: seq<Point>)

  function Center(b: Box): Point {
    ((b.xMin + b.xMax) / 2.0, (b.yMin + b.yMax) / 2.0)
  }

  /** static_cast<int> of a 64-bit count. */
  function Int32(x: nat): int {
    var low := x % 0x1_0000_0000;
    if low >= 0x8000_0000 then low - 0x1_0000_0000 else low
  }

  // ----- one detection -----

  /** The scan over the first n existing tracks: the unmatched one with the largest positive overlap, earliest first. */
  function Best(box: Box, tracks: seq<Track>, matched: seq<bool>, n: nat): (best: Option<nat>)
    requires n <= |matched| <= |tracks|
    ensures best.Some? ==> best.value < n
  {
    if n == 0 then None
    else
      var best := Best(box, tracks, matched, n - 1);
      if matched[n - 1] then best
      else if IoU(box, tracks[n - 1].box) > BestIoU(box, tracks, best) then Some(n - 1)
      else best
  }

  function BestIoU(box: Box, tracks: seq<Track>, best: Option<nat>): real
    requires best.Some? ==> best.value < |tracks|
  {
    if best.Some? then IoU(box, tracks[best.value].box) else 0.0
  }

  function Renewed(c: Config, t: Track, d: Detection, frame: nat): Track {
    t.(className := d.className, confidence := d.confidence, box := d.box, lastSeen := frame,
       consecutiveFrames := t.consecutiveFrames + 1,
       trajectory := Bounded(t.trajectory + [Center(d.box)], c.trajectoryLength))
  }

  function Bounded(trajectory: seq<Point>, length: int): seq<Point> {
    if |trajectory| > length && |trajectory| > 0 then trajectory[1..] else trajectory
  }

  function NewTrack(id: nat, d: Detection, frame: nat): Track {
    Track(id, d.className, d.confidence, d.box, frame, frame, 1, [Center(d.box)])
  }

  /** A detection that was given a track: the record a whole run is judged by. */
  datatype Sighting = Sighting(id: nat, frame: nat, detection: Detection)

  /** The loop state of Update; slots lists the track index each detection went to. */
  datatype Progress = Progress(
    tracks: seq<Track>, matched: seq<bool>, nextId: nat, ids: seq<nat>, slots: seq<nat>, history: seq<Sighting>)

  predicate Fits(p: Progress) {
    |p.matched| <= |p.tracks|
  }

  function Associate(c: Config, p: Progress, d: Detection, frame: nat): (q: Progress)
    requires Fits(p)
    ensures Fits(q) && |q.matched| == |p.matched|
  {
    var best := Best(d.box, p.tracks, p.matched, |p.matched|);
    if best.Some? && IoU(d.box, p.tracks[best.value].box) >= c.iouThreshold then
      var t := Renewed(c, p.tracks[best.value], d, frame);
      Progress(p.tracks[best.value := t], p.matched[best.value := true], p.nextId,
               p.ids + [t.id], p.slots + [best.value], p.history + [Sighting(t.id, frame, d)])
    else
      Progress(p.tracks + [NewTrack(p.nextId, d, frame)], p.matched, p.nextId + 1,
               p.ids + [p.nextId], p.slots + [|p.tracks|], p.history + [Sighting(p.nextId, frame, d)])
  }

  function AssociateAll(c: Config, p: Progress, ds: seq<Detection>, frame: nat): (q: Progress)
    requires Fits(p)
    ensures Fits(q) && |q.matched| == |p.matched|
    decreases |ds|
  {
    if ds == [] then p
    else Associate(c, AssociateAll(c, p, ds[..|ds| - 1], frame), ds[|ds| - 1], frame)
  }

  // ----- one frame -----

  predicate Lost(c: Config, t: Track, frame: nat) {
    frame > t.lastSeen && Int32(frame - t.lastSeen) > c.maxLostFrames
  }

  /** std::remove_if followed by erase. */
  function Prune(c: Config, tracks: seq<Track>, frame: nat): seq<Track>
    decreases |tracks|
  {
    if tracks == [] then []
    else
      var (init, t) := (tracks[..|tracks| - 1], tracks[|tracks| - 1]);
      if Lost(c, t, frame) then Prune(c, init, frame) else Prune(c, init, frame) + [t]
  }

  datatype State = State(tracks: seq<Track>, nextId: nat, history: seq<Sighting>)

  const INITIAL := State([], 1, [])

  function Begin(s: State): (p: Progress)
    ensures Fits(p)
  {
    Progress(s.tracks, seq(|s.tracks|, i => false), s.nextId, [], [], s.history)
  }

  function Updated(c: Config, s: State, ds: seq<Detection>, frame: nat): (State, seq<nat>) {
    var p := AssociateAll(c, Begin(s), ds, frame);
    (State(Prune(c, p.tracks, frame), p.nextId, p.history), p.ids)
  }

  // ----- behaviour -----

  datatype BehaviorType = Loitering | Running | Lingering

  function Hypotenuse(sqrt: real -> real, dx: real, dy: real): real {
    sqrt(dx * dx + dy * dy)
  }

  function Distance(sqrt: real -> real, p: Point, q: Point): real {
    Hypotenuse(sqrt, q.0 - p.0, q.1 - p.1)
  }

  /** The summed length of the first n - 1 steps. */
  function PathLength(sqrt: real -> real, points: seq<Point>, n: nat): real
    requires n <= |points|
  {
    if n <= 1 then 0.0 else PathLength(sqrt, points, n - 1) + Distance(sqrt, points[n - 2], points[n - 1])
  }

  /** How far a track that loiters may be from where it was: the threshold once for every point. */
  function Reach(threshold: real, points: nat): real {
    threshold * points as real
  }

  function AverageSpeed(totalSpeed: real, points: nat): real
    requires points >= 2
  {
    totalSpeed / (points - 1) as real
  }

  predicate Loiters(c: Config, sqrt: real -> real, t: Track) {
    t.consecutiveFrames >= c.loiterFrames && |t.trajectory| >= 2
    && Distance(sqrt, t.trajectory[0], t.trajectory[|t.trajectory| - 1])
       < Reach(c.runningSpeedThreshold, |t.trajectory|)
  }

  predicate Runs(c: Config, sqrt: real -> real, t: Track) {
    |t.trajectory| >= 2
    && AverageSpeed(PathLength(sqrt, t.trajectory, |t.trajectory|), |t.trajectory|) > c.runningSpeedThreshold
  }

  /** Integer division of C++ by 2. */
  function Half(x: int): int {
    if x >= 0 then x / 2 else -(-x / 2)
  }

  predicate Lingers(t: Track) {
    t.consecutiveFrames > 0 && t.lastSeen > t.firstSeen
    && t.consecutiveFrames < Half(Int32(t.lastSeen - t.firstSeen) + 1)
  }

  function Behavior(c: Config, sqrt: real -> real, t: Track): Option<BehaviorType> {
    if Loiters(c, sqrt, t) then Some(Loitering)
    else if Runs(c, sqrt, t) then Some(Running)
    else if Lingers(t) then Some(Lingering)
    else None
  }

  function Report(c: Config, sqrt: real -> real, tracks: seq<Track>): seq<(nat, BehaviorType)>
    decreases |tracks|
  {
    if tracks == [] then []
    else
      var (init, t) := (tracks[..|tracks| - 1], tracks[|tracks| - 1]);
      match Behavior(c, sqrt, t)
      case None => Report(c, sqrt, init)
      case Some(b) => Report(c, sqrt, init) + [(t.id, b)]
  }

  class TemporalTracker {
    const config: Config
    var tracks: seq<Track>
    var nextTrackId: nat
    ghost var history: seq<Sighting>

    constructor (config: Config)
      ensures this.config == config && Model() == INITIAL
    {
      this.config := config;
      tracks := [];
      nextTrackId := 1;
      history := [];
    }

    ghost function Model(): State
      reads this
    {
      State(tracks, nextTrackId, history)
    }

    method Update(detections: seq<Detection>, frameId: nat) returns (assignedIds: seq<nat>)
      modifies this
      ensures (Model(), assignedIds) == Updated(config, old(Model()), detections, frameId)
    {
      var trackMatched := seq(|tracks|, i => false);
      assignedIds := [];
      ghost var slots: seq<nat> := [];
      for d := 0 to |detections|
        invariant |trackMatched| <= |tracks|
        invariant Progress(tracks, trackMatched, nextTrackId, assignedIds, slots, history)
               == AssociateAll(config, Begin(old(Model())), detections[..d], frameId)
      {
        ghost var p := Progress(tracks, trackMatched, nextTrackId, assignedIds, slots, history);
        var det := detections[d];
        assert detections[..d + 1][..d] == detections[..d];
        var best := FindBest(det.box, trackMatched);
        if best.Some? && IoU(det.box, tracks[best.value].box) >= config.iouThreshold {
          RenewTrack(best.value, det, frameId);
          trackMatched := trackMatched[best.value := true];
          assignedIds := assignedIds + [tracks[best.value].id];
          slots := slots + [best.value];
        } else {
          slots := slots + [|tracks|];
          var id := CreateTrack(det, frameId);
          assignedIds := assignedIds + [id];
        }
        assert Progress(tracks, trackMatched, nextTrackId, assignedIds, slots, history)
            == Associate(config, p, det, frameId);
      }
      assert detections[..|detections|] == detections;
      RemoveLost(frameId);
    }

    /** The matched branch: the track takes over the detection and its trajectory window slides. */
    method RenewTrack(i: nat, det: Detection, frameId: nat)
      requires i < |tracks|
      modifies this
      ensures tracks == old(tracks)[i := Renewed(config, old(tracks[i]), det, frameId)]
      ensures history == old(history) + [Sighting(old(tracks[i]).id, frameId, det)]
      ensures nextTrackId == old(nextTrackId)
    {
      var track := tracks[i];
      track := track.(className := det.className, confidence := det.confidence, box := det.box,
                      lastSeen := frameId, consecutiveFrames := track.consecutiveFrames + 1,
                      trajectory := track.trajectory + [Center(det.box)]);
      if |track.trajectory| > config.trajectoryLength {
        track := track.(trajectory := track.trajectory[1..]);
      }
      tracks := tracks[i := track];
      history := history + [Sighting(track.id, frameId, det)];
    }

    /** The unmatched branch: a fresh id, a trajectory of one point. */
    method CreateTrack(det: Detection, frameId: nat) returns (id: nat)
      modifies this
      ensures id == old(nextTrackId) && nextTrackId == old(nextTrackId) + 1
      ensures tracks == old(tracks) + [NewTrack(id, det, frameId)]
      ensures history == old(history) + [Sighting(id, frameId, det)]
    {
      id := nextTrackId;
      nextTrackId := nextTrackId + 1;
      tracks := tracks + [Track(id, det.className, det.confidence, det.box, frameId, frameId, 1, [Center(det.box)])];
      history := history + [Sighting(id, frameId, det)];
    }

    /** The inner loop of Update: the best unmatched track for one detection. */
    method FindBest(box: Box, trackMatched: seq<bool>) returns (best: Option<nat>)
      requires |trackMatched| <= |tracks|
      ensures best == Best(box, tracks, trackMatched, |trackMatched|)
    {
      var bestIou := 0.0;
      best := None;
      for t := 0 to |trackMatched|
        invariant best == Best(box, tracks, trackMatched, t)
        invariant bestIou == BestIoU(box, tracks, best)
      {
        if trackMatched[t] {
          continue;
        }
        var iou := IoU(box, tracks[t].box);
        if iou > bestIou {
          bestIou := iou;
          best := Some(t);
        }
      }
    }

    method RemoveLost(frameId: nat)
      modifies this
      ensures tracks == Prune(config, old(tracks), frameId)
      ensures nextTrackId == old(nextTrackId) && history == old(history)
    {
      var kept: seq<Track> := [];
      for i := 0 to |tracks|
        invariant kept == Prune(config, tracks[..i], frameId)
      {
        assert tracks[..i + 1][..i] == tracks[..i];
        if !Lost(config, tracks[i], frameId) {
          kept := kept + [tracks[i]];
        }
      }
      assert tracks[..|tracks|] == tracks;
      tracks := kept;
    }

    method DetectBehaviors(sqrt: real -> real) returns (behaviors: seq<(nat, BehaviorType)>)
      ensures behaviors == Report(config, sqrt, tracks)
    {
      behaviors := [];
      for i := 0 to |tracks|
        invariant behaviors == Report(config, sqrt, tracks[..i])
      {
        assert tracks[..i + 1][..i] == tracks[..i];
        var behavior := Classify(tracks[i], sqrt);
        if behavior.Some? {
          behaviors := behaviors + [(tracks[i].id, behavior.value)];
        }
      }
      assert tracks[..|tracks|] == tracks;
    }

    /** The loop body of DetectBehaviors: the first of the three tests that succeeds. */
    method Classify(track: Track, sqrt: real -> real) returns (behavior: Option<BehaviorType>)
      ensures behavior == Behavior(config, sqrt, track)
    {
      var points := track.trajectory;
      if track.consecutiveFrames >= config.loiterFrames && |points| >= 2 {
        var displacement := Distance(sqrt, points[0], points[|points| - 1]);
        if displacement < Reach(config.runningSpeedThreshold, |points|) {
          return Some(Loitering);
        }
      }
      if |points| >= 2 {
        var totalSpeed := TotalSpeed(points, sqrt);
        var avgSpeed := AverageSpeed(totalSpeed, |points|);
        if avgSpeed > config.runningSpeedThreshold {
          return Some(Running);
        }
      }
      if track.consecutiveFrames > 0 && track.lastSeen > track.firstSeen {
        var expectedFrames := Int32(track.lastSeen - track.firstSeen) + 1;
        if track.consecutiveFrames < Half(expectedFrames) {
          return Some(Lingering);
        }
      }
      return None;
    }

    static method TotalSpeed(points: seq<Point>, sqrt: real -> real) returns (total: real)
      requires |points| >= 2
      ensures total == PathLength(sqrt, points, |points|)
    {
      total := 0.0;
      for i := 1 to |points|
        invariant total == PathLength(sqrt, points, i)
      {
        var dx := points[i].0 - points[i - 1].0;
        var dy := points[i].1 - points[i - 1].1;
        total := total + Hypotenuse(sqrt, dx, dy);
      }
    }
  }
}
