/** What every run of the tracker keeps, judged by the record of all sightings. */
module TrackerRuns {
  import opened Geometry
  import opened Tracking

  // ----- the greedy choice -----

  /** The scan finds an unmatched track of largest positive overlap, and the first such one. */
  lemma {:induction false} BestIsArgmax(box: Box, tracks: seq<Track>, matched: seq<bool>, n: nat)
    requires n <= |matched| <= |tracks|
    ensures var best := Best(box, tracks, matched, n);
      if best.None? then forall t | 0 <= t < n && !matched[t] :: IoU(box, tracks[t].box) <= 0.0
      else
        && !matched[best.value] && IoU(box, tracks[best.value].box) > 0.0
        && forall t | 0 <= t < n && !matched[t] ::
             IoU(box, tracks[t].box) <= IoU(box, tracks[best.value].box)
             && (t < best.value ==> IoU(box, tracks[t].box) < IoU(box, tracks[best.value].box))
  {
    if n > 0 {
      BestIsArgmax(box, tracks, matched, n - 1);
    }
  }

  /** A detection starts a new track exactly when no track left over reaches the threshold with a real overlap. */
  lemma NewTrackIff(c: Config, p: Progress, d: Detection, frame: nat)
    requires Fits(p)
    ensures var q := Associate(c, p, d, frame);
      |q.tracks| == |p.tracks| + 1 <==>
      forall t | 0 <= t < |p.matched| && !p.matched[t] ::
        IoU(d.box, p.tracks[t].box) <= 0.0 || IoU(d.box, p.tracks[t].box) < c.iouThreshold
  {
    BestIsArgmax(d.box, p.tracks, p.matched, |p.matched|);
  }

  /** Track t is one that the detection could join: not matched in this frame, and it overlaps enough. */
  predicate Joinable(c: Config, p: Progress, d: Detection, t: int)
    requires Fits(p)
  {
    && 0 <= t < |p.matched| && !p.matched[t]
    && IoU(d.box, p.tracks[t].box) > 0.0 && IoU(d.box, p.tracks[t].box) >= c.iouThreshold
  }

  /** A detection that can join a track joins the one it overlaps most, the first of those; no other track changes. */
  lemma JoinsLargestOverlap(c: Config, p: Progress, d: Detection, frame: nat, t: nat)
    requires Fits(p) && Joinable(c, p, d, t)
    ensures var q := Associate(c, p, d, frame);
      && |q.slots| == |p.slots| + 1 && |q.ids| == |p.ids| + 1
      && var b := q.slots[|p.slots|];
         && Joinable(c, p, d, b) && q.ids[|p.ids|] == p.tracks[b].id
         && IoU(d.box, p.tracks[t].box) <= IoU(d.box, p.tracks[b].box)
         && (t < b ==> IoU(d.box, p.tracks[t].box) < IoU(d.box, p.tracks[b].box))
         && |q.tracks| == |p.tracks| && q.tracks[b].box == d.box
         && forall u | 0 <= u < |p.tracks| && u != b :: q.tracks[u] == p.tracks[u]
  {
    BestIsArgmax(d.box, p.tracks, p.matched, |p.matched|);
  }

  // ----- the record -----

  function Of(history: seq<Sighting>, id: nat): seq<Sighting>
    decreases |history|
  {
    if history == [] then []
    else
      var (init, s) := (history[..|history| - 1], history[|history| - 1]);
      if s.id == id then Of(init, id) + [s] else Of(init, id)
  }

  function Centres(sightings: seq<Sighting>): seq<Point> {
    seq(|sightings|, i requires 0 <= i < |sightings| => Center(sightings[i].detection.box))
  }

  function LastN<T>(s: seq<T>, n: nat): seq<T> {
    if |s| <= n then s else s[|s| - n..]
  }

  /** A trajectory holds at least one point, whatever length is configured. */
  function Window(c: Config): nat {
    if c.trajectoryLength < 1 then 1 else c.trajectoryLength
  }

  /** The track tells the truth about all sightings that carry its id. */
  predicate TrackOk(c: Config, t: Track, history: seq<Sighting>) {
    var mine := Of(history, t.id);
    && 1 <= t.consecutiveFrames == |mine|
    && t.trajectory == LastN(Centres(mine), Window(c))
    && t.firstSeen == mine[0].frame
    && mine[|mine| - 1] == Sighting(t.id, t.lastSeen, mine[|mine| - 1].detection)
    && var d := mine[|mine| - 1].detection;
       t.className == d.className && t.confidence == d.confidence && t.box == d.box
  }

  predicate DistinctIds(tracks: seq<Track>) {
    forall i, j | 0 <= i < j < |tracks| :: tracks[i].id != tracks[j].id
  }

  predicate Consistent(c: Config, tracks: seq<Track>, nextId: nat, history: seq<Sighting>) {
    && DistinctIds(tracks)
    && (forall i | 0 <= i < |tracks| :: TrackOk(c, tracks[i], history))
    && (forall i | 0 <= i < |history| :: 1 <= history[i].id < nextId)
    && 1 <= nextId
  }

  lemma {:induction false} OfMembers(history: seq<Sighting>, id: nat)
    ensures forall s | s in Of(history, id) :: s.id == id && s in history
    ensures (forall s | s in history :: s.id != id) ==> Of(history, id) == []
  {
    if history != [] {
      OfMembers(history[..|history| - 1], id);
    }
  }

  lemma OfSnoc(history: seq<Sighting>, s: Sighting, id: nat)
    ensures Of(history + [s], id) == if s.id == id then Of(history, id) + [s] else Of(history, id)
  {
    assert (history + [s])[..|history|] == history;
  }

  lemma CentresSnoc(sightings: seq<Sighting>, s: Sighting)
    ensures Centres(sightings + [s]) == Centres(sightings) + [Center(s.detection.box)]
  {
  }

  lemma WindowSlides(points: seq<Point>, p: Point, length: int)
    requires |points| > 0
    ensures var n := if length < 1 then 1 else length;
      Bounded(LastN(points, n) + [p], length) == LastN(points + [p], n)
  {
  }

  lemma RenewedOk(c: Config, t: Track, d: Detection, frame: nat, history: seq<Sighting>)
    requires TrackOk(c, t, history)
    ensures TrackOk(c, Renewed(c, t, d, frame), history + [Sighting(t.id, frame, d)])
  {
    var s := Sighting(t.id, frame, d);
    OfSnoc(history, s, t.id);
    CentresSnoc(Of(history, t.id), s);
    WindowSlides(Centres(Of(history, t.id)), Center(d.box), c.trajectoryLength);
  }

  lemma NewTrackOk(c: Config, id: nat, d: Detection, frame: nat, history: seq<Sighting>)
    requires forall i | 0 <= i < |history| :: history[i].id != id
    ensures TrackOk(c, NewTrack(id, d, frame), history + [Sighting(id, frame, d)])
  {
    var s := Sighting(id, frame, d);
    OfMembers(history, id);
    OfSnoc(history, s, id);
    assert Centres([s]) == [Center(d.box)];
  }

  lemma OthersOk(c: Config, t: Track, s: Sighting, history: seq<Sighting>)
    requires TrackOk(c, t, history) && s.id != t.id
    ensures TrackOk(c, t, history + [s])
  {
    OfSnoc(history, s, t.id);
  }

  lemma AssociateConsistent(c: Config, p: Progress, d: Detection, frame: nat)
    requires Fits(p) && Consistent(c, p.tracks, p.nextId, p.history)
    ensures var q := Associate(c, p, d, frame); Consistent(c, q.tracks, q.nextId, q.history)
  {
    var q := Associate(c, p, d, frame);
    var best := Best(d.box, p.tracks, p.matched, |p.matched|);
    if |q.tracks| == |p.tracks| {
      var b := best.value;
      assert TrackOk(c, p.tracks[b], p.history);
      assert OfMember(p.history, p.tracks[b].id) by {
        OfMembers(p.history, p.tracks[b].id);
      }
      forall i | 0 <= i < |q.tracks| ensures TrackOk(c, q.tracks[i], q.history) {
        if i == b {
          RenewedOk(c, p.tracks[b], d, frame, p.history);
        } else {
          OthersOk(c, p.tracks[i], Sighting(p.tracks[b].id, frame, d), p.history);
        }
      }
    } else {
      forall i | 0 <= i < |p.tracks| ensures TrackOk(c, p.tracks[i], q.history) && p.tracks[i].id < p.nextId {
        assert TrackOk(c, p.tracks[i], p.history);
        OfMembers(p.history, p.tracks[i].id);
        OthersOk(c, p.tracks[i], Sighting(p.nextId, frame, d), p.history);
      }
      NewTrackOk(c, p.nextId, d, frame, p.history);
    }
  }

  predicate OfMember(history: seq<Sighting>, id: nat) {
    exists i :: 0 <= i < |history| && history[i].id == id
  }

  // ----- one frame -----

  /** Where the detections of this frame went: each to a track of its own, which now shows it. */
  predicate Placed(p: Progress, ds: seq<Detection>, frame: nat) {
    && |p.ids| == |p.slots| == |ds|
    && (forall d | 0 <= d < |ds| ::
          && p.slots[d] < |p.tracks|
          && (p.slots[d] < |p.matched| ==> p.matched[p.slots[d]])
          && var t := p.tracks[p.slots[d]]; t.id == p.ids[d] && t.box == ds[d].box && t.lastSeen == frame)
    && (forall d, e | 0 <= d < e < |ds| :: p.slots[d] != p.slots[e])
  }

  lemma AssociatePlaced(c: Config, p: Progress, ds: seq<Detection>, d: Detection, frame: nat)
    requires Fits(p) && Placed(p, ds, frame)
    ensures Placed(Associate(c, p, d, frame), ds + [d], frame)
  {
    BestIsArgmax(d.box, p.tracks, p.matched, |p.matched|);
  }

  /** Frames of each live track's sightings rise, and a track not yet matched was last seen in an earlier frame. */
  predicate Timely(p: Progress, frame: nat)
    requires Fits(p)
  {
    && (forall i | 0 <= i < |p.tracks| :: Rising(Of(p.history, p.tracks[i].id)))
    && (forall i | 0 <= i < |p.tracks| :: p.tracks[i].lastSeen <= frame)
    && (forall i | 0 <= i < |p.matched| && !p.matched[i] :: p.tracks[i].lastSeen < frame)
  }

  predicate Rising(sightings: seq<Sighting>) {
    forall i, j | 0 <= i < j < |sightings| :: sightings[i].frame < sightings[j].frame
  }

  lemma RisingSnoc(sightings: seq<Sighting>, s: Sighting)
    requires Rising(sightings) && (sightings != [] ==> sightings[|sightings| - 1].frame < s.frame)
    ensures Rising(sightings + [s])
  {
  }

  lemma {:induction false} RisingLength(sightings: seq<Sighting>)
    requires Rising(sightings) && sightings != []
    ensures |sightings| <= sightings[|sightings| - 1].frame - sightings[0].frame + 1
  {
    if |sightings| > 1 {
      RisingLength(sightings[..|sightings| - 1]);
    }
  }

  lemma AssociateRising(c: Config, p: Progress, d: Detection, frame: nat, i: nat)
    requires Fits(p) && Consistent(c, p.tracks, p.nextId, p.history) && Timely(p, frame)
    requires i < |Associate(c, p, d, frame).tracks|
    ensures var q := Associate(c, p, d, frame); Rising(Of(q.history, q.tracks[i].id))
  {
    var q := Associate(c, p, d, frame);
    var id := q.ids[|p.ids|];
    OfSnoc(p.history, Sighting(id, frame, d), q.tracks[i].id);
    if q.tracks[i].id == id {
      StillEarlier(c, p, d, frame, i);
      RisingAgain(c, p, i, id, d, frame);
    }
  }

  lemma AssociateTimely(c: Config, p: Progress, d: Detection, frame: nat)
    requires Fits(p) && Consistent(c, p.tracks, p.nextId, p.history) && Timely(p, frame)
    ensures Timely(Associate(c, p, d, frame), frame)
  {
    var q := Associate(c, p, d, frame);
    BestIsArgmax(d.box, p.tracks, p.matched, |p.matched|);
    forall i | 0 <= i < |q.tracks| ensures Rising(Of(q.history, q.tracks[i].id)) {
      AssociateRising(c, p, d, frame, i);
    }
  }

  /** A track that takes the detection was last seen in an earlier frame. */
  lemma StillEarlier(c: Config, p: Progress, d: Detection, frame: nat, i: nat)
    requires Fits(p) && Consistent(c, p.tracks, p.nextId, p.history) && Timely(p, frame)
    requires var q := Associate(c, p, d, frame); i < |q.tracks| && q.tracks[i].id == q.ids[|p.ids|]
    ensures i < |p.tracks| ==> p.tracks[i].lastSeen < frame
    ensures i >= |p.tracks| ==> Associate(c, p, d, frame).ids[|p.ids|] == p.nextId
    ensures i < |p.tracks| ==> p.tracks[i].id == Associate(c, p, d, frame).ids[|p.ids|]
  {
    BestIsArgmax(d.box, p.tracks, p.matched, |p.matched|);
    if i < |p.tracks| {
      FreshOrLive(c, p, i);
    }
  }

  lemma LastOfMine(c: Config, t: Track, history: seq<Sighting>)
    requires TrackOk(c, t, history)
    ensures var mine := Of(history, t.id); mine != [] && mine[|mine| - 1].frame == t.lastSeen
  {
  }

  lemma RisingAgain(c: Config, p: Progress, i: nat, id: nat, d: Detection, frame: nat)
    requires Consistent(c, p.tracks, p.nextId, p.history)
    requires if i < |p.tracks| then p.tracks[i].id == id && p.tracks[i].lastSeen < frame && Rising(Of(p.history, id))
        else id == p.nextId
    ensures Rising(Of(p.history, id) + [Sighting(id, frame, d)])
  {
    if i < |p.tracks| {
      LastOfMine(c, p.tracks[i], p.history);
    } else {
      OfMembers(p.history, id);
    }
    RisingSnoc(Of(p.history, id), Sighting(id, frame, d));
  }

  lemma FreshOrLive(c: Config, p: Progress, i: nat)
    requires Consistent(c, p.tracks, p.nextId, p.history) && i < |p.tracks|
    ensures 1 <= p.tracks[i].id < p.nextId
  {
    assert TrackOk(c, p.tracks[i], p.history);
    OfMembers(p.history, p.tracks[i].id);
    assert Of(p.history, p.tracks[i].id)[0] in p.history;
  }

  /** Ids come from the tracks that were live when the frame began, or were never used before. */
  predicate Sourced(p: Progress, s: State) {
    && |p.matched| == |s.tracks| <= |p.tracks|
    && s.nextId <= p.nextId
    && (forall i | 0 <= i < |s.tracks| :: p.tracks[i].id == s.tracks[i].id)
    && (forall i | |s.tracks| <= i < |p.tracks| :: s.nextId <= p.tracks[i].id)
  }

  lemma AssociateSourced(c: Config, p: Progress, s: State, d: Detection, frame: nat)
    requires Fits(p) && Sourced(p, s)
    ensures Sourced(Associate(c, p, d, frame), s)
  {
  }

  predicate FrameOk(c: Config, p: Progress, s: State, ds: seq<Detection>, frame: nat) {
    Consistent(c, p.tracks, p.nextId, p.history) && Placed(p, ds, frame) && Sourced(p, s)
  }

  lemma AssociateOk(c: Config, p: Progress, s: State, ds: seq<Detection>, frame: nat)
    requires ds != [] && Fits(p) && FrameOk(c, p, s, ds[..|ds| - 1], frame)
    ensures FrameOk(c, Associate(c, p, ds[|ds| - 1], frame), s, ds, frame)
  {
    var init, d := ds[..|ds| - 1], ds[|ds| - 1];
    AssociateConsistent(c, p, d, frame);
    AssociatePlaced(c, p, init, d, frame);
    AssociateSourced(c, p, s, d, frame);
    assert init + [d] == ds;
  }

  lemma {:induction false} FrameSound(c: Config, s: State, ds: seq<Detection>, frame: nat)
    requires Consistent(c, s.tracks, s.nextId, s.history)
    ensures FrameOk(c, AssociateAll(c, Begin(s), ds, frame), s, ds, frame)
    decreases |ds|
  {
    if ds == [] {
      BeginOk(c, s, frame);
    } else {
      FrameSound(c, s, ds[..|ds| - 1], frame);
      AssociateOk(c, AssociateAll(c, Begin(s), ds[..|ds| - 1], frame), s, ds, frame);
    }
  }

  lemma BeginOk(c: Config, s: State, frame: nat)
    requires Consistent(c, s.tracks, s.nextId, s.history)
    ensures FrameOk(c, Begin(s), s, [], frame)
  {
  }

  lemma {:induction false} FrameTimely(c: Config, s: State, ds: seq<Detection>, frame: nat)
    requires Consistent(c, s.tracks, s.nextId, s.history) && Timely(Begin(s), frame)
    ensures Timely(AssociateAll(c, Begin(s), ds, frame), frame)
    decreases |ds|
  {
    if ds != [] {
      var init := ds[..|ds| - 1];
      FrameSound(c, s, init, frame);
      FrameTimely(c, s, init, frame);
      AssociateTimely(c, AssociateAll(c, Begin(s), init, frame), ds[|ds| - 1], frame);
    }
  }

  lemma {:induction false} PruneMembers(c: Config, tracks: seq<Track>, frame: nat)
    ensures forall t :: t in Prune(c, tracks, frame) <==> t in tracks && !Lost(c, t, frame)
    decreases |tracks|
  {
    if tracks != [] {
      PruneMembers(c, tracks[..|tracks| - 1], frame);
      assert tracks == tracks[..|tracks| - 1] + [tracks[|tracks| - 1]];
    }
  }

  lemma {:induction false} PruneDistinct(c: Config, tracks: seq<Track>, frame: nat)
    requires DistinctIds(tracks)
    ensures DistinctIds(Prune(c, tracks, frame))
    decreases |tracks|
  {
    if tracks != [] {
      var init := tracks[..|tracks| - 1];
      PruneDistinct(c, init, frame);
      PruneMembers(c, init, frame);
      forall t | t in Prune(c, init, frame) ensures t.id != tracks[|tracks| - 1].id {
        assert t in init;
      }
    }
  }

  lemma PruneConsistent(c: Config, p: Progress, frame: nat)
    requires Consistent(c, p.tracks, p.nextId, p.history)
    ensures Consistent(c, Prune(c, p.tracks, frame), p.nextId, p.history)
  {
    PruneMembers(c, p.tracks, frame);
    PruneDistinct(c, p.tracks, frame);
    forall t | t in Prune(c, p.tracks, frame) ensures TrackOk(c, t, p.history) {
      assert t in p.tracks;
    }
  }

  predicate Distinct(ids: seq<nat>) {
    forall d, e | 0 <= d < e < |ids| :: ids[d] != ids[e]
  }

  /** A live track shows this detection under this id. */
  predicate Shown(tracks: seq<Track>, id: nat, d: Detection, frame: nat) {
    exists t :: t in tracks && t.id == id && t.box == d.box && t.lastSeen == frame
  }

  /** The id belonged to a live track when the frame began. */
  predicate WasLive(s: State, id: nat) {
    exists t :: t in s.tracks && t.id == id
  }

  /**
   * One frame's answer: distinct ids, each naming a live track that shows its detection, none of them a dead track's.
   */
  lemma UpdateAnswers(c: Config, s: State, ds: seq<Detection>, frame: nat)
    requires Consistent(c, s.tracks, s.nextId, s.history)
    ensures var (s', ids) := Updated(c, s, ds, frame);
      && Consistent(c, s'.tracks, s'.nextId, s'.history)
      && |ids| == |ds| && Distinct(ids)
      && (forall d | 0 <= d < |ds| :: Shown(s'.tracks, ids[d], ds[d], frame))
      && (forall d | 0 <= d < |ds| :: s.nextId <= ids[d] < s'.nextId || WasLive(s, ids[d]))
  {
    var p := AssociateAll(c, Begin(s), ds, frame);
    FrameSound(c, s, ds, frame);
    PruneConsistent(c, p, frame);
    forall d | 0 <= d < |ds|
      ensures Shown(Prune(c, p.tracks, frame), p.ids[d], ds[d], frame)
      ensures s.nextId <= p.ids[d] < p.nextId || WasLive(s, p.ids[d])
    {
      PlacedAnswer(c, p, s, ds, frame, d);
    }
    PlacedDistinct(p, ds, frame);
  }

  lemma PlacedAnswer(c: Config, p: Progress, s: State, ds: seq<Detection>, frame: nat, d: nat)
    requires FrameOk(c, p, s, ds, frame) && d < |ds|
    ensures Shown(Prune(c, p.tracks, frame), p.ids[d], ds[d], frame)
    ensures s.nextId <= p.ids[d] < p.nextId || WasLive(s, p.ids[d])
  {
    var t := p.tracks[p.slots[d]];
    FreshOrLive(c, p, p.slots[d]);
    PruneMembers(c, p.tracks, frame);
    assert t in Prune(c, p.tracks, frame);
    if p.slots[d] < |s.tracks| {
      assert s.tracks[p.slots[d]] in s.tracks;
    }
  }

  lemma PlacedDistinct(p: Progress, ds: seq<Detection>, frame: nat)
    requires Placed(p, ds, frame) && DistinctIds(p.tracks)
    ensures Distinct(p.ids)
  {
    forall d, e | 0 <= d < e < |ds| ensures p.ids[d] != p.ids[e] {
      assert p.tracks[p.slots[d]].id == p.ids[d] && p.tracks[p.slots[e]].id == p.ids[e];
    }
  }

  /** After a frame the live tracks are exactly the associated ones that are not lost. */
  lemma LiveIffNotLost(c: Config, s: State, ds: seq<Detection>, frame: nat, t: Track)
    ensures t in Updated(c, s, ds, frame).0.tracks
       <==> t in AssociateAll(c, Begin(s), ds, frame).tracks && !Lost(c, t, frame)
  {
    PruneMembers(c, AssociateAll(c, Begin(s), ds, frame).tracks, frame);
  }

  // ----- whole runs -----

  datatype Input = Input(detections: seq<Detection>, frame: nat)

  function Run(c: Config, inputs: seq<Input>): State
    decreases |inputs|
  {
    if inputs == [] then INITIAL
    else
      var i := inputs[|inputs| - 1];
      Updated(c, Run(c, inputs[..|inputs| - 1]), i.detections, i.frame).0
  }

  predicate FramesRise(inputs: seq<Input>) {
    forall i, j | 0 <= i < j < |inputs| :: inputs[i].frame < inputs[j].frame
  }

  predicate Current(s: State, frame: nat) {
    forall t | t in s.tracks :: Rising(Of(s.history, t.id)) && t.lastSeen <= frame
  }

  lemma {:induction false} RunConsistent(c: Config, inputs: seq<Input>)
    ensures var s := Run(c, inputs); Consistent(c, s.tracks, s.nextId, s.history)
    decreases |inputs|
  {
    if inputs != [] {
      var i := inputs[|inputs| - 1];
      RunConsistent(c, inputs[..|inputs| - 1]);
      UpdateAnswers(c, Run(c, inputs[..|inputs| - 1]), i.detections, i.frame);
    }
  }

  lemma {:induction false} RunCurrent(c: Config, inputs: seq<Input>)
    requires FramesRise(inputs)
    ensures inputs != [] ==> Current(Run(c, inputs), inputs[|inputs| - 1].frame)
    ensures inputs == [] ==> Run(c, inputs).tracks == []
    decreases |inputs|
  {
    if inputs != [] {
      var init, i := inputs[..|inputs| - 1], inputs[|inputs| - 1];
      var s := Run(c, init);
      RunCurrent(c, init);
      RunConsistent(c, init);
      FrameTimely(c, s, i.detections, i.frame);
      PruneMembers(c, AssociateAll(c, Begin(s), i.detections, i.frame).tracks, i.frame);
    }
  }

  /** A live track is an honest, bounded summary of its sightings. */
  predicate Honest(c: Config, t: Track, history: seq<Sighting>, frame: nat) {
    && TrackOk(c, t, history)
    && 1 <= t.consecutiveFrames <= t.lastSeen - t.firstSeen + 1
    && |t.trajectory| == (if t.consecutiveFrames <= Window(c) then t.consecutiveFrames else Window(c))
    && t.lastSeen <= frame
    && (t.lastSeen == frame || frame - t.lastSeen <= c.maxLostFrames || frame - t.lastSeen >= 0x8000_0000)
  }

  lemma LiveTracks(c: Config, inputs: seq<Input>)
    requires inputs != [] && FramesRise(inputs)
    ensures var s := Run(c, inputs);
      DistinctIds(s.tracks) && forall t | t in s.tracks :: Honest(c, t, s.history, inputs[|inputs| - 1].frame)
  {
    var s, s', i := Run(c, inputs), Run(c, inputs[..|inputs| - 1]), inputs[|inputs| - 1];
    RunConsistent(c, inputs);
    RunCurrent(c, inputs);
    forall t | t in s.tracks ensures Honest(c, t, s.history, i.frame) {
      LiveIffNotLost(c, s', i.detections, i.frame, t);
      RisingLength(Of(s.history, t.id));
      HonestTrack(c, t, s.history, i.frame);
    }
  }

  lemma HonestTrack(c: Config, t: Track, history: seq<Sighting>, frame: nat)
    requires TrackOk(c, t, history) && t.lastSeen <= frame && !Lost(c, t, frame)
    requires var mine := Of(history, t.id); |mine| <= mine[|mine| - 1].frame - mine[0].frame + 1
    ensures Honest(c, t, history, frame)
  {
  }

  /** Up to this gap the test for lost tracks compares the true gap with its limit. */
  predicate ExactUpTo(c: Config, t: Track, gap: nat) {
    forall frame: nat | t.lastSeen < frame <= t.lastSeen + gap :: Lost(c, t, frame)
        <==> frame - t.lastSeen > c.maxLostFrames
  }

  /** The narrowing cast: the test is exact up to a gap exactly if that gap is less than 2^31 frames. */
  lemma LostIsExactIff(c: Config, t: Track, gap: nat)
    requires -0x8000_0000 <= c.maxLostFrames < 0x8000_0000
    ensures ExactUpTo(c, t, gap) <==> gap < 0x8000_0000
  {
    if gap >= 0x8000_0000 {
      var frame := t.lastSeen + 0x8000_0000;
      assert !Lost(c, t, frame) && frame - t.lastSeen > c.maxLostFrames;
    }
  }

  lemma GapThatNeverLapses(c: Config, t: Track)
    requires c.maxLostFrames >= 0
    ensures !Lost(c, t, t.lastSeen + 0x8000_0000)
  {
  }
}
