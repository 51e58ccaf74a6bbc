/** One frame, told by its start and its answer: each detection in turn takes the best track that is still free. */
module TrackerChoices {
  import opened Geometry
  import opened TrackerRuns
  import opened Tracking

  /** Track t was live when the frame began and no detection before k has taken it. */
  predicate Free(s: State, slots: seq<nat>, k: nat, t: int)
    requires k <= |slots|
  {
    0 <= t < |s.tracks| && t !in slots[..k]
  }

  /** It is free for this box and overlaps it enough. */
  predicate Eligible(c: Config, s: State, slots: seq<nat>, k: nat, box: Box, t: int)
    requires k <= |slots|
  {
    Free(s, slots, k, t) && IoU(box, s.tracks[t].box) > 0.0 && IoU(box, s.tracks[t].box) >= c.iouThreshold
  }

  /** The eligible track of largest overlap, the first of those. */
  predicate Chosen(c: Config, s: State, slots: seq<nat>, k: nat, box: Box, b: int)
    requires k <= |slots|
  {
    && Eligible(c, s, slots, k, box, b)
    && (forall t | 0 <= t < |s.tracks| && Free(s, slots, k, t) ::
          IoU(box, s.tracks[t].box) <= IoU(box, s.tracks[b].box)
          && (t < b ==> IoU(box, s.tracks[t].box) < IoU(box, s.tracks[b].box)))
  }

  /** Detection k went to the best track that was still free, or to a new one if no free track overlaps it enough. */
  predicate WellPlaced(c: Config, s: State, ds: seq<Detection>, slots: seq<nat>, k: nat)
    requires k < |ds| == |slots|
  {
    if forall t | 0 <= t < |s.tracks| :: !Eligible(c, s, slots, k, ds[k].box, t) then slots[k] >= |s.tracks|
    else Chosen(c, s, slots, k, ds[k].box, slots[k])
  }

  /** Tracks that nobody took are marked free and are as they were. */
  predicate Marked(s: State, p: Progress) {
    && |p.matched| == |s.tracks| <= |p.tracks|
    && (forall t | 0 <= t < |s.tracks| :: p.matched[t] <==> t in p.slots)
    && (forall t | 0 <= t < |s.tracks| && !p.matched[t] :: p.tracks[t] == s.tracks[t])
    && (forall t | 0 <= t < |s.tracks| :: p.tracks[t].id == s.tracks[t].id)
  }

  /** The ids given so far are those of the tracks that were taken, or new. */
  predicate Named(s: State, p: Progress) {
    && |p.slots| == |p.ids| && p.nextId >= s.nextId
    && forall k | 0 <= k < |p.slots| ::
         if p.slots[k] < |s.tracks| then p.ids[k] == s.tracks[p.slots[k]].id else p.ids[k] >= s.nextId
  }

  /** What the loop has done after n detections. */
  predicate InTurn(s: State, p: Progress, n: nat) {
    |p.slots| == n && Marked(s, p) && Named(s, p)
  }

  lemma AssociateMarks(c: Config, s: State, p: Progress, d: Detection, frame: nat)
    requires Marked(s, p) && Fits(p)
    ensures Marked(s, Associate(c, p, d, frame))
  {
  }

  lemma AssociateNames(c: Config, s: State, p: Progress, d: Detection, frame: nat)
    requires Marked(s, p) && Named(s, p) && Fits(p)
    ensures Named(s, Associate(c, p, d, frame))
  {
  }

  lemma AssociateInTurn(c: Config, s: State, p: Progress, d: Detection, frame: nat, n: nat)
    requires InTurn(s, p, n) && Fits(p)
    ensures InTurn(s, Associate(c, p, d, frame), n + 1)
    ensures Associate(c, p, d, frame).slots[..n] == p.slots
  {
    AssociateMarks(c, s, p, d, frame);
    AssociateNames(c, s, p, d, frame);
  }

  lemma AssociateChooses(c: Config, s: State, p: Progress, ds: seq<Detection>, frame: nat)
    requires ds != [] && InTurn(s, p, |ds| - 1) && Fits(p)
    ensures var q := Associate(c, p, ds[|ds| - 1], frame);
      |q.slots| == |ds| && WellPlaced(c, s, ds, q.slots, |ds| - 1)
  {
    var n, d := |ds| - 1, ds[|ds| - 1];
    var q := Associate(c, p, d, frame);
    AssociateInTurn(c, s, p, d, frame, n);
    BestIsArgmax(d.box, p.tracks, p.matched, |p.matched|);
    forall t | 0 <= t < |s.tracks|
      ensures Eligible(c, s, q.slots, n, d.box, t) <==> Joinable(c, p, d, t)
      ensures Free(s, q.slots, n, t) <==> !p.matched[t]
    {
    }
  }

  lemma WellPlacedStays(c: Config, s: State, ds: seq<Detection>, slots: seq<nat>, n: nat, k: nat)
    requires k < n <= |ds| == |slots| && WellPlaced(c, s, ds[..n], slots[..n], k)
    ensures WellPlaced(c, s, ds, slots, k)
  {
    assert slots[..n][..k] == slots[..k];
    assert forall t | 0 <= t < |s.tracks| ::
        Eligible(c, s, slots[..n], k, ds[k].box, t) == Eligible(c, s, slots, k, ds[k].box, t);
  }

  lemma {:induction false} FrameInTurn(c: Config, s: State, ds: seq<Detection>, frame: nat)
    ensures InTurn(s, AssociateAll(c, Begin(s), ds, frame), |ds|)
    decreases |ds|
  {
    if ds != [] {
      var n := |ds| - 1;
      FrameInTurn(c, s, ds[..n], frame);
      AssociateInTurn(c, s, AssociateAll(c, Begin(s), ds[..n], frame), ds[n], frame, n);
    }
  }

  function SlotsOf(c: Config, s: State, ds: seq<Detection>, frame: nat): seq<nat> {
    AssociateAll(c, Begin(s), ds, frame).slots
  }

  lemma LastChooses(c: Config, s: State, ds: seq<Detection>, frame: nat)
    requires ds != []
    ensures var (n, slots) := (|ds| - 1, SlotsOf(c, s, ds, frame));
      |slots| == |ds| && slots[..n] == SlotsOf(c, s, ds[..n], frame) && WellPlaced(c, s, ds, slots, n)
  {
    var n := |ds| - 1;
    var p := AssociateAll(c, Begin(s), ds[..n], frame);
    FrameInTurn(c, s, ds[..n], frame);
    AssociateChooses(c, s, p, ds, frame);
    AssociateInTurn(c, s, p, ds[n], frame, n);
  }

  /** Every detection of a frame, in the order they are given, goes to the best track that is still free. */
  lemma {:induction false} DetectionsChooseInTurn(c: Config, s: State, ds: seq<Detection>, frame: nat, k: nat)
    requires k < |ds|
    ensures |SlotsOf(c, s, ds, frame)| == |ds| && WellPlaced(c, s, ds, SlotsOf(c, s, ds, frame), k)
    decreases |ds|
  {
    var n := |ds| - 1;
    LastChooses(c, s, ds, frame);
    if k < n {
      DetectionsChooseInTurn(c, s, ds[..n], frame, k);
      WellPlacedStays(c, s, ds, SlotsOf(c, s, ds, frame), n, k);
    }
  }

  /** So the answer is the id of the best free track for every detection that finds one, and a new id for the others. */
  lemma AnswersFollowChoices(c: Config, s: State, ds: seq<Detection>, frame: nat, k: nat)
    requires k < |ds|
    ensures var (ids, slots) := (Updated(c, s, ds, frame).1, SlotsOf(c, s, ds, frame));
      && |ids| == |slots| == |ds| && WellPlaced(c, s, ds, slots, k)
      && if slots[k] < |s.tracks| then ids[k] == s.tracks[slots[k]].id else ids[k] >= s.nextId
  {
    DetectionsChooseInTurn(c, s, ds, frame, k);
    FrameInTurn(c, s, ds, frame);
  }
}
