/** Cross-camera re-identification over a store of recent feature vectors. */
module ReId {
  import opened Text

  type Feature = seq<real>

  datatype Entry = Entry(device: string, className: string, feature: Feature, timestamp: real, trackId: nat)

  datatype Sighting = Sighting(device: string, timestamp: real, similarity: real)

  datatype Track = Track(className: string, sightings: seq<Sighting>)

  /** similarity stands for the cosine similarity of two vectors; window is in seconds. */
  datatype Config = Config(similarity: (Feature, Feature) -> real, threshold: real, window: real)

  datatype State = State(store: seq<Entry>, tracks: map<nat, Track>, nextId: nat)

  datatype Input = Input(device: string, className: string, feature: Feature, timestamp: real)

  const INITIAL := State([], map[], 1)

  // ----- registering -----

  predicate Candidate(c: Config, e: Entry, i: Input) {
    e.device != i.device && !(e.timestamp < i.timestamp - c.window) && e.className == i.className
  }

  function BestSim(c: Config, best: Option<Entry>, i: Input): real {
    if best.Some? then c.similarity(i.feature, best.value.feature) else 0.0
  }

  /**
   * The scan over the store: the first candidate of greatest similarity, if it is positive and reaches the threshold.
   */
  function Best(c: Config, store: seq<Entry>, i: Input): Option<Entry>
    decreases |store|
  {
    if store == [] then None
    else
      var (best, e) := (Best(c, store[..|store| - 1], i), store[|store| - 1]);
      if !Candidate(c, e, i) then best
      else
        var sim := c.similarity(i.feature, e.feature);
        if sim >= c.threshold && sim > BestSim(c, best, i) then Some(e) else best
  }

  function Keep(store: seq<Entry>, cutoff: real): seq<Entry>
    decreases |store|
  {
    if store == [] then []
    else
      var (init, e) := (Keep(store[..|store| - 1], cutoff), store[|store| - 1]);
      if e.timestamp >= cutoff then init + [e] else init
  }

  /** Every stored entry belongs to a track. */
  predicate Tracked(s: State) {
    (forall e | e in s.store :: e.trackId in s.tracks) && forall id | id in s.tracks :: id < s.nextId
  }

  lemma {:induction false} BestMember(c: Config, store: seq<Entry>, i: Input)
    ensures var best := Best(c, store, i); best.Some? ==> best.value in store && Candidate(c, best.value, i)
    decreases |store|
  {
    if store != [] {
      BestMember(c, store[..|store| - 1], i);
    }
  }

  /** register_feature up to the pruning: the state with nothing forgotten, and the track the feature went to. */
  function Registered(c: Config, s: State, i: Input): (State, nat) {
    Placed(c, s, i, Best(c, s.store, i))
  }

  /**
   * The feature joins the track of its best match, or starts a track; the track of a match exists when s is tracked.
   */
  function Placed(c: Config, s: State, i: Input, best: Option<Entry>): (State, nat) {
    if best.Some? && best.value.trackId in s.tracks then
      var (id, t) := (best.value.trackId, s.tracks[best.value.trackId]);
      var seen := Sighting(i.device, i.timestamp, BestSim(c, best, i));
      (State(s.store + [Entry(i.device, i.className, i.feature, i.timestamp, id)],
             s.tracks[id := t.(sightings := t.sightings + [seen])], s.nextId), id)
    else
      var id := s.nextId;
      (State(s.store + [Entry(i.device, i.className, i.feature, i.timestamp, id)],
             s.tracks[id := Track(i.className, [Sighting(i.device, i.timestamp, 1.0)])], s.nextId + 1), id)
  }

  lemma RegisteredTracked(c: Config, s: State, i: Input)
    requires Tracked(s)
    ensures Tracked(Registered(c, s, i).0)
  {
    BestMember(c, s.store, i);
  }

  /** Entries older than this are forgotten: two windows back. */
  function Horizon(c: Config, now: real): real {
    TwoBack(c.window, now)
  }

  function TwoBack(window: real, now: real): real {
    now - window * 2.0
  }

  function Pruned(c: Config, s: State, now: real): State {
    s.(store := Keep(s.store, Horizon(c, now)))
  }

  lemma {:induction false} KeepMembers(store: seq<Entry>, cutoff: real)
    ensures forall e :: e in Keep(store, cutoff) <==> e in store && e.timestamp >= cutoff
    decreases |store|
  {
    if store != [] {
      KeepMembers(store[..|store| - 1], cutoff);
      assert store == store[..|store| - 1] + [store[|store| - 1]];
    }
  }

  // ----- searching -----

  datatype Match = Match(target: Entry, similarity: real)

  predicate Wanted(c: Config, e: Entry, className: string, excludeDevice: string, now: real) {
    && !(e.timestamp < now - c.window)
    && !(excludeDevice != "" && e.device == excludeDevice)
    && !(className != "" && e.className != className)
  }

  function Matches(c: Config, store: seq<Entry>, feature: Feature, className: string, excludeDevice: string,
                   now: real): seq<Match>
    decreases |store|
  {
    if store == [] then []
    else
      var (init, e) := (Matches(c, store[..|store| - 1], feature, className, excludeDevice, now), store[|store| - 1]);
      var sim := c.similarity(feature, e.feature);
      if Wanted(c, e, className, excludeDevice, now) && sim >= c.threshold then init + [Match(e, sim)] else init
  }

  /** Place m behind everything that is at least as similar. */
  function Insert(sorted: seq<Match>, m: Match): seq<Match>
    decreases |sorted|
  {
    if sorted == [] || sorted[|sorted| - 1].similarity >= m.similarity then sorted + [m]
    else Insert(sorted[..|sorted| - 1], m) + [sorted[|sorted| - 1]]
  }

  /** list.sort with key -similarity: falling similarity, ties in their old order. */
  function Sorted(ms: seq<Match>): seq<Match>
    decreases |ms|
  {
    if ms == [] then [] else Insert(Sorted(ms[..|ms| - 1]), ms[|ms| - 1])
  }

  /** The slice [:k] of Python; a negative k counts from the end. */
  function FirstOf(ms: seq<Match>, k: int): seq<Match> {
    if k >= |ms| then ms else if k >= 0 then ms[..k] else if -k >= |ms| then [] else ms[..|ms| + k]
  }

  class ReIDEngine {
    const config: Config
    var featureStore: seq<Entry>
    var tracks: map<nat, Track>
    var nextTrackId: nat

    constructor (config: Config)
      ensures this.config == config && Model() == INITIAL && Valid()
    {
      this.config := config;
      featureStore, tracks, nextTrackId := [], map[], 1;
    }

    function Model(): State
      reads this
    {
      State(featureStore, tracks, nextTrackId)
    }

    predicate Valid()
      reads this
    {
      Tracked(Model())
    }

    method RegisterFeature(device: string, className: string, feature: Feature, timestamp: real) returns (trackId: nat)
      requires Valid()
      modifies this
      ensures var (s, id) := Registered(config, old(Model()), Input(device, className, feature, timestamp));
        trackId == id && Model() == Pruned(config, s, timestamp)
      ensures Valid()
    {
      ghost var i := Input(device, className, feature, timestamp);
      ghost var s := Registered(config, Model(), i).0;
      RegisteredTracked(config, Model(), i);
      BestMember(config, featureStore, i);
      var best, bestSim := FindBest(device, className, feature, timestamp);
      if best.Some? {
        trackId := best.value.trackId;
        var track := tracks[trackId];
        tracks := tracks[trackId := track.(sightings := track.sightings + [Sighting(device, timestamp, bestSim)])];
      } else {
        trackId := nextTrackId;
        nextTrackId := nextTrackId + 1;
        tracks := tracks[trackId := Track(className, [Sighting(device, timestamp, 1.0)])];
      }
      featureStore := featureStore + [Entry(device, className, feature, timestamp, trackId)];
      assert Model() == s;
      PruneOld(timestamp);
      KeepMembers(s.store, Horizon(config, timestamp));
    }

    method FindBest(device: string, className: string, feature: Feature, ts: real)
      returns (best: Option<Entry>, bestSim: real)
      ensures var i := Input(device, className, feature, ts);
        best == Best(config, featureStore, i) && bestSim == BestSim(config, best, i)
    {
      ghost var i := Input(device, className, feature, ts);
      best, bestSim := None, 0.0;
      var cutoff := ts - config.window;
      for n := 0 to |featureStore|
        invariant best == Best(config, featureStore[..n], i) && bestSim == BestSim(config, best, i)
      {
        assert featureStore[..n + 1][..n] == featureStore[..n];
        var existing := featureStore[n];
        if existing.device == device || existing.timestamp < cutoff || existing.className != className {
          continue;
        }
        var sim := config.similarity(feature, existing.feature);
        if sim >= config.threshold && sim > bestSim {
          bestSim := sim;
          best := Some(existing);
        }
      }
      assert featureStore[..|featureStore|] == featureStore;
    }

    method PruneOld(now: real)
      modifies this`featureStore
      ensures Model() == Pruned(config, old(Model()), now)
    {
      var cutoff := Horizon(config, now);
      var kept: seq<Entry> := [];
      for n := 0 to |featureStore|
        invariant kept == Keep(featureStore[..n], cutoff)
      {
        assert featureStore[..n + 1][..n] == featureStore[..n];
        if featureStore[n].timestamp >= cutoff {
          kept := kept + [featureStore[n]];
        }
      }
      assert featureStore[..|featureStore|] == featureStore;
      featureStore := kept;
    }

    method FindMatches(feature: Feature, className: string, excludeDevice: string, topK: int, now: real)
      returns (matches: seq<Match>)
      ensures matches == FirstOf(Sorted(Matches(config, featureStore, feature, className, excludeDevice, now)), topK)
    {
      matches := [];
      for n := 0 to |featureStore|
        invariant matches == Matches(config, featureStore[..n], feature, className, excludeDevice, now)
      {
        assert featureStore[..n + 1][..n] == featureStore[..n];
        var entry := featureStore[n];
        if Wanted(config, entry, className, excludeDevice, now) {
          var sim := config.similarity(feature, entry.feature);
          if sim >= config.threshold {
            matches := matches + [Match(entry, sim)];
          }
        }
      }
      assert featureStore[..|featureStore|] == featureStore;
      matches := FirstOf(Sorted(matches), topK);
    }
  }
}
