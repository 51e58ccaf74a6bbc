/** Whose track a feature joins: that of the most similar recent feature from another camera, for every run. */
module ReIdAnswers {
  import opened ReId
  import opened ReIdExact
  import opened ReIdRuns
  import opened Text

  // ----- one registration -----

  function Sim(c: Config, e: Entry, i: Input): real {
    c.similarity(i.feature, e.feature)
  }

  /** e is of the same class, from another device, no more than a window ago, and similar enough. */
  predicate Qualifies(c: Config, e: Entry, i: Input) {
    && e.device != i.device && e.className == i.className && e.timestamp >= i.timestamp - c.window
    && Sim(c, e, i) >= c.threshold && Sim(c, e, i) > 0.0
  }

  /** Entry h is the most similar of those that qualify, and the oldest of the most similar. */
  predicate MostSimilar(c: Config, store: seq<Entry>, i: Input, h: int) {
    && 0 <= h < |store| && Qualifies(c, store[h], i)
    && (forall m | 0 <= m < |store| && Qualifies(c, store[m], i) :: Sim(c, store[m], i) <= Sim(c, store[h], i))
    && (forall m | 0 <= m < h && Qualifies(c, store[m], i) :: Sim(c, store[m], i) < Sim(c, store[h], i))
  }

  predicate NoneQualifies(c: Config, store: seq<Entry>, i: Input) {
    forall m | 0 <= m < |store| :: !Qualifies(c, store[m], i)
  }

  /** What the scan has found so far. */
  ghost predicate Found(c: Config, store: seq<Entry>, i: Input, best: Option<Entry>) {
    if best.None? then NoneQualifies(c, store, i)
    else exists h :: MostSimilar(c, store, i, h) && best.value == store[h]
  }

  lemma SnocFound(c: Config, init: seq<Entry>, e: Entry, i: Input, best: Option<Entry>)
    requires Found(c, init, i, best)
    ensures Found(c, init + [e], i,
                  if Qualifies(c, e, i) && Sim(c, e, i) > BestSim(c, best, i) then Some(e) else best)
  {
    var store := init + [e];
    if Qualifies(c, e, i) && Sim(c, e, i) > BestSim(c, best, i) {
      assert MostSimilar(c, store, i, |init|);
    } else if best.Some? {
      var h :| MostSimilar(c, init, i, h) && best.value == init[h];
      assert MostSimilar(c, store, i, h);
    }
  }

  /** A match exists exactly if some entry qualifies, and then it is the first of the most similar ones. */
  lemma {:induction false} BestIsMostSimilar(c: Config, store: seq<Entry>, i: Input)
    ensures Found(c, store, i, Best(c, store, i))
    decreases |store|
  {
    if store != [] {
      var init := store[..|store| - 1];
      BestIsMostSimilar(c, init, i);
      SnocFound(c, init, store[|store| - 1], i, Best(c, init, i));
      assert init + [store[|store| - 1]] == store;
      BestSimIsPositive(c, init, i);
    }
  }

  lemma {:induction false} BestSimIsPositive(c: Config, store: seq<Entry>, i: Input)
    ensures BestSim(c, Best(c, store, i), i) >= 0.0
    decreases |store|
  {
    if store != [] {
      BestSimIsPositive(c, store[..|store| - 1], i);
    }
  }

  /** The feature is noted on this track with this similarity. */
  predicate Noted(s: State, id: nat, i: Input, similarity: real) {
    id in s.tracks && s.tracks[id].sightings != []
    && s.tracks[id].sightings[|s.tracks[id].sightings| - 1] == Sighting(i.device, i.timestamp, similarity)
  }

  /**
   * What a registration answers: the track of the most similar entry that qualifies, with that similarity on record, or
   * a new track.
   */
  lemma RegisteredAnswer(c: Config, s: State, i: Input, h: nat)
    requires Tracked(s)
    ensures var (s', id) := Registered(c, s, i);
      && (MostSimilar(c, s.store, i, h) ==> id == s.store[h].trackId && Noted(s', id, i, Sim(c, s.store[h], i)))
      && (NoneQualifies(c, s.store, i) ==> id == s.nextId && id !in s.tracks && Noted(s', id, i, 1.0))
  {
    BestIsMostSimilar(c, s.store, i);
    if MostSimilar(c, s.store, i, h) {
      OnlyOneIsMostSimilar(c, s, i, h);
      assert s.store[h] in s.store;
    }
  }

  lemma OnlyOneIsMostSimilar(c: Config, s: State, i: Input, h: nat)
    requires MostSimilar(c, s.store, i, h) && Found(c, s.store, i, Best(c, s.store, i))
    ensures Best(c, s.store, i) == Some(s.store[h])
  {
    var k :| MostSimilar(c, s.store, i, k) && Best(c, s.store, i).value == s.store[k];
    assert h == k;
  }

  // ----- whole runs, in terms of what was registered -----

  /** Input h was seen before input k on another device, no more than a window ago, of its class and similar enough. */
  predicate Partner(c: Config, inputs: seq<Input>, h: int, k: nat)
    requires k < |inputs|
  {
    && 0 <= h < k && inputs[h].device != inputs[k].device && inputs[h].className == inputs[k].className
    && inputs[h].timestamp >= inputs[k].timestamp - c.window
    && Likeness(c, inputs, h, k) >= c.threshold && Likeness(c, inputs, h, k) > 0.0
  }

  function Likeness(c: Config, inputs: seq<Input>, h: int, k: nat): real
    requires 0 <= h < |inputs| && k < |inputs|
  {
    c.similarity(inputs[k].feature, inputs[h].feature)
  }

  /** The most similar partner, and the earliest of the most similar. */
  ghost predicate BestPartner(c: Config, inputs: seq<Input>, h: int, k: nat)
    requires k < |inputs|
  {
    && Partner(c, inputs, h, k)
    && (forall m | Partner(c, inputs, m, k) :: Likeness(c, inputs, m, k) <= Likeness(c, inputs, h, k))
    && (forall m | m < h && Partner(c, inputs, m, k) :: Likeness(c, inputs, m, k) < Likeness(c, inputs, h, k))
  }

  /** Answer k is that of the best partner; without a partner it is an id that was never given before. */
  ghost predicate AnsweredWell(c: Config, inputs: seq<Input>, ids: seq<nat>, k: nat)
    requires k < |inputs| && k < |ids|
  {
    if forall h | 0 <= h < k :: !Partner(c, inputs, h, k) then ids[k] !in ids[..k]
    else exists h :: BestPartner(c, inputs, h, k) && ids[k] == ids[h]
  }

  lemma PartnersQualify(c: Config, inputs: seq<Input>, ids: seq<nat>, store: seq<Entry>, k: nat)
    requires k < |inputs| && Complete(store, inputs[..k], ids)
    ensures forall h | 0 <= h < k :: Qualifies(c, store[h], inputs[k]) <==> Partner(c, inputs, h, k)
    ensures forall h | MostSimilar(c, store, inputs[k], h) :: BestPartner(c, inputs, h, k)
  {
    forall h | MostSimilar(c, store, inputs[k], h) ensures BestPartner(c, inputs, h, k) {
      forall m | Partner(c, inputs, m, k)
        ensures Likeness(c, inputs, m, k) <= Likeness(c, inputs, h, k)
        ensures m < h ==> Likeness(c, inputs, m, k) < Likeness(c, inputs, h, k)
      {
        assert Qualifies(c, store[m], inputs[k]);
      }
    }
  }

  lemma {:induction false} IdsAreOld(c: Config, inputs: seq<Input>)
    ensures var (s, ids) := Run(c, inputs, false); forall k | 0 <= k < |ids| :: ids[k] < s.nextId
    decreases |inputs|
  {
    if inputs != [] {
      var init := inputs[..|inputs| - 1];
      IdsAreOld(c, init);
      TracksExist(c, inputs, false);
      assert Registered(c, Run(c, init, false).0, inputs[|inputs| - 1]).1 in Run(c, inputs, false).0.tracks;
    }
  }

  lemma LastAnswer(c: Config, inputs: seq<Input>, k: nat)
    requires k < |inputs|
    ensures AnsweredWell(c, inputs, Run(c, inputs[..k + 1], false).1, k)
  {
    var (s, before) := Run(c, inputs[..k], false);
    var i := inputs[k];
    RunStep(c, inputs, k + 1, false);
    FullStore(c, inputs[..k]);
    TracksExist(c, inputs[..k], false);
    IdsAreOld(c, inputs[..k]);
    PartnersQualify(c, inputs, before, s.store, k);
    BestIsMostSimilar(c, s.store, i);
    if NoneQualifies(c, s.store, i) {
      RegisteredAnswer(c, s, i, 0);
      forall h | 0 <= h < k ensures !Partner(c, inputs, h, k) {
        assert !Qualifies(c, s.store[h], i);
      }
    } else {
      var h :| MostSimilar(c, s.store, i, h);
      RegisteredAnswer(c, s, i, h);
      assert BestPartner(c, inputs, h, k);
    }
  }

  lemma SnocKeeps(before: seq<nat>, after: seq<nat>, k: nat)
    requires k <= |before| && |after| == |before| + 1 && after == before + [after[|before|]]
    ensures after[..k] == before[..k]
  {
  }

  lemma {:induction false} EarlierIds(c: Config, inputs: seq<Input>, n: nat, k: nat)
    requires k <= n <= |inputs|
    ensures Run(c, inputs[..n], false).1[..k] == Run(c, inputs[..k], false).1
    decreases n
  {
    if k < n {
      RunStep(c, inputs, n, false);
      EarlierIds(c, inputs, n - 1, k);
      SnocKeeps(Run(c, inputs[..n - 1], false).1, Run(c, inputs[..n], false).1, k);
    }
  }

  lemma OnlyEarlierMatter(c: Config, inputs: seq<Input>, ids: seq<nat>, k: nat)
    requires k < |inputs| && k < |ids| && AnsweredWell(c, inputs, ids[..k + 1], k)
    ensures AnsweredWell(c, inputs, ids, k)
  {
    assert ids[..k + 1][..k] == ids[..k];
    if h :| BestPartner(c, inputs, h, k) && ids[..k + 1][k] == ids[..k + 1][h] {
      assert ids[k] == ids[h];
    }
  }

  /** In every run of an engine that never forgets, every feature joins the track of its best partner. */
  lemma AnswersAreBest(c: Config, inputs: seq<Input>, k: nat)
    requires k < |inputs|
    ensures AnsweredWell(c, inputs, Run(c, inputs, false).1, k)
  {
    LastAnswer(c, inputs, k);
    EarlierIds(c, inputs, |inputs|, k + 1);
    assert inputs[..|inputs|] == inputs;
    OnlyEarlierMatter(c, inputs, Run(c, inputs, false).1, k);
  }

  /** So does an engine that forgets, as long as no query looks back to what it dropped. */
  lemma PrunedAnswersAreBest(c: Config, inputs: seq<Input>, k: nat)
    requires k < |inputs| && NothingMissed(Timestamps(inputs), c.window)
    ensures AnsweredWell(c, inputs, Run(c, inputs, true).1, k)
  {
    PruningIsInvisible(c, inputs);
    AnswersAreBest(c, inputs, k);
  }
}
