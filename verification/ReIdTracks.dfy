/** What tracks and searches mean, and that forgetting changes neither. */
module ReIdTracks {
  import opened ReId
  import opened ReIdRuns

  // ----- tracks -----

  /** The inputs that were given this id, in order: on which device and when. */
  function SeenAs(inputs: seq<Input>, ids: seq<nat>, id: nat): seq<(string, real)>
    requires |inputs| == |ids|
    decreases |inputs|
  {
    if inputs == [] then []
    else
      var n := |inputs| - 1;
      var before := SeenAs(inputs[..n], ids[..n], id);
      if ids[n] == id then before + [(inputs[n].device, inputs[n].timestamp)] else before
  }

  function Places(sightings: seq<Sighting>): seq<(string, real)> {
    seq(|sightings|, n requires 0 <= n < |sightings| => (sightings[n].device, sightings[n].timestamp))
  }

  /** The id is that of a track, and the track is of this class. */
  predicate IsOf(tracks: map<nat, Track>, id: nat, className: string) {
    id in tracks && tracks[id].className == className
  }

  /** A track lists exactly the inputs that were given its id, and all of them are of its class. */
  predicate Truthful(s: State, inputs: seq<Input>, ids: seq<nat>) {
    && |inputs| == |ids|
    && (forall id | id in s.tracks :: id < s.nextId && Places(s.tracks[id].sightings) == SeenAs(inputs, ids, id))
    && (forall n | 0 <= n < |inputs| :: IsOf(s.tracks, ids[n], inputs[n].className))
    && (forall e | e in s.store :: IsOf(s.tracks, e.trackId, e.className))
  }

  lemma {:induction false} UnusedId(inputs: seq<Input>, ids: seq<nat>, id: nat)
    requires |inputs| == |ids| && forall n | 0 <= n < |ids| :: ids[n] != id
    ensures SeenAs(inputs, ids, id) == []
    decreases |inputs|
  {
    if inputs != [] {
      UnusedId(inputs[..|inputs| - 1], ids[..|ids| - 1], id);
    }
  }

  lemma SeenSnoc(inputs: seq<Input>, ids: seq<nat>, i: Input, id: nat, x: nat)
    requires |inputs| == |ids|
    ensures SeenAs(inputs + [i], ids + [id], x)
         == if id == x then SeenAs(inputs, ids, x) + [(i.device, i.timestamp)] else SeenAs(inputs, ids, x)
  {
    assert (inputs + [i])[..|inputs|] == inputs && (ids + [id])[..|ids|] == ids;
  }

  lemma RegisteredTruthful(c: Config, s: State, inputs: seq<Input>, ids: seq<nat>, i: Input)
    requires Truthful(s, inputs, ids)
    ensures var (s', id) := Registered(c, s, i); Truthful(s', inputs + [i], ids + [id])
  {
    var (s', id) := Registered(c, s, i);
    BestMember(c, s.store, i);
    assert IsOf(s'.tracks, id, i.className);
    forall x | x in s'.tracks ensures Places(s'.tracks[x].sightings) == SeenAs(inputs + [i], ids + [id], x) {
      SeenSnoc(inputs, ids, i, id, x);
      if x == id && id !in s.tracks {
        UnusedId(inputs, ids, x);
      }
    }
    forall n | 0 <= n <= |inputs| ensures IsOf(s'.tracks, (ids + [id])[n], (inputs + [i])[n].className) {
      assert n < |inputs| ==> IsOf(s.tracks, ids[n], inputs[n].className);
    }
    forall e | e in s'.store ensures IsOf(s'.tracks, e.trackId, e.className) {
      assert e in s.store ==> IsOf(s.tracks, e.trackId, e.className);
    }
  }

  lemma NextTruthful(c: Config, s: State, inputs: seq<Input>, ids: seq<nat>, forget: bool)
    requires inputs != [] && Truthful(s, inputs[..|inputs| - 1], ids)
    ensures var (s', id) := Next(c, s, inputs[|inputs| - 1], forget); Truthful(s', inputs, ids + [id])
  {
    var init, i := inputs[..|inputs| - 1], inputs[|inputs| - 1];
    RegisteredTruthful(c, s, init, ids, i);
    assert init + [i] == inputs;
    KeepMembers(Registered(c, s, i).0.store, Horizon(c, i.timestamp));
  }

  /** In every run, pruned or not, a track is a true record of one class of objects. */
  lemma {:induction false} TracksAreTruthful(c: Config, inputs: seq<Input>, forget: bool)
    ensures Truthful(Run(c, inputs, forget).0, inputs, Run(c, inputs, forget).1)
    decreases |inputs|
  {
    if inputs != [] {
      var init := inputs[..|inputs| - 1];
      TracksAreTruthful(c, init, forget);
      NextTruthful(c, Run(c, init, forget).0, inputs, Run(c, init, forget).1, forget);
    }
  }

  // ----- searches -----

  lemma {:induction false} ThinnedMatches(c: Config, p: seq<Entry>, f: seq<Entry>, cutoffs: seq<real>,
                                          feature: Feature, className: string, excludeDevice: string, now: real)
    requires Thinned(p, f, cutoffs) && cutoffs != [] && cutoffs[0] == now - c.window
    ensures Matches(c, p, feature, className, excludeDevice, now)
        == Matches(c, f, feature, className, excludeDevice, now)
    decreases |f|
  {
    if f != [] {
      var init, e := f[..|f| - 1], f[|f| - 1];
      if p != [] && p[|p| - 1] == e && Thinned(p[..|p| - 1], init, cutoffs) {
        ThinnedMatches(c, p[..|p| - 1], init, cutoffs, feature, className, excludeDevice, now);
      } else {
        ThinnedMatches(c, p, init, cutoffs, feature, className, excludeDevice, now);
      }
    }
  }

  /** A search after a run finds in the pruned store all it would find in one that never forgets. */
  lemma SearchIsUnaffected(c: Config, inputs: seq<Input>, feature: Feature, className: string, excludeDevice: string,
                           now: real)
    requires NothingMissed(Timestamps(inputs) + [now], c.window)
    ensures Matches(c, Run(c, inputs, true).0.store, feature, className, excludeDevice, now)
         == Matches(c, Run(c, inputs, false).0.store, feature, className, excludeDevice, now)
  {
    var all := inputs + [Input("", "", feature, now)];
    assert Timestamps(all) == Timestamps(inputs) + [now];
    assert all[..|inputs|] == inputs;
    RunsAgree(c, all, |inputs|);
    ThinnedMatches(c, Run(c, inputs, true).0.store, Run(c, inputs, false).0.store, Cutoffs(all, |inputs|, c.window),
                   feature, className, excludeDevice, now);
  }

  predicate Falling(ms: seq<Match>) {
    forall i, j | 0 <= i < j < |ms| :: ms[i].similarity >= ms[j].similarity
  }

  /** The matches of one similarity, in order. */
  function Ties(ms: seq<Match>, x: real): seq<Match>
    decreases |ms|
  {
    if ms == [] then []
    else
      var (init, m) := (Ties(ms[..|ms| - 1], x), ms[|ms| - 1]);
      if m.similarity == x then init + [m] else init
  }

  lemma {:induction false} InsertBag(sorted: seq<Match>, m: Match)
    ensures multiset(Insert(sorted, m)) == multiset(sorted) + multiset{m}
    decreases |sorted|
  {
    if sorted != [] && !(sorted[|sorted| - 1].similarity >= m.similarity) {
      var init, last := sorted[..|sorted| - 1], sorted[|sorted| - 1];
      InsertBag(init, m);
      assert sorted == init + [last];
    }
  }

  predicate AllAtLeast(ms: seq<Match>, x: real) {
    forall m | m in ms :: m.similarity >= x
  }

  lemma FallingSnoc(ms: seq<Match>, m: Match)
    requires Falling(ms) && AllAtLeast(ms, m.similarity)
    ensures Falling(ms + [m])
  {
  }

  lemma {:induction false} InsertSorts(sorted: seq<Match>, m: Match)
    requires Falling(sorted)
    ensures Falling(Insert(sorted, m))
    ensures forall x | AllAtLeast(sorted, x) && m.similarity >= x :: AllAtLeast(Insert(sorted, m), x)
    decreases |sorted|
  {
    if sorted != [] {
      var init, last := sorted[..|sorted| - 1], sorted[|sorted| - 1];
      assert AllAtLeast(init, last.similarity);
      if !(last.similarity >= m.similarity) {
        InsertSorts(init, m);
        FallingSnoc(Insert(init, m), last);
      } else {
        assert AllAtLeast(sorted, m.similarity);
        FallingSnoc(sorted, m);
      }
    }
  }

  lemma {:induction false} InsertIsStable(sorted: seq<Match>, m: Match, x: real)
    requires Falling(sorted)
    ensures Ties(Insert(sorted, m), x) == Ties(sorted, x) + if m.similarity == x then [m] else []
    decreases |sorted|
  {
    if sorted == [] || sorted[|sorted| - 1].similarity >= m.similarity {
      assert (sorted + [m])[..|sorted|] == sorted;
    } else {
      var init, last := sorted[..|sorted| - 1], sorted[|sorted| - 1];
      InsertIsStable(init, m, x);
      assert (Insert(init, m) + [last])[..|Insert(init, m)|] == Insert(init, m);
    }
  }

  lemma {:induction false} SortedBag(ms: seq<Match>)
    ensures Falling(Sorted(ms)) && multiset(Sorted(ms)) == multiset(ms)
    decreases |ms|
  {
    if ms != [] {
      var init, m := ms[..|ms| - 1], ms[|ms| - 1];
      SortedBag(init);
      InsertSorts(Sorted(init), m);
      InsertBag(Sorted(init), m);
      assert ms == init + [m];
    }
  }

  /** The result of the sort: falling similarity, the same matches, ties in the order they were found. */
  lemma {:induction false} SortedMeaning(ms: seq<Match>, x: real)
    ensures Falling(Sorted(ms)) && multiset(Sorted(ms)) == multiset(ms) && Ties(Sorted(ms), x) == Ties(ms, x)
    decreases |ms|
  {
    SortedBag(ms);
    if ms != [] {
      var init := ms[..|ms| - 1];
      SortedMeaning(init, x);
      InsertIsStable(Sorted(init), ms[|ms| - 1], x);
    }
  }

  /** The best topK: that many if there are, and nothing that is left out is more similar than anything returned. */
  lemma TopKIsBest(ms: seq<Match>, topK: nat) returns (leftOut: seq<Match>)
    ensures var r := FirstOf(Sorted(ms), topK);
      && |r| == (if topK <= |ms| then topK else |ms|)
      && multiset(ms) == multiset(r) + multiset(leftOut)
      && NoneBetter(leftOut, r)
  {
    var s := Sorted(ms);
    SortedBag(ms);
    assert |s| == |multiset(s)| == |ms|;
    var n := if topK <= |s| then topK else |s|;
    leftOut := s[n..];
    assert s == s[..n] + leftOut;
    FallingParts(s[..n], leftOut);
  }

  predicate NoneBetter(rest: seq<Match>, r: seq<Match>) {
    forall m, m' | m in rest && m' in r :: m.similarity <= m'.similarity
  }

  lemma FallingParts(r: seq<Match>, rest: seq<Match>)
    requires Falling(r + rest)
    ensures NoneBetter(rest, r)
  {
    forall m, m' | m in rest && m' in r ensures m.similarity <= m'.similarity {
      var i :| 0 <= i < |rest| && rest[i] == m;
      var j :| 0 <= j < |r| && r[j] == m';
      assert (r + rest)[j] == m' && (r + rest)[|r| + i] == m;
    }
  }

  /** Exactly the entries that qualify are matched: recent, wanted, and similar enough. */
  lemma {:induction false} MatchesIff(c: Config, store: seq<Entry>, feature: Feature, className: string,
                                      excludeDevice: string,
                                      now: real, m: Match)
    ensures m in Matches(c, store, feature, className, excludeDevice, now)
       <==> m.target in store && m.target.timestamp >= now - c.window
            && (excludeDevice == "" || m.target.device != excludeDevice)
            && (className == "" || m.target.className == className)
            && m.similarity == c.similarity(feature, m.target.feature) >= c.threshold
    decreases |store|
  {
    if store != [] {
      MatchesIff(c, store[..|store| - 1], feature, className, excludeDevice, now, m);
      assert store == store[..|store| - 1] + [store[|store| - 1]];
    }
  }
}
