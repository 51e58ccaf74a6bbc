/**
 * The condition for invisible pruning is exact: whenever it fails, some features make the two engines answer
 * differently.
 */
module ReIdExact {
  import opened Text
  import opened ReId
  import opened ReIdRuns

  lemma {:induction false} NoCandidate(c: Config, store: seq<Entry>, i: Input)
    requires forall e | e in store :: !Candidate(c, e, i)
    ensures Best(c, store, i) == None
    decreases |store|
  {
    if store != [] {
      NoCandidate(c, store[..|store| - 1], i);
    }
  }

  lemma {:induction false} OneCandidate(c: Config, store: seq<Entry>, i: Input, h: nat, n: nat)
    requires h < |store| && n <= |store| && Candidate(c, store[h], i)
    requires forall m | 0 <= m < |store| && m != h :: !Candidate(c, store[m], i)
    requires var sim := c.similarity(i.feature, store[h].feature); sim >= c.threshold && sim > 0.0
    ensures Best(c, store[..n], i) == if h < n then Some(store[h]) else None
    decreases n
  {
    if n > 0 {
      assert store[..n][..n - 1] == store[..n - 1];
      OneCandidate(c, store, i, h, n - 1);
    }
  }

  /** Two inputs of one class on two devices; all others are of another class and on one device. */
  function Witness(ts: seq<real>, h: nat, k: nat, v: Feature): (inputs: seq<Input>)
    ensures |inputs| == |ts|
  {
    seq(|ts|, n requires 0 <= n < |ts| =>
      if n == h then Input("b", "x", v, ts[n]) else if n == k then Input("c", "x", v, ts[n])
          else Input("a", "y", v, ts[n]))
  }

  function EntryOf(i: Input, id: nat): Entry {
    Entry(i.device, i.className, i.feature, i.timestamp, id)
  }

  /** The entry of one of the first n inputs; the m-th input starts track m + 1. */
  predicate From(e: Entry, inputs: seq<Input>, n: nat)
    requires n <= |inputs|
  {
    exists m | 0 <= m < n :: e == EntryOf(inputs[m], m + 1)
  }

  predicate AllFrom(store: seq<Entry>, inputs: seq<Input>, n: nat)
    requires n <= |inputs|
  {
    forall e | e in store :: From(e, inputs, n)
  }

  /** So far nothing has matched. */
  predicate AllNew(s: State, ids: seq<nat>, inputs: seq<Input>, n: nat)
    requires n <= |inputs|
  {
    s.nextId == n + 1 && |ids| == n && (forall m | 0 <= m < n :: ids[m] == m + 1) && AllFrom(s.store, inputs, n)
  }

  lemma AllFromNext(c: Config, s: State, inputs: seq<Input>, n: nat, forget: bool)
    requires 0 < n <= |inputs| && s.nextId == n && AllFrom(s.store, inputs, n - 1)
    requires Best(c, s.store, inputs[n - 1]) == None
    ensures var (s', id) := Next(c, s, inputs[n - 1], forget);
      id == n && s'.nextId == n + 1 && AllFrom(s'.store, inputs, n)
  {
    var i := inputs[n - 1];
    var s' := Registered(c, s, i).0;
    KeepMembers(s'.store, Horizon(c, i.timestamp));
    forall e | e in s'.store ensures From(e, inputs, n) {
      if e in s.store {
        var m :| 0 <= m < n - 1 && e == EntryOf(inputs[m], m + 1);
      } else {
        assert e == EntryOf(inputs[n - 1], n);
      }
    }
  }

  lemma NoneBefore(c: Config, ts: seq<real>, h: nat, k: nat, v: Feature, n: nat, store: seq<Entry>)
    requires h < k < |ts| && n < k && AllFrom(store, Witness(ts, h, k, v), n)
    ensures Best(c, store, Witness(ts, h, k, v)[n]) == None
  {
    var inputs := Witness(ts, h, k, v);
    forall e | e in store ensures !Candidate(c, e, inputs[n]) {
      assert From(e, inputs, n);
      var m :| 0 <= m < n && e == EntryOf(inputs[m], m + 1);
    }
    NoCandidate(c, store, inputs[n]);
  }

  predicate NewUpTo(c: Config, ts: seq<real>, h: nat, k: nat, v: Feature, n: nat, forget: bool)
    requires n <= |ts|
  {
    var inputs := Witness(ts, h, k, v);
    AllNew(Run(c, inputs[..n], forget).0, Run(c, inputs[..n], forget).1, inputs, n)
  }

  lemma NewUpToNext(c: Config, ts: seq<real>, h: nat, k: nat, v: Feature, n: nat, forget: bool)
    requires h < k < |ts| && 0 < n <= k && NewUpTo(c, ts, h, k, v, n - 1, forget)
    ensures NewUpTo(c, ts, h, k, v, n, forget)
  {
    var inputs := Witness(ts, h, k, v);
    var s := Run(c, inputs[..n - 1], forget).0;
    NoneBefore(c, ts, h, k, v, n - 1, s.store);
    AllFromNext(c, s, inputs, n, forget);
    RunStep(c, inputs, n, forget);
  }

  /** Before input k nothing matches in either engine. */
  lemma {:induction false} NothingMatches(c: Config, ts: seq<real>, h: nat, k: nat, v: Feature, n: nat, forget: bool)
    requires h < k < |ts| && n <= k
    ensures NewUpTo(c, ts, h, k, v, n, forget)
    decreases n
  {
    if n > 0 {
      NothingMatches(c, ts, h, k, v, n - 1, forget);
      NewUpToNext(c, ts, h, k, v, n, forget);
    }
  }

  predicate Without(store: seq<Entry>, id: nat) {
    forall e | e in store :: e.trackId != id
  }

  lemma KeptEntries(c: Config, s: State, i: Input)
    ensures var (s', id) := Next(c, s, i, true);
      forall e | e in s'.store :: e.timestamp >= Horizon(c, i.timestamp) && (e in s.store || e == EntryOf(i, id))
  {
    StoreGrows(c, s, i);
    KeepMembers(Registered(c, s, i).0.store, Horizon(c, i.timestamp));
  }

  /** What registering input n - 1 leaves of track h + 1, whose only entry is that of input h. */
  lemma WithoutNext(c: Config, s: State, inputs: seq<Input>, h: nat, n: nat)
    requires h < n <= |inputs| && s.nextId == n && AllFrom(s.store, inputs, n - 1)
    requires Best(c, s.store, inputs[n - 1]) == None
    requires (h < n - 1 && Without(s.store, h + 1)) || inputs[h].timestamp < Horizon(c, inputs[n - 1].timestamp)
    ensures Without(Next(c, s, inputs[n - 1], true).0.store, h + 1)
  {
    AllFromNext(c, s, inputs, n, true);
    KeptEntries(c, s, inputs[n - 1]);
    var kept := Next(c, s, inputs[n - 1], true).0.store;
    forall e | e in kept ensures e.trackId != h + 1 {
      OnlyHisEntry(inputs, n, h, e);
    }
  }

  lemma OnlyHisEntry(inputs: seq<Input>, n: nat, h: nat, e: Entry)
    requires h < n <= |inputs| && From(e, inputs, n)
    ensures e.trackId == h + 1 ==> e.timestamp == inputs[h].timestamp
  {
  }

  lemma ForgottenNext(c: Config, ts: seq<real>, h: nat, j: nat, k: nat, v: Feature, n: nat)
    requires Missed(ts, c.window, h, j, k) && j < n <= k
    requires n - 1 == j || Without(Run(c, Witness(ts, h, k, v)[..n - 1], true).0.store, h + 1)
    ensures Without(Run(c, Witness(ts, h, k, v)[..n], true).0.store, h + 1)
  {
    var inputs := Witness(ts, h, k, v);
    var s := Run(c, inputs[..n - 1], true).0;
    NothingMatches(c, ts, h, k, v, n - 1, true);
    NoneBefore(c, ts, h, k, v, n - 1, s.store);
    WithoutNext(c, s, inputs, h, n);
    RunStep(c, inputs, n, true);
  }

  /** Once input j has been registered the entry of input h is gone from the store that forgets. */
  lemma {:induction false} Forgotten(c: Config, ts: seq<real>, h: nat, j: nat, k: nat, v: Feature, n: nat)
    requires Missed(ts, c.window, h, j, k) && j < n <= k
    ensures Without(Run(c, Witness(ts, h, k, v)[..n], true).0.store, h + 1)
    decreases n
  {
    if n - 1 > j {
      Forgotten(c, ts, h, j, k, v, n - 1);
    }
    ForgottenNext(c, ts, h, j, k, v, n);
  }

  lemma NoneWithout(c: Config, ts: seq<real>, h: nat, k: nat, v: Feature, store: seq<Entry>)
    requires h < k < |ts| && AllFrom(store, Witness(ts, h, k, v), k) && Without(store, h + 1)
    ensures Best(c, store, Witness(ts, h, k, v)[k]) == None
  {
    var inputs := Witness(ts, h, k, v);
    forall e | e in store ensures !Candidate(c, e, inputs[k]) {
      assert From(e, inputs, k);
      var m :| 0 <= m < k && e == EntryOf(inputs[m], m + 1);
    }
    NoCandidate(c, store, inputs[k]);
  }

  /** The engine that forgets starts a new track for input k. */
  lemma ForgetfulAnswer(c: Config, ts: seq<real>, h: nat, j: nat, k: nat, v: Feature)
    requires Missed(ts, c.window, h, j, k)
    ensures Run(c, Witness(ts, h, k, v)[..k + 1], true).1[k] == k + 1
  {
    var inputs := Witness(ts, h, k, v);
    var s := Run(c, inputs[..k], true).0;
    NothingMatches(c, ts, h, k, v, k, true);
    Forgotten(c, ts, h, j, k, v, k);
    NoneWithout(c, ts, h, k, v, s.store);
    AllFromNext(c, s, inputs, k + 1, true);
    RunStep(c, inputs, k + 1, true);
  }

  /** The engine that remembers gives input k the track of input h. */
  lemma FaithfulAnswer(c: Config, ts: seq<real>, h: nat, j: nat, k: nat, v: Feature)
    requires Missed(ts, c.window, h, j, k) && c.similarity(v, v) >= c.threshold && c.similarity(v, v) > 0.0
    ensures Run(c, Witness(ts, h, k, v)[..k + 1], false).1[k] == h + 1
  {
    var inputs := Witness(ts, h, k, v);
    var (s, ids) := Run(c, inputs[..k], false);
    NothingMatches(c, ts, h, k, v, k, false);
    FullStore(c, inputs[..k]);
    OneCandidate(c, s.store, inputs[k], h, k);
    assert s.store[..k] == s.store;
    TracksExist(c, inputs[..k], false);
    assert s.store[h] in s.store;
    RunStep(c, inputs, k + 1, false);
  }

  lemma {:induction false} TracksExist(c: Config, inputs: seq<Input>, forget: bool)
    ensures Tracked(Run(c, inputs, forget).0)
    decreases |inputs|
  {
    if inputs != [] {
      var init, i := inputs[..|inputs| - 1], inputs[|inputs| - 1];
      TracksExist(c, init, forget);
      RegisteredTracked(c, Run(c, init, forget).0, i);
      KeepMembers(Registered(c, Run(c, init, forget).0, i).0.store, Horizon(c, i.timestamp));
    }
  }

  lemma {:induction false} IdsPrefix(c: Config, inputs: seq<Input>, n: nat, k: nat, forget: bool)
    requires k < n <= |inputs|
    ensures Run(c, inputs[..n], forget).1[k] == Run(c, inputs[..k + 1], forget).1[k]
    decreases n
  {
    if k < n - 1 {
      RunStep(c, inputs, n, forget);
      IdsPrefix(c, inputs, n - 1, k, forget);
    }
  }

  /** No features whatever, seen at these times, tell the pruned engine from one that never forgets. */
  ghost predicate Invisible(c: Config, ts: seq<real>) {
    forall inputs | Timestamps(inputs) == ts :: Run(c, inputs, true).1 == Run(c, inputs, false).1
  }

  /** Pruning is invisible exactly when no query looks back to a feature that an earlier registration dropped. */
  lemma InvisibleIff(c: Config, ts: seq<real>, v: Feature)
    requires c.similarity(v, v) >= c.threshold && c.similarity(v, v) > 0.0
    ensures Invisible(c, ts) <==> NothingMissed(ts, c.window)
  {
    if NothingMissed(ts, c.window) {
      forall inputs | Timestamps(inputs) == ts ensures Run(c, inputs, true).1 == Run(c, inputs, false).1 {
        PruningIsInvisible(c, inputs);
      }
    } else {
      var h: nat, j: nat, k: nat :| h <= j < k < |ts| && Missed(ts, c.window, h, j, k);
      var inputs := Witness(ts, h, k, v);
      assert Timestamps(inputs) == ts;
      assert inputs[..|ts|] == inputs;
      ForgetfulAnswer(c, ts, h, j, k, v);
      FaithfulAnswer(c, ts, h, j, k, v);
      IdsPrefix(c, inputs, |ts|, k, true);
      IdsPrefix(c, inputs, |ts|, k, false);
    }
  }
}
