/**
 * Forgetting is invisible: a pruned store answers like one that never forgets, exactly when no late query needs what
 * was dropped.
 */
module ReIdRuns {
  import opened ReId

  // ----- the two stores -----

  /** One registration; an engine that does not forget skips the pruning. */
  function Next(c: Config, s: State, i: Input, forget: bool): (State, nat) {
    var (s', id) := Registered(c, s, i);
    (if forget then Pruned(c, s', i.timestamp) else s', id)
  }

  function Run(c: Config, inputs: seq<Input>, forget: bool): (r: (State, seq<nat>))
    ensures |r.1| == |inputs|
    decreases |inputs|
  {
    if inputs == [] then (INITIAL, [])
    else
      var (s, ids) := Run(c, inputs[..|inputs| - 1], forget);
      var (s', id) := Next(c, s, inputs[|inputs| - 1], forget);
      (s', ids + [id])
  }

  predicate Before(t: real, cutoffs: seq<real>) {
    forall k | 0 <= k < |cutoffs| :: t < cutoffs[k]
  }

  /** Entries older than cut are older than every later cutoff as well. */
  predicate Expendable(store: seq<Entry>, cut: real, cutoffs: seq<real>) {
    forall e | e in store && e.timestamp < cut :: Before(e.timestamp, cutoffs)
  }

  /** p is f without some entries, all of them older than every cutoff. */
  predicate Thinned(p: seq<Entry>, f: seq<Entry>, cutoffs: seq<real>)
    decreases |f|
  {
    if f == [] then p == []
    else
      var (init, e) := (f[..|f| - 1], f[|f| - 1]);
      || (p != [] && p[|p| - 1] == e && Thinned(p[..|p| - 1], init, cutoffs))
      || (Before(e.timestamp, cutoffs) && Thinned(p, init, cutoffs))
  }

  lemma {:induction false} ThinnedBest(c: Config, p: seq<Entry>, f: seq<Entry>, cutoffs: seq<real>, i: Input)
    requires Thinned(p, f, cutoffs) && cutoffs != [] && cutoffs[0] == i.timestamp - c.window
    ensures Best(c, p, i) == Best(c, f, i)
    decreases |f|
  {
    if f != [] {
      var init, e := f[..|f| - 1], f[|f| - 1];
      if p != [] && p[|p| - 1] == e && Thinned(p[..|p| - 1], init, cutoffs) {
        ThinnedBest(c, p[..|p| - 1], init, cutoffs, i);
      } else {
        ThinnedBest(c, p, init, cutoffs, i);
      }
    }
  }

  lemma {:induction false} ThinnedFewerCutoffs(p: seq<Entry>, f: seq<Entry>, cutoffs: seq<real>)
    requires Thinned(p, f, cutoffs) && cutoffs != []
    ensures Thinned(p, f, cutoffs[1..])
    decreases |f|
  {
    if f != [] {
      var init, e := f[..|f| - 1], f[|f| - 1];
      if p != [] && p[|p| - 1] == e && Thinned(p[..|p| - 1], init, cutoffs) {
        ThinnedFewerCutoffs(p[..|p| - 1], init, cutoffs);
      } else {
        ThinnedFewerCutoffs(p, init, cutoffs);
      }
    }
  }

  lemma ThinnedSnoc(p: seq<Entry>, f: seq<Entry>, e: Entry, cutoffs: seq<real>)
    requires Thinned(p, f, cutoffs)
    ensures Thinned(p + [e], f + [e], cutoffs)
  {
    assert (f + [e])[..|f|] == f && (p + [e])[..|p|] == p;
  }

  /** Pruning keeps the store thinned if all that it drops is older than every later cutoff. */
  lemma {:induction false} ThinnedKeep(p: seq<Entry>, f: seq<Entry>, cutoffs: seq<real>, cut: real)
    requires Thinned(p, f, cutoffs) && Expendable(f, cut, cutoffs)
    ensures Thinned(Keep(p, cut), f, cutoffs)
    decreases |f|
  {
    if f != [] {
      var init, e := f[..|f| - 1], f[|f| - 1];
      assert f == init + [e];
      if p != [] && p[|p| - 1] == e && Thinned(p[..|p| - 1], init, cutoffs) {
        ThinnedKeep(p[..|p| - 1], init, cutoffs, cut);
        var kept := Keep(p[..|p| - 1], cut);
        assert (kept + [e])[..|kept|] == kept;
      } else {
        ThinnedKeep(p, init, cutoffs, cut);
      }
    }
  }

  // ----- when a dropped entry would have been needed -----

  /** Input h is dropped when input j is registered, and input k, later still, looks back as far as h. */
  predicate Missed(ts: seq<real>, window: real, h: nat, j: nat, k: nat) {
    h <= j < k < |ts| && ts[h] < TwoBack(window, ts[j]) && !(ts[h] < ts[k] - window)
  }

  predicate NothingMissed(ts: seq<real>, window: real) {
    forall h: nat, j: nat, k: nat | h <= j < k < |ts| :: !Missed(ts, window, h, j, k)
  }

  function Timestamps(inputs: seq<Input>): seq<real> {
    seq(|inputs|, n requires 0 <= n < |inputs| => inputs[n].timestamp)
  }

  function Cutoffs(inputs: seq<Input>, from: nat, window: real): seq<real>
    requires from <= |inputs|
  {
    seq(|inputs| - from, n requires 0 <= n < |inputs| - from => inputs[from + n].timestamp - window)
  }

  /** A store that never forgets holds one entry for each input, in order, with the id that was returned. */
  predicate Complete(store: seq<Entry>, inputs: seq<Input>, ids: seq<nat>) {
    |store| == |inputs| == |ids| && forall n | 0 <= n < |inputs| ::
      store[n] == Entry(inputs[n].device, inputs[n].className, inputs[n].feature, inputs[n].timestamp, ids[n])
  }

  lemma {:induction false} FullStore(c: Config, inputs: seq<Input>)
    ensures var (s, ids) := Run(c, inputs, false); Complete(s.store, inputs, ids)
    decreases |inputs|
  {
    if inputs != [] {
      var init := inputs[..|inputs| - 1];
      FullStore(c, init);
      StoreGrows(c, Run(c, init, false).0, inputs[|inputs| - 1]);
    }
  }

  lemma StoreGrows(c: Config, s: State, i: Input)
    ensures var (s', id) := Next(c, s, i, false);
      s'.store == s.store + [Entry(i.device, i.className, i.feature, i.timestamp, id)]
  {
  }

  /** Two engines that cannot be told apart by any later query. */
  predicate Alike(p: State, f: State, cutoffs: seq<real>) {
    p.tracks == f.tracks && p.nextId == f.nextId && Thinned(p.store, f.store, cutoffs)
  }

  lemma RegisteredAlike(c: Config, p: State, f: State, i: Input, cutoffs: seq<real>)
    requires Alike(p, f, cutoffs)
    requires cutoffs != [] && cutoffs[0] == i.timestamp - c.window
    ensures var ((p', id), (f', id')) := (Registered(c, p, i), Registered(c, f, i));
      id == id' && Alike(p', f', cutoffs[1..])
  {
    ThinnedBest(c, p.store, f.store, cutoffs, i);
    ThinnedFewerCutoffs(p.store, f.store, cutoffs);
    ThinnedSnoc(p.store, f.store, Registered(c, f, i).0.store[|f.store|], cutoffs[1..]);
  }

  lemma ForgetAlike(c: Config, p: State, f: State, now: real, cutoffs: seq<real>)
    requires Alike(p, f, cutoffs) && Expendable(f.store, Horizon(c, now), cutoffs)
    ensures Alike(Pruned(c, p, now), f, cutoffs)
  {
    ThinnedKeep(p.store, f.store, cutoffs, Horizon(c, now));
  }

  lemma StepAlike(c: Config, p: State, f: State, i: Input, cutoffs: seq<real>)
    requires Alike(p, f, cutoffs)
    requires cutoffs != [] && cutoffs[0] == i.timestamp - c.window
    requires Expendable(Registered(c, f, i).0.store, Horizon(c, i.timestamp), cutoffs[1..])
    ensures Registered(c, p, i).1 == Registered(c, f, i).1
    ensures Alike(Pruned(c, Registered(c, p, i).0, i.timestamp), Registered(c, f, i).0, cutoffs[1..])
  {
    RegisteredAlike(c, p, f, i, cutoffs);
    ForgetAlike(c, Registered(c, p, i).0, Registered(c, f, i).0, i.timestamp, cutoffs[1..]);
  }

  predicate Agreed(c: Config, inputs: seq<Input>, n: nat)
    requires n <= |inputs|
  {
    var ((p, ids), (f, ids')) := (Run(c, inputs[..n], true), Run(c, inputs[..n], false));
    ids == ids' && Alike(p, f, Cutoffs(inputs, n, c.window))
  }

  lemma RunStep(c: Config, inputs: seq<Input>, n: nat, forget: bool)
    requires 0 < n <= |inputs|
    ensures var (s, ids) := Run(c, inputs[..n - 1], forget);
      var (s', id) := Next(c, s, inputs[n - 1], forget);
      Run(c, inputs[..n], forget) == (s', ids + [id])
  {
    assert inputs[..n][..n - 1] == inputs[..n - 1];
  }

  lemma StepAgrees(c: Config, inputs: seq<Input>, n: nat)
    requires 0 < n <= |inputs| && NothingMissed(Timestamps(inputs), c.window) && Agreed(c, inputs, n - 1)
    ensures Agreed(c, inputs, n)
  {
    var cutoffs := Cutoffs(inputs, n - 1, c.window);
    assert cutoffs[1..] == Cutoffs(inputs, n, c.window);
    RunStep(c, inputs, n, true);
    RunStep(c, inputs, n, false);
    DroppedIsOld(c, inputs, n);
    StepAlike(c, Run(c, inputs[..n - 1], true).0, Run(c, inputs[..n - 1], false).0, inputs[n - 1], cutoffs);
  }

  lemma {:induction false} RunsAgree(c: Config, inputs: seq<Input>, n: nat)
    requires n <= |inputs| && NothingMissed(Timestamps(inputs), c.window)
    ensures Agreed(c, inputs, n)
    decreases n
  {
    if n > 0 {
      RunsAgree(c, inputs, n - 1);
      StepAgrees(c, inputs, n);
    }
  }

  lemma DroppedIsOld(c: Config, inputs: seq<Input>, n: nat)
    requires 0 < n <= |inputs| && NothingMissed(Timestamps(inputs), c.window)
    ensures Expendable(Run(c, inputs[..n], false).0.store, Horizon(c, inputs[n - 1].timestamp),
                       Cutoffs(inputs, n, c.window))
  {
    var (f, ids) := Run(c, inputs[..n], false);
    FullStore(c, inputs[..n]);
    forall e | e in f.store && e.timestamp < Horizon(c, inputs[n - 1].timestamp)
      ensures Before(e.timestamp, Cutoffs(inputs, n, c.window))
    {
      var h: nat :| h < n && f.store[h] == e;
      OldBefore(inputs, h, n, c.window);
    }
  }

  lemma OldBefore(inputs: seq<Input>, h: nat, n: nat, window: real)
    requires h < n <= |inputs| && NothingMissed(Timestamps(inputs), window)
    requires inputs[h].timestamp < TwoBack(window, inputs[n - 1].timestamp)
    ensures Before(inputs[h].timestamp, Cutoffs(inputs, n, window))
  {
    var cutoffs := Cutoffs(inputs, n, window);
    forall k | 0 <= k < |cutoffs| ensures inputs[h].timestamp < cutoffs[k] {
      assert !Missed(Timestamps(inputs), window, h, n - 1, n + k);
    }
  }

  /** A pruned engine gives the same ids and builds the same tracks as one that never forgets. */
  lemma PruningIsInvisible(c: Config, inputs: seq<Input>)
    requires NothingMissed(Timestamps(inputs), c.window)
    ensures var ((p, ids), (f, ids')) := (Run(c, inputs, true), Run(c, inputs, false));
      ids == ids' && p.tracks == f.tracks && p.nextId == f.nextId
  {
    RunsAgree(c, inputs, |inputs|);
    assert inputs[..|inputs|] == inputs;
  }

  /** In particular when no timestamp falls more than one window behind the latest seen. */
  lemma TimelyMissesNothing(ts: seq<real>, window: real)
    requires forall i, j | 0 <= i <= j < |ts| :: ts[j] >= ts[i] - window
    ensures NothingMissed(ts, window)
  {
    forall h: nat, j: nat, k: nat | h <= j < k < |ts| ensures !Missed(ts, window, h, j, k) {
      assert ts[k] >= ts[j] - window;
    }
  }
}
