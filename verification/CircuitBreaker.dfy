/** The three-state circuit breaker and its runs. */
module CircuitBreaker {
  import opened RealSums

  datatype Mode = Closed | Open | HalfOpen

  datatype Config = Config(failureThreshold: int, recoveryTimeout: real, halfOpenMax: int)

  datatype State = State(mode: Mode, failureCount: int, lastFailureTime: real, halfOpenCalls: int)

  const INITIAL := State(Closed, 0, 0.0, 0)

  function Allowed(c: Config, s: State, now: real): (State, bool) {
    match s.mode
    case Closed => (s, true)
    case Open =>
      if now - s.lastFailureTime >= c.recoveryTimeout then (s.(mode := HalfOpen, halfOpenCalls := 1), true)
      else (s, false)
    case HalfOpen =>
      if s.halfOpenCalls < c.halfOpenMax then (s.(halfOpenCalls := s.halfOpenCalls + 1), true) else (s, false)
  }

  function Succeeded(s: State): State {
    s.(mode := if s.mode == HalfOpen then Closed else s.mode, failureCount := 0, halfOpenCalls := 0)
  }

  function Failed(c: Config, s: State, now: real): State {
    var count := s.failureCount + 1;
    s.(mode := if s.mode == HalfOpen || count >= c.failureThreshold then Open else s.mode,
       failureCount := count, lastFailureTime := now)
  }

  class CircuitBreaker {
    const config: Config
    var state: Mode
    var failureCount: int
    var lastFailureTime: real
    var halfOpenCalls: int

    constructor (config: Config)
      ensures this.config == config && Model() == INITIAL
    {
      this.config := config;
      state, failureCount, lastFailureTime, halfOpenCalls := Closed, 0, 0.0, 0;
    }

    function Model(): State
      reads this
    {
      State(state, failureCount, lastFailureTime, halfOpenCalls)
    }

    method AllowRequest(now: real) returns (allowed: bool)
      modifies this
      ensures (Model(), allowed) == Allowed(config, old(Model()), now)
    {
      if state == Closed {
        return true;
      }
      if state == Open {
        if now - lastFailureTime >= config.recoveryTimeout {
          state := HalfOpen;
          halfOpenCalls := 1;
          return true;
        }
        return false;
      }
      if halfOpenCalls < config.halfOpenMax {
        halfOpenCalls := halfOpenCalls + 1;
        return true;
      }
      return false;
    }

    method RecordSuccess()
      modifies this
      ensures Model() == Succeeded(old(Model()))
    {
      if state == HalfOpen {
        state := Closed;
      }
      failureCount := 0;
      halfOpenCalls := 0;
    }

    method RecordFailure(now: real)
      modifies this
      ensures Model() == Failed(config, old(Model()), now)
    {
      failureCount := failureCount + 1;
      lastFailureTime := now;
      if state == HalfOpen {
        state := Open;
      } else if failureCount >= config.failureThreshold {
        state := Open;
      }
    }
  }

  // ----- any run -----

  datatype Call = Allow(now: real) | Success(now: real) | Failure(now: real)

  /** One call and, for allow_request, its answer. */
  function Applied(c: Config, s: State, call: Call): (State, bool) {
    match call
    case Allow(now) => Allowed(c, s, now)
    case Success(_) => (Succeeded(s), false)
    case Failure(now) => (Failed(c, s, now), false)
  }

  /** The state after some calls and the answers to them. */
  function Run(c: Config, calls: seq<Call>): (r: (State, seq<bool>))
    ensures |r.1| == |calls|
    decreases |calls|
  {
    if calls == [] then (INITIAL, [])
    else
      var (s, answers) := Run(c, calls[..|calls| - 1]);
      var (s', answer) := Applied(c, s, calls[|calls| - 1]);
      (s', answers + [answer])
  }

  predicate ClockRuns(calls: seq<Call>) {
    forall i, j | 0 <= i <= j < |calls| :: calls[i].now <= calls[j].now
  }

  /** The time of the latest failure, if there was one. */
  function LatestFailure(calls: seq<Call>): (t: (bool, real))
    decreases |calls|
  {
    if calls == [] then (false, 0.0)
    else if calls[|calls| - 1].Failure? then (true, calls[|calls| - 1].now)
    else LatestFailure(calls[..|calls| - 1])
  }

  /** How many requests were admitted since the breaker last went half-open, counting the one that made it so. */
  function EpisodeAdmissions(c: Config, calls: seq<Call>): nat
    decreases |calls|
  {
    if calls == [] then 0
    else
      var init := calls[..|calls| - 1];
      var before, after := Run(c, init).0.mode, Run(c, calls).0.mode;
      if after != HalfOpen then 0
      else if before != HalfOpen then 1
      else EpisodeAdmissions(c, init) + if Run(c, calls).1[|calls| - 1] then 1 else 0
  }

  function AtLeastOne(n: int): int {
    if n < 1 then 1 else n
  }

  predicate RunInv(c: Config, calls: seq<Call>) {
    var s := Run(c, calls).0;
    && s.failureCount >= 0
    && (s.mode == Closed && c.failureThreshold >= 1 ==> s.failureCount < c.failureThreshold)
    && s.lastFailureTime == LatestFailure(calls).1
    && (s.mode != Closed ==> LatestFailure(calls).0)
    && (s.mode == HalfOpen ==>
          && calls != [] && calls[|calls| - 1].now - s.lastFailureTime >= c.recoveryTimeout
          && 1 <= s.halfOpenCalls == EpisodeAdmissions(c, calls) <= AtLeastOne(c.halfOpenMax))
  }

  lemma {:induction false} RunKeepsInv(c: Config, calls: seq<Call>)
    requires ClockRuns(calls)
    ensures RunInv(c, calls)
    decreases |calls|
  {
    if calls != [] {
      RunKeepsInv(c, calls[..|calls| - 1]);
    }
  }

  /**
   * While the breaker is closed fewer failures than the threshold are on record, in every run exactly if the
   * threshold is positive.
   */
  lemma ClosedBelowThresholdIff(c: Config)
    ensures (forall calls | ClockRuns(calls) ::
               var s := Run(c, calls).0; s.mode == Closed ==> s.failureCount < c.failureThreshold)
       <==> c.failureThreshold >= 1
  {
    if c.failureThreshold >= 1 {
      forall calls | ClockRuns(calls)
        ensures var s := Run(c, calls).0; s.mode == Closed ==> s.failureCount < c.failureThreshold
      {
        RunKeepsInv(c, calls);
      }
    } else {
      assert ClockRuns([]) && Run(c, []).0 == INITIAL;
    }
  }

  /** A request is admitted while not closed only once the recovery timeout has passed since the latest failure. */
  lemma AdmittedAfterRecovery(c: Config, calls: seq<Call>)
    requires calls != [] && ClockRuns(calls) && calls[|calls| - 1].Allow? && Run(c, calls).1[|calls| - 1]
    ensures var init := calls[..|calls| - 1];
      Run(c, init).0.mode != Closed ==>
        LatestFailure(init).0 && calls[|calls| - 1].now - LatestFailure(init).1 >= c.recoveryTimeout
  {
    RunKeepsInv(c, calls[..|calls| - 1]);
  }

  /** One half-open episode admits at most max(1, halfOpenMax) requests. */
  lemma EpisodesAreBounded(c: Config, calls: seq<Call>)
    requires ClockRuns(calls)
    ensures EpisodeAdmissions(c, calls) <= AtLeastOne(c.halfOpenMax)
  {
    RunKeepsInv(c, calls);
  }

  // ----- what decides, in terms of the calls alone -----

  /** How many failures were reported since the latest success. */
  function FailuresSince(calls: seq<Call>): nat
    decreases |calls|
  {
    if calls == [] then 0
    else
      match calls[|calls| - 1]
      case Success(_) => 0
      case Failure(_) => FailuresSince(calls[..|calls| - 1]) + 1
      case Allow(_) => FailuresSince(calls[..|calls| - 1])
  }

  /** In every run the count on record is that of the failures since the latest success. */
  lemma {:induction false} FailureCountIs(c: Config, calls: seq<Call>)
    ensures Run(c, calls).0.failureCount == FailuresSince(calls)
    decreases |calls|
  {
    if calls != [] {
      FailureCountIs(c, calls[..|calls| - 1]);
    }
  }

  /**
   * How a call changes the mode: a success closes a half-open breaker; a failure opens every breaker but a closed one
   * with fewer failures since the latest success than the threshold; an admission makes an open one half-open.
   */
  lemma ModeAfter(c: Config, calls: seq<Call>)
    requires calls != []
    ensures var ((s, answers), before) := (Run(c, calls), Run(c, calls[..|calls| - 1]).0.mode);
      s.mode ==
      match calls[|calls| - 1]
      case Success(_) => if before == HalfOpen then Closed else before
      case Failure(_) => if before == Closed && FailuresSince(calls) < c.failureThreshold then Closed else Open
      case Allow(_) => if before == Open && answers[|calls| - 1] then HalfOpen else before
  {
    FailureCountIs(c, calls[..|calls| - 1]);
  }

  /** A closed breaker opens exactly at the failure that is the threshold-th since the latest success. */
  lemma OpensAtThreshold(c: Config, calls: seq<Call>)
    requires c.failureThreshold >= 1 && ClockRuns(calls) && calls != []
    requires Run(c, calls[..|calls| - 1]).0.mode == Closed
    ensures Run(c, calls).0.mode == Open
       <==> calls[|calls| - 1].Failure? && FailuresSince(calls) == c.failureThreshold
  {
    ModeAfter(c, calls);
    RunKeepsInv(c, calls[..|calls| - 1]);
    FailureCountIs(c, calls[..|calls| - 1]);
  }

  /**
   * A request is admitted exactly if the breaker is closed, or it is open and the timeout has passed since the latest
   * failure, or it is half-open and the episode has admitted fewer than it may.
   */
  lemma AdmittedIff(c: Config, calls: seq<Call>)
    requires calls != [] && ClockRuns(calls) && calls[|calls| - 1].Allow?
    ensures var (init, n) := (calls[..|calls| - 1], |calls| - 1);
      Run(c, calls).1[n] <==>
      match Run(c, init).0.mode
      case Closed => true
      case Open => calls[n].now - LatestFailure(init).1 >= c.recoveryTimeout
      case HalfOpen => EpisodeAdmissions(c, init) < c.halfOpenMax
  {
    RunKeepsInv(c, calls[..|calls| - 1]);
  }

  // ----- the sequential worker: one request at a time, each admitted one reported before the next is asked for -----

  /** How an admitted request ends. Publishing a result may still fail after the success was recorded. */
  datatype Outcome = Fails | Succeeds | SucceedsThenFails

  datatype Turn = Turn(asked: real, outcome: Outcome, done: real)

  /** What the breaker is told about an admitted request. */
  function Reported(c: Config, s: State, outcome: Outcome, now: real): State {
    match outcome
    case Fails => Failed(c, s, now)
    case Succeeds => Succeeded(s)
    case SucceedsThenFails => Failed(c, Succeeded(s), now)
  }

  /** What the worker does with the breaker for one request, and whether the request was admitted. */
  function Served(c: Config, s: State, turn: Turn): (State, bool) {
    var (s', allowed) := Allowed(c, s, turn.asked);
    (if allowed then Reported(c, s', turn.outcome, turn.done) else s', allowed)
  }

  /** The breaker after some turns of the worker, and how many of them were admitted. */
  function Worked(c: Config, turns: seq<Turn>): (r: (State, nat))
    decreases |turns|
  {
    if turns == [] then (INITIAL, 0)
    else
      var (s, admitted) := Worked(c, turns[..|turns| - 1]);
      var (s', allowed) := Served(c, s, turns[|turns| - 1]);
      (s', admitted + if allowed then 1 else 0)
  }

  /** The worker never leaves the breaker half-open between two items. */
  lemma {:induction false} NeverHalfOpenBetweenItems(c: Config, turns: seq<Turn>)
    ensures Worked(c, turns).0.mode != HalfOpen
    decreases |turns|
  {
    if turns != [] {
      NeverHalfOpenBetweenItems(c, turns[..|turns| - 1]);
    }
  }

  /** So the half-open allowance makes no difference to the worker: any two values of it give the same run. */
  lemma {:induction false} AllowanceIsIrrelevant(c: Config, halfOpenMax: int, turns: seq<Turn>)
    ensures Worked(c.(halfOpenMax := halfOpenMax), turns) == Worked(c, turns)
    decreases |turns|
  {
    if turns != [] {
      AllowanceIsIrrelevant(c, halfOpenMax, turns[..|turns| - 1]);
      NeverHalfOpenBetweenItems(c, turns[..|turns| - 1]);
    }
  }

  predicate TurnsInOrder(turns: seq<Turn>) {
    && (forall i | 0 <= i < |turns| :: turns[i].asked <= turns[i].done)
    && (forall i, j | 0 <= i < j < |turns| :: turns[i].done <= turns[j].asked)
  }

  predicate AllFail(turns: seq<Turn>) {
    forall i | 0 <= i < |turns| :: turns[i].outcome == Fails
  }

  /** In an all-failing run every admission counts, and past the threshold each costs a recovery. */
  ghost predicate FailingInv(c: Config, turns: seq<Turn>, start: real) {
    var (s, admitted) := Worked(c, turns);
    && s.failureCount == admitted
    && s.mode == (if admitted < c.failureThreshold then Closed else Open)
    && (admitted > 0 ==>
          start <= s.lastFailureTime && exists i :: 0 <= i < |turns| && s.lastFailureTime == turns[i].done)
    && (admitted >= c.failureThreshold ==>
          Times(admitted - c.failureThreshold, c.recoveryTimeout) <= s.lastFailureTime - start)
  }

  lemma {:induction false} FailingRun(c: Config, turns: seq<Turn>, start: real)
    requires c.failureThreshold >= 1 && TurnsInOrder(turns) && AllFail(turns)
    requires forall i | 0 <= i < |turns| :: start <= turns[i].asked
    ensures FailingInv(c, turns, start)
    decreases |turns|
  {
    if turns != [] {
      var init, last := turns[..|turns| - 1], turns[|turns| - 1];
      FailingRun(c, init, start);
      var (s, admitted) := Worked(c, init);
      OneMoreTime(admitted - c.failureThreshold, c.recoveryTimeout);
      assert Times(0, c.recoveryTimeout) == 0.0;
      if admitted > 0 {
        var i :| 0 <= i < |init| && s.lastFailureTime == init[i].done;
        assert s.lastFailureTime == turns[i].done;
      }
    }
  }

  lemma FirstAndLast(turns: seq<Turn>, i: nat)
    requires TurnsInOrder(turns) && i < |turns|
    ensures turns[0].asked <= turns[i].asked && turns[i].done <= turns[|turns| - 1].done
  {
    assert turns[0].asked <= turns[0].done && turns[i].asked <= turns[i].done;
    assert turns[|turns| - 1].asked <= turns[|turns| - 1].done;
  }

  /** The span of a run divided into recoveries. */
  function RecoveriesIn(elapsed: real, timeout: real): real
    requires timeout > 0.0
  {
    elapsed / timeout
  }

  lemma RecoveriesFit(n: int, timeout: real, elapsed: real)
    requires timeout > 0.0 && Times(n, timeout) <= elapsed
    ensures n as real <= RecoveriesIn(elapsed, timeout)
  {
    assert elapsed / timeout * timeout == elapsed;
  }

  /** A run in which every call fails admits at most threshold + elapsed / recoveryTimeout calls. */
  lemma FailingRunsAreThrottled(c: Config, turns: seq<Turn>)
    requires c.failureThreshold >= 1 && c.recoveryTimeout > 0.0
    requires turns != [] && TurnsInOrder(turns) && AllFail(turns)
    ensures Worked(c, turns).1 as real
         <= c.failureThreshold as real + RecoveriesIn(turns[|turns| - 1].done - turns[0].asked, c.recoveryTimeout)
  {
    var start, elapsed := turns[0].asked, turns[|turns| - 1].done - turns[0].asked;
    var (s, admitted) := Worked(c, turns);
    forall i | 0 <= i < |turns|
      ensures start <= turns[i].asked
    {
      FirstAndLast(turns, i);
    }
    FailingRun(c, turns, start);
    FirstAndLast(turns, 0);
    if admitted > c.failureThreshold {
      var i :| 0 <= i < |turns| && s.lastFailureTime == turns[i].done;
      FirstAndLast(turns, i);
      RecoveriesFit(admitted - c.failureThreshold, c.recoveryTimeout, elapsed);
    } else {
      assert Times(0, c.recoveryTimeout) == 0.0;
      RecoveriesFit(0, c.recoveryTimeout, elapsed);
    }
  }
}
