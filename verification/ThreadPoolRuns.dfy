/** What every interleaving of the pool's threads keeps, and why Shutdown waits for all work. */
module ThreadPoolRuns {
  import opened ThreadPool

  // ----- tasks in the hands of workers -----

  function TaskOf(w: Worker): multiset<Task> {
    if w.Running? then multiset{w.task} else multiset{}
  }

  function Busy(workers: seq<Worker>): multiset<Task>
    decreases |workers|
  {
    if workers == [] then multiset{} else Busy(workers[..|workers| - 1]) + TaskOf(workers[|workers| - 1])
  }

  /** Everything the workers hold but worker i. */
  function BusyBut(workers: seq<Worker>, i: nat): multiset<Task>
    requires i < |workers|
    decreases |workers|
  {
    var n := |workers| - 1;
    if i == n then Busy(workers[..n]) else BusyBut(workers[..n], i) + TaskOf(workers[n])
  }

  lemma Regroup(a: multiset<Task>, b: multiset<Task>, c: multiset<Task>)
    ensures (a + b) + c == (a + c) + b
  {
  }

  lemma {:induction false} BusyUpdate(workers: seq<Worker>, i: nat, w: Worker)
    requires i < |workers|
    ensures Busy(workers[i := w]) == BusyBut(workers, i) + TaskOf(w)
    decreases |workers|
  {
    var n := |workers| - 1;
    if i < n {
      assert workers[i := w][..n] == workers[..n][i := w];
      calc {
        Busy(workers[i := w]);
        Busy(workers[..n][i := w]) + TaskOf(workers[n]);
        { BusyUpdate(workers[..n], i, w); }
        (BusyBut(workers[..n], i) + TaskOf(w)) + TaskOf(workers[n]);
        { Regroup(BusyBut(workers[..n], i), TaskOf(w), TaskOf(workers[n])); }
        BusyBut(workers, i) + TaskOf(w);
      }
    } else {
      assert workers[i := w][..n] == workers[..n];
    }
  }

  lemma BusySplit(workers: seq<Worker>, i: nat)
    requires i < |workers|
    ensures Busy(workers) == BusyBut(workers, i) + TaskOf(workers[i])
  {
    BusyUpdate(workers, i, workers[i]);
    assert workers[i := workers[i]] == workers;
  }

  lemma {:induction false} BusyWakeAll(workers: seq<Worker>)
    ensures Busy(WakeAll(workers)) == Busy(workers)
    decreases |workers|
  {
    if workers != [] {
      var n := |workers| - 1;
      BusyWakeAll(workers[..n]);
      assert WakeAll(workers)[..n] == WakeAll(workers[..n]);
      assert TaskOf(WakeAll(workers)[n]) == TaskOf(workers[n]);
    }
  }

  lemma {:induction false} NobodyBusy(workers: seq<Worker>)
    requires forall i | 0 <= i < |workers| :: !workers[i].Running?
    ensures Busy(workers) == multiset{}
    decreases |workers|
  {
    if workers != [] {
      NobodyBusy(workers[..|workers| - 1]);
    }
  }

  // ----- the invariant -----

  /**
   * Every accepted task was started, in submit order, or still waits; every started one is running or was finished
   * once.
   */
  predicate TasksKept(s: State) {
    s.started + s.shared.tasks == s.accepted && multiset(s.started) == s.finished + Busy(s.workers)
  }

  predicate WithinCapacity(s: State) {
    s.maxQueueSize > 0 ==> |s.shared.tasks| <= s.maxQueueSize
  }

  predicate Awake(w: Worker) {
    w.Looking? || w.Running?
  }

  predicate SomeAwake(s: State) {
    exists i :: 0 <= i < |s.workers| && Awake(s.workers[i])
  }

  /** No wake-up is lost: while a task waits, a worker is awake or a notification is on its way. */
  predicate NoLostWakeup(s: State) {
    s.shared.tasks != [] ==> s.pending > 0 || SomeAwake(s)
  }

  predicate Phases(s: State) {
    && (s.shared.stop <==> s.shutdown != NotCalled)
    && (forall i | 0 <= i < |s.workers| :: s.workers[i] == Exited ==> s.shared.stop && s.shared.tasks == [])
    && (s.shutdown in {Joining, Returned} ==> !SomeSleeping(s))
    && (s.shutdown == Returned ==> AllExited(s))
  }

  predicate Inv(s: State) {
    |s.workers| > 0 && TasksKept(s) && WithinCapacity(s) && NoLostWakeup(s) && Phases(s)
  }

  lemma InitialInv(workers: nat, maxQueueSize: nat)
    requires workers > 0
    ensures Inv(Initial(workers, maxQueueSize))
  {
    var s := Initial(workers, maxQueueSize);
    NobodyBusy(s.workers);
  }

  lemma SameHands(s: State, s': State, i: nat, w: Worker)
    requires TasksKept(s) && i < |s.workers| && TaskOf(s.workers[i]) == TaskOf(w)
    requires s'.started == s.started && s'.shared.tasks == s.shared.tasks && s'.accepted == s.accepted
    requires s'.finished == s.finished && s'.workers == s.workers[i := w]
    ensures TasksKept(s')
  {
    BusySplit(s.workers, i);
    BusyUpdate(s.workers, i, w);
  }

  lemma MoveFirst(started: seq<Task>, tasks: seq<Task>)
    requires tasks != []
    ensures started + [tasks[0]] + tasks[1..] == started + tasks
    ensures multiset(started + [tasks[0]]) == multiset(started) + multiset{tasks[0]}
  {
    assert tasks == [tasks[0]] + tasks[1..];
  }

  lemma TakeKeeps(s: State, i: nat)
    requires TasksKept(s) && i < |s.workers| && s.workers[i] == Looking && s.shared.tasks != []
    ensures TasksKept(Apply(s, Look(i)))
  {
    var task, s', others := s.shared.tasks[0], Apply(s, Look(i)), BusyBut(s.workers, i);
    MoveFirst(s.started, s.shared.tasks);
    calc {
      multiset(s'.started);
      multiset(s.started) + multiset{task};
      (s.finished + Busy(s.workers)) + multiset{task};
      { BusySplit(s.workers, i); }
      (s.finished + (others + multiset{})) + multiset{task};
      { AddBag(s.finished, others, task); }
      s.finished + (others + TaskOf(Running(task)));
      { BusyUpdate(s.workers, i, Running(task)); }
      s'.finished + Busy(s'.workers);
    }
  }

  lemma AddBag(a: multiset<Task>, b: multiset<Task>, task: Task)
    ensures (a + (b + multiset{})) + multiset{task} == a + (b + multiset{task})
  {
  }

  lemma LookKeeps(s: State, i: nat)
    requires TasksKept(s) && Enabled(s, Look(i))
    ensures TasksKept(Apply(s, Look(i)))
  {
    if s.shared.tasks != [] {
      TakeKeeps(s, i);
    } else {
      SameHands(s, Apply(s, Look(i)), i, Apply(s, Look(i)).workers[i]);
    }
  }

  lemma FinishKeeps(s: State, i: nat)
    requires TasksKept(s) && Enabled(s, Finish(i))
    ensures TasksKept(Apply(s, Finish(i)))
  {
    BusySplit(s.workers, i);
    BusyUpdate(s.workers, i, Looking);
  }

  lemma ApplyTasksKept(s: State, step: Step)
    requires TasksKept(s) && Enabled(s, step)
    ensures TasksKept(Apply(s, step))
  {
    match step
    case Submit(_) =>
    case Notify(i) =>
      if SomeSleeping(s) {
        SameHands(s, Apply(s, step), i, Looking);
      }
    case Look(i) =>
      LookKeeps(s, i);
    case WakeSpuriously(i) =>
      SameHands(s, Apply(s, step), i, Looking);
    case Finish(i) =>
      FinishKeeps(s, i);
    case CallShutdown =>
    case NotifyAll =>
      BusyWakeAll(s.workers);
    case Join =>
  }

  lemma ApplyNoLostWakeup(s: State, step: Step)
    requires Inv(s) && Enabled(s, step)
    ensures NoLostWakeup(Apply(s, step))
  {
    var s' := Apply(s, step);
    if s'.shared.tasks != [] {
      match step
      case Notify(i) =>
        if SomeSleeping(s) {
          assert Awake(s'.workers[i]);
        } else {
          assert Awake(s'.workers[0]);
        }
      case Look(i) =>
        assert Awake(s'.workers[i]);
      case WakeSpuriously(i) =>
        assert Awake(s'.workers[i]);
      case Finish(i) =>
        assert Awake(s'.workers[i]);
      case NotifyAll =>
        assert Awake(s'.workers[0]);
      case _ =>
    }
  }

  lemma ApplyPhases(s: State, step: Step)
    requires Phases(s) && Enabled(s, step)
    ensures Phases(Apply(s, step))
  {
  }

  lemma ApplyInv(s: State, step: Step)
    requires Inv(s) && Enabled(s, step)
    ensures Inv(Apply(s, step))
  {
    ApplyTasksKept(s, step);
    ApplyCapacity(s, step);
    ApplyNoLostWakeup(s, step);
    ApplyPhases(s, step);
  }

  lemma ApplyCapacity(s: State, step: Step)
    requires WithinCapacity(s) && Enabled(s, step)
    ensures WithinCapacity(Apply(s, step)) && |Apply(s, step).workers| == |s.workers|
  {
  }

  /** Every interleaving keeps the invariant. */
  lemma {:induction false} RunInv(s: State, steps: seq<Step>)
    requires Inv(s) && Possible(s, steps)
    ensures Inv(Run(s, steps))
    decreases |steps|
  {
    if steps != [] {
      ApplyInv(s, steps[0]);
      RunInv(Apply(s, steps[0]), steps[1..]);
    }
  }

  // ----- shutdown -----

  /** When the first Shutdown returns every accepted task has run to its end, exactly once. */
  lemma ShutdownWaitsForAllTasks(workers: nat, maxQueueSize: nat, steps: seq<Step>)
    requires workers > 0 && Possible(Initial(workers, maxQueueSize), steps)
    ensures var s := Run(Initial(workers, maxQueueSize), steps);
      s.shutdown == Returned ==> s.started == s.accepted && s.finished == multiset(s.accepted)
  {
    var s := Run(Initial(workers, maxQueueSize), steps);
    InitialInv(workers, maxQueueSize);
    RunInv(Initial(workers, maxQueueSize), steps);
    if s.shutdown == Returned {
      assert s.workers[0] == Exited;
      NobodyBusy(s.workers);
    }
  }

  /** Tasks are dequeued in submit order. */
  lemma StartedInSubmitOrder(workers: nat, maxQueueSize: nat, steps: seq<Step>)
    requires workers > 0 && Possible(Initial(workers, maxQueueSize), steps)
    ensures var s := Run(Initial(workers, maxQueueSize), steps);
      s.started <= s.accepted && (maxQueueSize > 0 ==> |s.accepted| - |s.started| <= maxQueueSize)
  {
    InitialInv(workers, maxQueueSize);
    RunInv(Initial(workers, maxQueueSize), steps);
    RunKeepsCapacity(Initial(workers, maxQueueSize), steps);
  }

  lemma {:induction false} RunKeepsCapacity(s: State, steps: seq<Step>)
    requires Possible(s, steps)
    ensures Run(s, steps).maxQueueSize == s.maxQueueSize && |Run(s, steps).workers| == |s.workers|
    decreases |steps|
  {
    if steps != [] {
      RunKeepsCapacity(Apply(s, steps[0]), steps[1..]);
    }
  }

  function Rank(w: Worker): nat {
    match w
    case Looking => 1
    case Sleeping => 2
    case Running(_) => 2
    case Exited => 0
  }

  function Work(workers: seq<Worker>): nat
    decreases |workers|
  {
    if workers == [] then 0 else Work(workers[..|workers| - 1]) + Rank(workers[|workers| - 1])
  }

  lemma {:induction false} WorkUpdate(workers: seq<Worker>, i: nat, w: Worker)
    requires i < |workers|
    ensures Work(workers[i := w]) + Rank(workers[i]) == Work(workers) + Rank(w)
    decreases |workers|
  {
    var n := |workers| - 1;
    if i < n {
      WorkUpdate(workers[..n], i, w);
      assert workers[i := w][..n] == workers[..n][i := w];
    } else {
      assert workers[i := w][..n] == workers[..n];
    }
  }

  lemma {:induction false} WorkWakeAll(workers: seq<Worker>)
    ensures Work(WakeAll(workers)) <= Work(workers)
    decreases |workers|
  {
    if workers != [] {
      var n := |workers| - 1;
      WorkWakeAll(workers[..n]);
      assert WakeAll(workers)[..n] == WakeAll(workers[..n]);
    }
  }

  function StepsOfShutdown(p: Shutdown): nat {
    match p
    case NotCalled => 3
    case Stopping => 2
    case Joining => 1
    case Returned => 0
  }

  /** What is left to do once the pool is stopped. */
  function Remaining(s: State): nat {
    3 * |s.shared.tasks| + Work(s.workers) + s.pending + StepsOfShutdown(s.shutdown)
  }

  /** A worker that looks at a stopped pool takes a task or leaves; it never goes to sleep. */
  lemma LookWindsDown(s: State, i: nat)
    requires s.shared.stop && Enabled(s, Look(i))
    ensures Remaining(Apply(s, Look(i))) < Remaining(s)
  {
    WorkUpdate(s.workers, i, Apply(s, Look(i)).workers[i]);
  }

  /** From the stop on each step leaves less to do, but for refused calls, which leave the state alone. */
  lemma StoppedPoolWindsDown(s: State, step: Step)
    requires Inv(s) && s.shared.stop && Enabled(s, step)
    ensures Apply(s, step) == s || Remaining(Apply(s, step)) < Remaining(s)
  {
    match step
    case Notify(i) =>
      if SomeSleeping(s) {
        WorkUpdate(s.workers, i, Looking);
      }
    case Look(i) =>
      LookWindsDown(s, i);
    case WakeSpuriously(i) =>
      WorkUpdate(s.workers, i, Looking);
    case Finish(i) =>
      WorkUpdate(s.workers, i, Looking);
    case NotifyAll =>
      WorkWakeAll(s.workers);
    case _ =>
  }

  /** Every step of the run changes something. */
  predicate Effective(s: State, steps: seq<Step>)
    requires Possible(s, steps)
    decreases |steps|
  {
    steps == [] || (Apply(s, steps[0]) != s && Effective(Apply(s, steps[0]), steps[1..]))
  }

  /** So a stopped pool makes no more steps than it has work. */
  lemma {:induction false} StoppedRunsAreBounded(s: State, steps: seq<Step>)
    requires Inv(s) && s.shared.stop && Possible(s, steps) && Effective(s, steps)
    ensures |steps| + Remaining(Run(s, steps)) <= Remaining(s)
    decreases |steps|
  {
    if steps != [] {
      StoppedPoolWindsDown(s, steps[0]);
      ApplyInv(s, steps[0]);
      StoppedRunsAreBounded(Apply(s, steps[0]), steps[1..]);
    }
  }

  /** Until the first Shutdown has returned a stopped pool can make a step, so its longest runs end with the return. */
  lemma StoppedPoolIsNeverStuck(s: State)
    requires Inv(s) && s.shared.stop && s.shutdown != Returned
    ensures exists step :: Enabled(s, step) && Apply(s, step) != s
  {
    if s.shutdown == Stopping {
      assert Enabled(s, NotifyAll) && Apply(s, NotifyAll).shutdown == Joining;
    } else if AllExited(s) {
      assert Enabled(s, Join) && Apply(s, Join).shutdown == Returned;
    } else {
      var i :| 0 <= i < |s.workers| && s.workers[i] != Exited;
      assert s.workers[i] != Sleeping;
      var step := if s.workers[i] == Looking then Look(i) else Finish(i);
      assert Enabled(s, step) && Apply(s, step).workers[i] != s.workers[i];
    }
  }

  /** While tasks wait the pool is never stuck either. */
  lemma WaitingTasksMakeProgress(s: State)
    requires Inv(s) && s.shared.tasks != []
    ensures exists i: nat :: Enabled(s, Look(i)) || Enabled(s, Finish(i)) || Enabled(s, Notify(i))
  {
    if SomeAwake(s) {
      var i :| 0 <= i < |s.workers| && Awake(s.workers[i]);
      assert Enabled(s, Look(i)) || Enabled(s, Finish(i));
    } else if SomeSleeping(s) {
      var i :| 0 <= i < |s.workers| && s.workers[i] == Sleeping;
      assert Enabled(s, Notify(i));
    } else {
      assert Enabled(s, Notify(0));
    }
  }

  /**
   * In every run of a pool with a worker a task is accepted exactly if shutdown was not called and the queue has a
   * place: fewer accepted tasks than it may hold have not been started.
   */
  lemma SubmitAcceptedIff(workers: nat, maxQueueSize: nat, steps: seq<Step>, task: Task)
    requires workers > 0 && Possible(Initial(workers, maxQueueSize), steps)
    ensures var s := Run(Initial(workers, maxQueueSize), steps);
      Apply(s, Submit(task)).accepted
      == if s.shutdown == NotCalled && (maxQueueSize == 0 || |s.accepted| - |s.started| < maxQueueSize)
         then s.accepted + [task] else s.accepted
  {
    var s0 := Initial(workers, maxQueueSize);
    InitialInv(workers, maxQueueSize);
    RunInv(s0, steps);
    RunKeepsCapacity(s0, steps);
    var s := Run(s0, steps);
    assert |s.accepted| == |s.started| + |s.shared.tasks|;
  }

  // ----- a pool without workers -----

  /** A pool of no workers runs nothing, whatever is submitted to it. */
  lemma {:induction false} NobodyStarts(s: State, steps: seq<Step>)
    requires s.workers == [] && Possible(s, steps)
    ensures var s' := Run(s, steps); s'.workers == [] && s'.started == s.started && s'.finished == s.finished
    decreases |steps|
  {
    if steps != [] {
      NobodyStarts(Apply(s, steps[0]), steps[1..]);
    }
  }

  /** Shutdown waits for all accepted work in every run exactly when the pool has a worker. */
  lemma ShutdownWaitsIff(workers: nat, maxQueueSize: nat)
    ensures (forall steps | Possible(Initial(workers, maxQueueSize), steps) ::
               var s := Run(Initial(workers, maxQueueSize), steps);
               s.shutdown == Returned ==> s.finished == multiset(s.accepted))
       <==> workers > 0
  {
    if workers > 0 {
      forall steps | Possible(Initial(workers, maxQueueSize), steps)
        ensures var s := Run(Initial(workers, maxQueueSize), steps);
          s.shutdown == Returned ==> s.finished == multiset(s.accepted)
      {
        ShutdownWaitsForAllTasks(workers, maxQueueSize, steps);
      }
    } else {
      var s := AbandonedTask(maxQueueSize);
    }
  }

  /** Submit, Shutdown, join nobody: what was submitted is left in the queue. */
  lemma AbandonedTask(maxQueueSize: nat) returns (steps: seq<Step>)
    ensures Possible(Initial(0, maxQueueSize), steps)
    ensures var s := Run(Initial(0, maxQueueSize), steps);
      s.shutdown == Returned && s.accepted == [7] && s.finished == multiset{}
  {
    var s0 := Initial(0, maxQueueSize);
    var s1 := Apply(s0, Submit(7));
    var s2 := Apply(s1, CallShutdown);
    var s3 := Apply(s2, NotifyAll);
    steps := [Submit(7), CallShutdown, NotifyAll, Join];
    assert steps[1..] == [CallShutdown, NotifyAll, Join];
    assert steps[1..][1..] == [NotifyAll, Join];
    assert steps[1..][1..][1..] == [Join];
    assert Possible(s3, [Join]) && Possible(s2, [NotifyAll, Join]) && Possible(s1, [CallShutdown, NotifyAll, Join]);
  }
}
