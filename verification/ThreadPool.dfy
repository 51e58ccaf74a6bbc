/** The worker pool: a queue, a condition variable, and any interleaving of the threads around them. */
module ThreadPool {

  type Task = nat

  // ----- the critical sections -----

  /** What the mutex guards. */
  datatype Shared = Shared(tasks: seq<Task>, stop: bool)

  datatype Outcome = Accepted | Stopped | QueueFull

  function Submitted(s: Shared, maxQueueSize: nat, task: Task): (Shared, Outcome) {
    if s.stop then (s, Stopped)
    else if maxQueueSize > 0 && |s.tasks| >= maxQueueSize then (s, QueueFull)
    else (s.(tasks := s.tasks + [task]), Accepted)
  }

  /** What a worker that holds the mutex does next. */
  datatype Decision = Sleep | Exit | Take(task: Task)

  function Decided(s: Shared): (Shared, Decision) {
    if !(s.stop || s.tasks != []) then (s, Sleep)
    else if s.stop && s.tasks == [] then (s, Exit)
    else (s.(tasks := s.tasks[1..]), Take(s.tasks[0]))
  }

  class ThreadPool {
    const maxQueueSize: nat
    var tasks: seq<Task>
    var stop: bool

    constructor (maxQueueSize: nat)
      ensures this.maxQueueSize == maxQueueSize && Guarded() == Shared([], false)
    {
      this.maxQueueSize := maxQueueSize;
      tasks, stop := [], false;
    }

    function Guarded(): Shared
      reads this
    {
      Shared(tasks, stop)
    }

    /** Submit while it holds the mutex; the notification comes after it lets go. */
    method Submit(task: Task) returns (outcome: Outcome)
      modifies this
      ensures (Guarded(), outcome) == Submitted(old(Guarded()), maxQueueSize, task)
    {
      if stop {
        return Stopped;
      }
      if maxQueueSize > 0 && |tasks| >= maxQueueSize {
        return QueueFull;
      }
      tasks := tasks + [task];
      return Accepted;
    }

    /** One turn of a worker's loop while it holds the mutex. */
    method WorkerTurn() returns (decision: Decision)
      modifies this
      ensures (Guarded(), decision) == Decided(old(Guarded()))
    {
      if !(stop || tasks != []) {
        return Sleep;
      }
      if stop && tasks == [] {
        return Exit;
      }
      var task := tasks[0];
      tasks := tasks[1..];
      return Take(task);
    }

    /** Shutdown while it holds the mutex; only the first caller goes on to notify and join. */
    method BeginShutdown() returns (first: bool)
      modifies this
      ensures first == !old(stop) && Guarded() == old(Guarded()).(stop := true)
    {
      if stop {
        return false;
      }
      stop := true;
      return true;
    }

    method PendingTasks() returns (n: nat)
      ensures n == |tasks|
    {
      n := |tasks|;
    }
  }

  // ----- the threads -----

  /** A worker is about to look at the queue, waits on the condition variable, runs a task, or has returned. */
  datatype Worker = Looking | Sleeping | Running(task: Task) | Exited

  /** How far the first Shutdown has come. */
  datatype Shutdown = NotCalled | Stopping | Joining | Returned

  /** pending counts the submitters that have pushed but not notified yet; the last three record the run. */
  datatype State = State(
    shared: Shared,
    maxQueueSize: nat,
    workers: seq<Worker>,
    pending: nat,
    shutdown: Shutdown,
    accepted: seq<Task>,
    started: seq<Task>,
    finished: multiset<Task>)

  function Initial(workers: nat, maxQueueSize: nat): State {
    State(Shared([], false), maxQueueSize, seq(workers, i => Looking), 0, NotCalled, [], [], multiset{})
  }

  datatype Step =
    | Submit(task: Task)
    | Notify(worker: nat)
    | Look(worker: nat)
    | WakeSpuriously(worker: nat)
    | Finish(worker: nat)
    | CallShutdown
    | NotifyAll
    | Join

  predicate SomeSleeping(s: State) {
    exists i :: 0 <= i < |s.workers| && s.workers[i] == Sleeping
  }

  predicate AllExited(s: State) {
    forall i | 0 <= i < |s.workers| :: s.workers[i] == Exited
  }

  predicate IsWorker(s: State, i: nat, w: Worker) {
    i < |s.workers| && s.workers[i] == w
  }

  /** notify_one wakes one of the sleepers if there are any; a join returns once the worker has. */
  predicate Enabled(s: State, step: Step) {
    match step
    case Submit(_) => true
    case Notify(i) => s.pending > 0 && (SomeSleeping(s) ==> IsWorker(s, i, Sleeping))
    case Look(i) => IsWorker(s, i, Looking)
    case WakeSpuriously(i) => IsWorker(s, i, Sleeping)
    case Finish(i) => i < |s.workers| && s.workers[i].Running?
    case CallShutdown => true
    case NotifyAll => s.shutdown == Stopping
    case Join => s.shutdown == Joining && AllExited(s)
  }

  function WakeAll(workers: seq<Worker>): (r: seq<Worker>)
    ensures |r| == |workers|
  {
    seq(|workers|, i requires 0 <= i < |workers| => if workers[i] == Sleeping then Looking else workers[i])
  }

  function Apply(s: State, step: Step): State
    requires Enabled(s, step)
  {
    match step
    case Submit(task) =>
      var (shared, outcome) := Submitted(s.shared, s.maxQueueSize, task);
      if outcome == Accepted then s.(shared := shared, pending := s.pending + 1, accepted := s.accepted + [task]) else s
    case Notify(i) =>
      var s' := s.(pending := s.pending - 1);
      if SomeSleeping(s) then s'.(workers := s.workers[i := Looking]) else s'
    case Look(i) =>
      var (shared, decision) := Decided(s.shared);
      (match decision
       case Sleep => s.(workers := s.workers[i := Sleeping])
       case Exit => s.(workers := s.workers[i := Exited])
       case Take(task) =>
         s.(shared := shared, workers := s.workers[i := Running(task)], started := s.started + [task]))
    case WakeSpuriously(i) => s.(workers := s.workers[i := Looking])
    case Finish(i) =>
      s.(workers := s.workers[i := Looking], finished := s.finished + multiset{s.workers[i].task})
    case CallShutdown =>
      if s.shared.stop then s else s.(shared := s.shared.(stop := true), shutdown := Stopping)
    case NotifyAll => s.(workers := WakeAll(s.workers), shutdown := Joining)
    case Join => s.(shutdown := Returned)
  }

  predicate Possible(s: State, steps: seq<Step>)
    decreases |steps|
  {
    steps == [] || (Enabled(s, steps[0]) && Possible(Apply(s, steps[0]), steps[1..]))
  }

  function Run(s: State, steps: seq<Step>): State
    requires Possible(s, steps)
    decreases |steps|
  {
    if steps == [] then s else Run(Apply(s, steps[0]), steps[1..])
  }
}
