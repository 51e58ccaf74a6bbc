/** The VLM worker among its producers and its shutdown: any interleaving at the points where a coroutine waits. */
module VlmRuns {
  import CB = CircuitBreaker
  import opened Text
  import opened VlmPipeline

  datatype Config = Config(maxSize: int, batchMaxSize: int, canBatch: bool, breaker: CB.Config)

  /**
   * Where the worker waits, with its local variables; Turning is the one place where it does not wait. An item that is
   * delivering has been published, and its upload or its guidance commands are awaited.
   */
  datatype Worker =
    | Idle
    | Gathering(batch: seq<Request>)
    | Inferring(batch: seq<Request>)
    | Turning(batch: seq<Request>, next: nat, results: Option<seq<string>>)
    | Analyzing(batch: seq<Request>, next: nat, results: Option<seq<string>>)
    | Delivering(batch: seq<Request>, next: nat, results: Option<seq<string>>, text: string)
    | Ended(abandoned: seq<Request>)

  /**
   * The gate is open; or shutdown waits for the queue to be joined, and it has been or not; or the worker is
   * cancelled.
   */
  datatype Phase = Open | Draining(joined: bool) | Closed

  datatype State = State(queue: seq<Request>, unfinished: int, worker: Worker, breaker: CB.State, phase: Phase,
                         accepted: seq<Request>, settled: seq<Settlement>)

  const INITIAL := State([], 0, Idle, CB.INITIAL, Open, [], [])

  datatype Step =
    | Offer(r: Request)
    | Get
    | GetMore
    | Timeout
    | InferenceDone(inferred: Option<seq<string>>)
    | Ask(now: real)
    | Finish(outcome: CB.Outcome, ownAnswer: string, now: real)
    | Publish(ownAnswer: string, now: real)
    | Delivered
    | BeginShutdown
    | DrainDone
    | DrainTimeout

  predicate Enabled(s: State, step: Step) {
    match step
    case Offer(_) => true
    case Get => s.worker == Idle && s.queue != []
    case GetMore => s.worker.Gathering? && s.queue != []
    case Timeout => s.worker.Gathering?
    case InferenceDone(_) => s.worker.Inferring?
    case Ask(_) => s.worker.Turning? && s.worker.next < |s.worker.batch|
    case Finish(_, _, _) => s.worker.Analyzing? && s.worker.next < |s.worker.batch|
    case Publish(_, _) => s.worker.Analyzing? && s.worker.next < |s.worker.batch|
    case Delivered => s.worker.Delivering? && s.worker.next < |s.worker.batch|
    case BeginShutdown => s.phase == Open && !s.worker.Turning?
    case DrainDone => s.phase == Draining(true) && !s.worker.Turning?
    case DrainTimeout => s.phase.Draining? && !s.worker.Turning?
  }

  /** A batch that stops growing goes to batch inference if there is such a thing and it has more than one item. */
  function Start(c: Config, batch: seq<Request>): Worker {
    if c.canBatch && |batch| > 1 then Inferring(batch) else Turning(batch, 0, None)
  }

  function Gathered(c: Config, batch: seq<Request>): Worker {
    if |batch| < c.batchMaxSize then Gathering(batch) else Start(c, batch)
  }

  function Onward(batch: seq<Request>, next: nat, results: Option<seq<string>>): Worker {
    if next < |batch| then Turning(batch, next, results) else Idle
  }

  /** task_done; when it leaves nothing unfinished it wakes who waits in join. */
  function Settle(s: State, r: Request, fate: Fate): State {
    s.(unfinished := s.unfinished - 1,
       settled := s.settled + [Settlement(r, fate)],
       phase := if s.phase.Draining? && s.unfinished == 1 then Draining(true) else s.phase)
  }

  /** What of its batch the worker has not settled. */
  function Left(w: Worker): seq<Request> {
    match w
    case Idle => []
    case Gathering(batch) => batch
    case Inferring(batch) => batch
    case Turning(batch, next, _) => if next <= |batch| then batch[next..] else []
    case Analyzing(batch, next, _) => if next <= |batch| then batch[next..] else []
    case Delivering(batch, next, _, _) => if next <= |batch| then batch[next..] else []
    case Ended(abandoned) => abandoned
  }

  /** An item that is cancelled after its publication counts as analysed. */
  function CancelledFate(w: Worker): Fate {
    if w.Delivering? then Analysed(w.text) else Interrupted
  }

  /**
   * The worker is cancelled where it waits: an item under analysis or delivery is still settled on the way out, the
   * others are not.
   */
  function Cancelled(s: State): State {
    if (s.worker.Analyzing? || s.worker.Delivering?) && s.worker.next < |s.worker.batch| then
      Settle(s, s.worker.batch[s.worker.next], CancelledFate(s.worker))
        .(worker := Ended(s.worker.batch[s.worker.next + 1..]), phase := Closed)
    else s.(worker := Ended(Left(s.worker)), phase := Closed)
  }

  function InboxOf(s: State): Inbox {
    Inbox(s.queue, s.accepted)
  }

  /** Each request that was accepted is one more unfinished. */
  function WithInbox(s: State, inbox: Inbox): State {
    s.(queue := inbox.queue, accepted := inbox.accepted, unfinished := s.unfinished + |inbox.accepted| - |s.accepted|)
  }

  function Apply(c: Config, s: State, step: Step): State
    requires Enabled(s, step)
  {
    match step
    case Offer(r) =>
      WithInbox(s, Offered(s.phase != Open, c.maxSize, InboxOf(s), r))
    case Get => s.(queue := s.queue[1..], worker := Gathered(c, [s.queue[0]]))
    case GetMore => s.(queue := s.queue[1..], worker := Gathered(c, s.worker.batch + [s.queue[0]]))
    case Timeout => s.(worker := Start(c, s.worker.batch))
    case InferenceDone(inferred) => s.(worker := Onward(s.worker.batch, 0, inferred))
    case Ask(now) =>
      var (batch, next, results) := (s.worker.batch, s.worker.next, s.worker.results);
      var (b, allowed) := CB.Allowed(c.breaker, s.breaker, now);
      if allowed then s.(breaker := b, worker := Analyzing(batch, next, results))
      else Settle(s, batch[next], Skipped).(breaker := b, worker := Onward(batch, next + 1, results))
    case Finish(outcome, ownAnswer, now) =>
      var (batch, next, results) := (s.worker.batch, s.worker.next, s.worker.results);
      Settle(s, batch[next], FateOf(true, outcome, ResultFor(results, next, ownAnswer)))
        .(breaker := CB.Reported(c.breaker, s.breaker, outcome, now), worker := Onward(batch, next + 1, results))
    case Publish(ownAnswer, now) =>
      var (batch, next, results) := (s.worker.batch, s.worker.next, s.worker.results);
      s.(breaker := CB.Reported(c.breaker, s.breaker, CB.Succeeds, now),
         worker := Delivering(batch, next, results, Shown(ResultFor(results, next, ownAnswer))))
    case Delivered =>
      var (batch, next, results) := (s.worker.batch, s.worker.next, s.worker.results);
      Settle(s, batch[next], Analysed(s.worker.text)).(worker := Onward(batch, next + 1, results))
    case BeginShutdown => if s.queue == [] then Cancelled(s) else s.(phase := Draining(s.unfinished == 0))
    case DrainDone => Cancelled(s)
    case DrainTimeout => Cancelled(s)
  }

  predicate Possible(c: Config, s: State, steps: seq<Step>)
    decreases |steps|
  {
    steps == [] || (Enabled(s, steps[0]) && Possible(c, Apply(c, s, steps[0]), steps[1..]))
  }

  function Run(c: Config, s: State, steps: seq<Step>): State
    requires Possible(c, s, steps)
    decreases |steps|
  {
    if steps == [] then s else Run(c, Apply(c, s, steps[0]), steps[1..])
  }

  // ----- what every step keeps -----

  function Requests(settled: seq<Settlement>): (r: seq<Request>)
    ensures |r| == |settled|
  {
    seq(|settled|, i requires 0 <= i < |settled| => settled[i].request)
  }

  predicate WorkerOk(c: Config, w: Worker) {
    match w
    case Idle => true
    case Gathering(batch) => 1 <= |batch| < c.batchMaxSize
    case Inferring(batch) => 1 < |batch| <= CB.AtLeastOne(c.batchMaxSize)
    case Turning(batch, next, _) => next < |batch| <= CB.AtLeastOne(c.batchMaxSize)
    case Analyzing(batch, next, _) => next < |batch| <= CB.AtLeastOne(c.batchMaxSize)
    case Delivering(batch, next, _, _) => next < |batch| <= CB.AtLeastOne(c.batchMaxSize)
    case Ended(_) => true
  }

  /** Every request accepted is settled, held by the worker, or queued, in this order, the one they were accepted in. */
  predicate Accounted(s: State) {
    && s.accepted == Requests(s.settled) + (Left(s.worker) + s.queue)
    && s.unfinished == |Left(s.worker)| + |s.queue|
  }

  predicate Inv(c: Config, s: State) {
    && Accounted(s)
    && WorkerOk(c, s.worker)
    && (c.maxSize > 0 ==> |s.queue| <= c.maxSize)
    && (s.phase == Draining(true) ==> s.unfinished == 0)
    && (s.phase == Closed <==> s.worker.Ended?)
    && (s.breaker.mode == CB.HalfOpen ==> s.worker.Analyzing? || s.worker.Ended?)
  }

  lemma SettleAccounts(settled: seq<Settlement>, r: Request, fate: Fate, rest: seq<Request>)
    ensures Requests(settled + [Settlement(r, fate)]) + rest == Requests(settled) + ([r] + rest)
  {
  }

  lemma TakeOne(taken: seq<Request>, queue: seq<Request>)
    requires queue != []
    ensures taken + queue == taken + [queue[0]] + queue[1..]
  {
  }

  lemma OneSettled(batch: seq<Request>, next: nat, queue: seq<Request>)
    requires next < |batch|
    ensures batch[next..] + queue == [batch[next]] + (batch[next + 1..] + queue)
  {
  }

  /** Settling the item at hand moves it from what is left to what is settled. */
  lemma SettleKeepsAccounts(s: State, batch: seq<Request>, next: nat, fate: Fate, b: CB.State, w: Worker)
    requires Accounted(s) && next < |batch| && Left(s.worker) == batch[next..] && Left(w) == batch[next + 1..]
    ensures Accounted(Settle(s, batch[next], fate).(breaker := b, worker := w))
  {
    OneSettled(batch, next, s.queue);
    SettleAccounts(s.settled, batch[next], fate, batch[next + 1..] + s.queue);
  }

  lemma CancelKeepsAccounts(c: Config, s: State)
    requires Inv(c, s)
    ensures Accounted(Cancelled(s))
  {
    if s.worker.Analyzing? || s.worker.Delivering? {
      var (batch, next) := (s.worker.batch, s.worker.next);
      SettleKeepsAccounts(s, batch, next, CancelledFate(s.worker), s.breaker, Ended(batch[next + 1..]));
    }
  }

  lemma OfferKeepsAccounts(c: Config, s: State, r: Request)
    requires Accounted(s)
    ensures Accounted(Apply(c, s, Offer(r)))
  {
    assert Left(s.worker) + (s.queue + [r]) == Left(s.worker) + s.queue + [r];
  }

  lemma TakeKeepsAccounts(c: Config, s: State, batch: seq<Request>)
    requires Accounted(s) && Left(s.worker) == batch && s.queue != []
    ensures Accounted(s.(queue := s.queue[1..], worker := Gathered(c, batch + [s.queue[0]])))
  {
    TakeOne(batch, s.queue);
  }

  lemma StepKeepsAccounts(c: Config, s: State, step: Step)
    requires Inv(c, s) && Enabled(s, step)
    ensures Accounted(Apply(c, s, step))
  {
    match step
    case Offer(r) =>
      OfferKeepsAccounts(c, s, r);
    case Get =>
      TakeKeepsAccounts(c, s, []);
    case GetMore =>
      TakeKeepsAccounts(c, s, s.worker.batch);
    case Ask(now) =>
      AskKeepsAccounts(c, s, now);
    case Finish(outcome, ownAnswer, now) =>
      FinishKeepsAccounts(c, s, outcome, ownAnswer, now);
    case Delivered =>
      DeliveredKeepsAccounts(c, s);
    case Timeout =>
      MoveKeepsAccounts(c, s, step);
    case InferenceDone(_) =>
      MoveKeepsAccounts(c, s, step);
    case Publish(_, _) =>
      MoveKeepsAccounts(c, s, step);
    case _ =>
      CancelKeepsAccounts(c, s);
  }

  /** The worker goes on with the batch it has. */
  lemma MoveKeepsAccounts(c: Config, s: State, step: Step)
    requires Inv(c, s) && Enabled(s, step) && (step.Timeout? || step.InferenceDone? || step.Publish?)
    ensures Accounted(Apply(c, s, step))
  {
    assert Left(Apply(c, s, step).worker) == Left(s.worker);
  }

  lemma AskKeepsAccounts(c: Config, s: State, now: real)
    requires Inv(c, s) && Enabled(s, Ask(now))
    ensures Accounted(Apply(c, s, Ask(now)))
  {
    var (batch, next, results) := (s.worker.batch, s.worker.next, s.worker.results);
    SettleKeepsAccounts(s, batch, next, Skipped, CB.Allowed(c.breaker, s.breaker, now).0,
                        Onward(batch, next + 1, results));
  }

  lemma FinishKeepsAccounts(c: Config, s: State, outcome: CB.Outcome, ownAnswer: string, now: real)
    requires Inv(c, s) && Enabled(s, Finish(outcome, ownAnswer, now))
    ensures Accounted(Apply(c, s, Finish(outcome, ownAnswer, now)))
  {
    var (batch, next, results) := (s.worker.batch, s.worker.next, s.worker.results);
    SettleKeepsAccounts(s, batch, next, FateOf(true, outcome, ResultFor(results, next, ownAnswer)),
                        CB.Reported(c.breaker, s.breaker, outcome, now), Onward(batch, next + 1, results));
  }

  lemma DeliveredKeepsAccounts(c: Config, s: State)
    requires Inv(c, s) && Enabled(s, Delivered)
    ensures Accounted(Apply(c, s, Delivered))
  {
    var (batch, next, results) := (s.worker.batch, s.worker.next, s.worker.results);
    SettleKeepsAccounts(s, batch, next, Analysed(s.worker.text), s.breaker, Onward(batch, next + 1, results));
  }

  lemma StepKeepsWorker(c: Config, s: State, step: Step)
    requires Inv(c, s) && Enabled(s, step)
    ensures WorkerOk(c, Apply(c, s, step).worker)
  {
  }

  lemma StepKeepsBreaker(c: Config, s: State, step: Step)
    requires Inv(c, s) && Enabled(s, step)
    ensures var s' := Apply(c, s, step); s'.breaker.mode == CB.HalfOpen ==> s'.worker.Analyzing? || s'.worker.Ended?
  {
  }

  lemma StepKeepsPhase(c: Config, s: State, step: Step)
    requires Inv(c, s) && Enabled(s, step)
    ensures var s' := Apply(c, s, step);
      && (c.maxSize > 0 ==> |s'.queue| <= c.maxSize)
      && (s'.phase == Draining(true) ==> s'.unfinished == 0)
      && (s'.phase == Closed <==> s'.worker.Ended?)
  {
  }

  /** Every step of the producers, the worker and the shutdown keeps the invariant. */
  lemma StepKeepsInv(c: Config, s: State, step: Step)
    requires Inv(c, s) && Enabled(s, step)
    ensures Inv(c, Apply(c, s, step))
  {
    StepKeepsAccounts(c, s, step);
    StepKeepsWorker(c, s, step);
    StepKeepsBreaker(c, s, step);
    StepKeepsPhase(c, s, step);
  }

  lemma {:induction false} RunKeepsInv(c: Config, s: State, steps: seq<Step>)
    requires Inv(c, s) && Possible(c, s, steps)
    ensures Inv(c, Run(c, s, steps))
    decreases |steps|
  {
    if steps != [] {
      StepKeepsInv(c, s, steps[0]);
      RunKeepsInv(c, Apply(c, s, steps[0]), steps[1..]);
    }
  }

  /**
   * In every run: requests are settled in the order they were accepted, each once; unfinished counts those not
   * settled; a batch holds at most max(1, batchMaxSize); and between items the breaker is not half-open.
   */
  lemma RunsAreAccounted(c: Config, steps: seq<Step>)
    requires Possible(c, INITIAL, steps)
    ensures var s := Run(c, INITIAL, steps);
      && |s.settled| <= |s.accepted| && Requests(s.settled) == s.accepted[..|s.settled|]
      && s.unfinished == |s.accepted| - |s.settled|
      && Left(s.worker) + s.queue == s.accepted[|s.settled|..]
      && (s.worker != Idle && !s.worker.Ended? ==> 1 <= |s.worker.batch| <= CB.AtLeastOne(c.batchMaxSize))
      && (!s.worker.Analyzing? && !s.worker.Ended? ==> s.breaker.mode != CB.HalfOpen)
  {
    RunKeepsInv(c, INITIAL, steps);
  }

  // ----- each item with its own answer -----

  /** The engine answers what it is asked, alone or in a batch, for as many items as it answers at all. */
  ghost predicate Truthful(s: State, step: Step, answers: (Request, string) -> bool) {
    match step
    case InferenceDone(Some(results)) =>
      s.worker.Inferring? ==> forall i | 0 <= i < |results| && i < |s.worker.batch| ::
          answers(s.worker.batch[i], results[i])
    case Finish(_, own, _) =>
      s.worker.Analyzing? && s.worker.next < |s.worker.batch| ==> answers(s.worker.batch[s.worker.next], own)
    case Publish(own, _) =>
      s.worker.Analyzing? && s.worker.next < |s.worker.batch| ==> answers(s.worker.batch[s.worker.next], own)
    case _ => true
  }

  ghost predicate AllTruthful(c: Config, s: State, steps: seq<Step>, answers: (Request, string) -> bool)
    requires Possible(c, s, steps)
    decreases |steps|
  {
    steps == [] || (Truthful(s, steps[0], answers) && AllTruthful(c, Apply(c, s, steps[0]), steps[1..], answers))
  }

  ghost predicate ResultsPaired(batch: seq<Request>, results: Option<seq<string>>, answers: (Request, string) -> bool) {
    results.Some? ==> forall i | 0 <= i < |results.value| && i < |batch| :: answers(batch[i], results.value[i])
  }

  /** All of an answer of at most 200 characters, else its first 200. */
  predicate IsPublished(text: string, answer: string) {
    text <= answer && |text| <= 200 && (text != answer ==> |text| == 200)
  }

  ghost predicate Honest(x: Settlement, answers: (Request, string) -> bool) {
    x.fate.Analysed? ==> exists answer :: answers(x.request, answer) && IsPublished(x.fate.text, answer)
  }

  ghost predicate Paired(s: State, answers: (Request, string) -> bool) {
    && (forall i | 0 <= i < |s.settled| :: Honest(s.settled[i], answers))
    && (s.worker.Turning? || s.worker.Analyzing? || s.worker.Delivering?
        ==> ResultsPaired(s.worker.batch, s.worker.results, answers))
    && (s.worker.Delivering? && s.worker.next < |s.worker.batch|
        ==> Honest(Settlement(s.worker.batch[s.worker.next], Analysed(s.worker.text)), answers))
  }

  lemma FinishIsHonest(s: State, outcome: CB.Outcome, own: string, answers: (Request, string) -> bool)
    requires s.worker.Analyzing? && s.worker.next < |s.worker.batch|
    requires Paired(s, answers) && answers(s.worker.batch[s.worker.next], own)
    ensures var (batch, next, results) := (s.worker.batch, s.worker.next, s.worker.results);
      Honest(Settlement(batch[next], FateOf(true, outcome, ResultFor(results, next, own))), answers)
  {
    var (batch, next, results) := (s.worker.batch, s.worker.next, s.worker.results);
    var answer := ResultFor(results, next, own);
    assert answers(batch[next], answer);
  }

  lemma StepKeepsPaired(c: Config, s: State, step: Step, answers: (Request, string) -> bool)
    requires Enabled(s, step) && Paired(s, answers) && Truthful(s, step, answers)
    ensures Paired(Apply(c, s, step), answers)
  {
    if step.Finish? {
      FinishIsHonest(s, step.outcome, step.ownAnswer, answers);
    } else if step.Publish? {
      FinishIsHonest(s, CB.Succeeds, step.ownAnswer, answers);
    }
  }

  lemma {:induction false} RunKeepsPaired(c: Config, s: State, steps: seq<Step>, answers: (Request, string) -> bool)
    requires Possible(c, s, steps) && AllTruthful(c, s, steps, answers) && Paired(s, answers)
    ensures Paired(Run(c, s, steps), answers)
    decreases |steps|
  {
    if steps != [] {
      StepKeepsPaired(c, s, steps[0], answers);
      RunKeepsPaired(c, Apply(c, s, steps[0]), steps[1..], answers);
    }
  }

  /** What is published about a request is an answer to that request, however many results a batch brought. */
  lemma PublicationsAreHonest(c: Config, steps: seq<Step>, answers: (Request, string) -> bool)
    requires Possible(c, INITIAL, steps) && AllTruthful(c, INITIAL, steps, answers)
    ensures forall x | x in Run(c, INITIAL, steps).settled :: Honest(x, answers)
  {
    RunKeepsPaired(c, INITIAL, steps, answers);
  }

  /** An item is analysed exactly if it succeeded, and what its own place in the batch's results holds is published. */
  lemma FinishPublishes(c: Config, s: State, outcome: CB.Outcome, ownAnswer: string, now: real)
    requires Enabled(s, Finish(outcome, ownAnswer, now))
    ensures var (batch, next, results) := (s.worker.batch, s.worker.next, s.worker.results);
      var s' := Apply(c, s, Finish(outcome, ownAnswer, now));
      && |s'.settled| == |s.settled| + 1
      && var x := s'.settled[|s.settled|];
         && x.request == batch[next] && (x.fate.Analysed? <==> outcome == CB.Succeeds)
         && (x.fate.Analysed? ==>
               IsPublished(x.fate.text,
                           if results.Some? && next < |results.value| then results.value[next] else ownAnswer))
  {
  }

  /**
   * In every run a request is accepted exactly if shutdown has not begun and fewer wait than the queue may hold: of
   * those accepted, the ones that are neither settled nor in the worker's hands.
   */
  lemma OfferAcceptedIff(c: Config, steps: seq<Step>, r: Request)
    requires Possible(c, INITIAL, steps)
    ensures var s := Run(c, INITIAL, steps);
      var waiting := |s.accepted| - |s.settled| - |Left(s.worker)|;
      Apply(c, s, Offer(r)).accepted
      == if s.phase == Open && (c.maxSize <= 0 || waiting < c.maxSize) then s.accepted + [r] else s.accepted
  {
    var s := Run(c, INITIAL, steps);
    RunKeepsInv(c, INITIAL, steps);
    assert |s.accepted| == |s.settled| + |Left(s.worker)| + |s.queue|;
  }

  // ----- shutdown -----

  predicate Closes(s: State, step: Step) {
    Enabled(s, step) && (step == DrainDone || step == DrainTimeout || (step == BeginShutdown && s.queue == []))
  }

  /** Every accepted request was settled, and none because the worker was cancelled before it had a result. */
  predicate NothingLost(s: State) {
    Requests(s.settled) == s.accepted && forall i | 0 <= i < |s.settled| :: s.settled[i].fate != Interrupted
  }

  predicate NoneInterrupted(s: State) {
    s.phase != Closed ==> forall i | 0 <= i < |s.settled| :: s.settled[i].fate != Interrupted
  }

  lemma {:induction false} RunInterruptsNone(c: Config, s: State, steps: seq<Step>)
    requires Possible(c, s, steps) && NoneInterrupted(s) && Inv(c, s)
    ensures NoneInterrupted(Run(c, s, steps))
    decreases |steps|
  {
    if steps != [] {
      var step := steps[0];
      StepKeepsInv(c, s, step);
      assert NoneInterrupted(Apply(c, s, step)) by {
        StepInterruptsNone(c, s, step);
      }
      RunInterruptsNone(c, Apply(c, s, step), steps[1..]);
    }
  }

  lemma StepInterruptsNone(c: Config, s: State, step: Step)
    requires Enabled(s, step) && NoneInterrupted(s) && Inv(c, s)
    ensures NoneInterrupted(Apply(c, s, step))
  {
  }

  /** What the worker may still hold when it is cancelled without losing anything: an item that is out already. */
  function Published(w: Worker): nat {
    if w.Delivering? then 1 else 0
  }

  /** Shutting down loses nothing exactly if nothing but a published item is unfinished when the worker is cancelled. */
  lemma ShutdownLosesNothingIff(c: Config, steps: seq<Step>, last: Step)
    requires Possible(c, INITIAL, steps) && Closes(Run(c, INITIAL, steps), last)
    ensures var s := Run(c, INITIAL, steps); NothingLost(Apply(c, s, last)) <==> s.unfinished == Published(s.worker)
  {
    var s := Run(c, INITIAL, steps);
    RunKeepsInv(c, INITIAL, steps);
    RunInterruptsNone(c, INITIAL, steps);
    StepKeepsInv(c, s, last);
    LossOfCancelled(c, s);
  }

  lemma LossOfCancelled(c: Config, s: State)
    requires Inv(c, s) && s.phase != Closed && NoneInterrupted(s) && Accounted(Cancelled(s))
    ensures NothingLost(Cancelled(s)) <==> s.unfinished == Published(s.worker)
  {
    var s' := Cancelled(s);
    assert |s'.accepted| == |s'.settled| + |Left(s'.worker)| + |s'.queue|;
    assert |s'.accepted| == |s.settled| + s.unfinished;
    if s.worker.Analyzing? {
      assert s'.settled[|s.settled|].fate == Interrupted;
    } else if s.unfinished == Published(s.worker) {
      assert Left(s'.worker) + s'.queue == [];
    }
  }

  /** The drain branch finishes only when every accepted request has been settled. */
  lemma DrainDoneMeansSettled(c: Config, steps: seq<Step>)
    requires Possible(c, INITIAL, steps) && Enabled(Run(c, INITIAL, steps), DrainDone)
    ensures NothingLost(Apply(c, Run(c, INITIAL, steps), DrainDone))
  {
    RunKeepsInv(c, INITIAL, steps);
    ShutdownLosesNothingIff(c, steps, DrainDone);
  }

  /** But an empty queue is not an idle worker: shutdown then cancels at once, and a request in hand is abandoned. */
  lemma RequestInHandIsAbandoned(c: Config, r: Request)
    requires c.batchMaxSize > 1
    ensures var steps := [Offer(r), Get];
      && Possible(c, INITIAL, steps) && Closes(Run(c, INITIAL, steps), BeginShutdown)
      && Apply(c, Run(c, INITIAL, steps), BeginShutdown).worker == Ended([r])
      && !NothingLost(Apply(c, Run(c, INITIAL, steps), BeginShutdown))
  {
    var s1 := Apply(c, INITIAL, Offer(r));
    var s2 := Apply(c, s1, Get);
    assert [Offer(r), Get][1..] == [Get] && [Get][1..] == [];
    assert Possible(c, s2, []) && Possible(c, s1, [Get]);
    assert Run(c, s1, [Get]) == s2;
    assert Run(c, INITIAL, [Offer(r), Get]) == s2;
    ShutdownLosesNothingIff(c, [Offer(r), Get], BeginShutdown);
  }

  // ----- the drain ends -----

  predicate WorkerStep(step: Step) {
    step.Get? || step.GetMore? || step.Timeout? || step.InferenceDone? || step.Ask? || step.Finish?
    || step.Publish? || step.Delivered?
  }

  /** How many steps the worker can still make while nothing is accepted. */
  function Work(s: State): nat {
    6 * |s.queue| +
    match s.worker
    case Idle => 0
    case Gathering(batch) => 3 * |batch| + 2
    case Inferring(batch) => 3 * |batch| + 1
    case Turning(batch, next, _) => if next < |batch| then 3 * (|batch| - next) else 0
    case Analyzing(batch, next, _) => if next < |batch| then 3 * (|batch| - next) - 1 else 0
    case Delivering(batch, next, _, _) => if next < |batch| then 3 * (|batch| - next) - 2 else 0
    case Ended(_) => 0
  }

  lemma WorkShrinks(c: Config, s: State, step: Step)
    requires Inv(c, s) && Enabled(s, step) && WorkerStep(step)
    ensures Work(Apply(c, s, step)) < Work(s) && (s.phase.Draining? ==> Apply(c, s, step).phase.Draining?)
  {
  }

  predicate AllWork(steps: seq<Step>) {
    forall i | 0 <= i < |steps| :: WorkerStep(steps[i])
  }

  /** Without new arrivals the worker makes a bounded number of steps: fewer than its work at the start. */
  lemma {:induction false} DrainIsBounded(c: Config, s: State, steps: seq<Step>)
    requires Inv(c, s) && Possible(c, s, steps) && AllWork(steps)
    ensures |steps| + Work(Run(c, s, steps)) <= Work(s)
    decreases |steps|
  {
    if steps != [] {
      assert WorkerStep(steps[0]);
      WorkShrinks(c, s, steps[0]);
      StepKeepsInv(c, s, steps[0]);
      DrainIsBounded(c, Apply(c, s, steps[0]), steps[1..]);
    }
  }

  /** While shutdown waits and something is unfinished, the worker always has a step to make. */
  lemma DrainIsNeverStuck(c: Config, s: State)
    requires Inv(c, s) && s.phase.Draining? && s.unfinished > 0
    ensures exists step :: WorkerStep(step) && Enabled(s, step)
  {
    match s.worker
    case Idle => assert Enabled(s, Get) && WorkerStep(Get);
    case Gathering(_) => assert Enabled(s, Timeout) && WorkerStep(Timeout);
    case Inferring(_) => assert Enabled(s, InferenceDone(None)) && WorkerStep(InferenceDone(None));
    case Turning(_, _, _) => assert Enabled(s, Ask(0.0)) && WorkerStep(Ask(0.0));
    case Analyzing(_, _, _) => assert Enabled(s, Finish(CB.Fails, "", 0.0)) && WorkerStep(Finish(CB.Fails, "", 0.0));
    case Delivering(_, _, _, _) => assert Enabled(s, Delivered) && WorkerStep(Delivered);
  }

  predicate JoinFires(s: State) {
    s.phase.Draining? && s.unfinished == 0 ==> s.phase == Draining(true)
  }

  /** While shutdown waits, the join fires as soon as nothing is unfinished. */
  lemma {:induction false} DrainedIsJoined(c: Config, s: State, steps: seq<Step>)
    requires Inv(c, s) && Possible(c, s, steps) && JoinFires(s)
    ensures JoinFires(Run(c, s, steps))
    decreases |steps|
  {
    if steps != [] {
      StepKeepsInv(c, s, steps[0]);
      assert JoinFires(Apply(c, s, steps[0]));
      DrainedIsJoined(c, Apply(c, s, steps[0]), steps[1..]);
    }
  }

  /**
   * So a drain that its timeout does not cut off completes: when the worker has nothing left to do, the join is done.
   */
  lemma StuckMeansJoined(c: Config, s: State)
    requires Inv(c, s) && s.phase.Draining? && JoinFires(s)
    requires forall step | WorkerStep(step) :: !Enabled(s, step)
    ensures Enabled(s, DrainDone)
  {
    if s.unfinished > 0 {
      DrainIsNeverStuck(c, s);
    }
  }

  /** In every run: a drain that is not cut off, left with a worker that has no step, finishes and loses nothing. */
  lemma DrainCompletes(c: Config, steps: seq<Step>)
    requires Possible(c, INITIAL, steps) && Run(c, INITIAL, steps).phase.Draining?
    requires forall step | WorkerStep(step) :: !Enabled(Run(c, INITIAL, steps), step)
    ensures var s := Run(c, INITIAL, steps);
      s.unfinished == 0 && Enabled(s, DrainDone) && NothingLost(Apply(c, s, DrainDone))
  {
    var s := Run(c, INITIAL, steps);
    RunKeepsInv(c, INITIAL, steps);
    DrainedIsJoined(c, INITIAL, steps);
    StuckMeansJoined(c, s);
    DrainDoneMeansSettled(c, steps);
  }

  // ----- the loop over a batch, as steps -----

  /** How the worker gets done with an item that was admitted: in one step, or in two if its delivery is awaited. */
  function EndOfItem(t: ItemTurn): seq<Step> {
    if t.turn.outcome == CB.Succeeds && t.delivers then [Publish(t.ownAnswer, t.turn.done), Delivered]
    else [Finish(t.turn.outcome, t.ownAnswer, t.turn.done)]
  }

  /** The worker's one to three steps for an item. */
  function StepsOfItem(c: Config, b: CB.State, t: ItemTurn): seq<Step> {
    [Ask(t.turn.asked)] + if CB.Served(c.breaker, b, t.turn).1 then EndOfItem(t) else []
  }

  /** The steps that process items k and on. */
  function ItemSteps(c: Config, b: CB.State, turns: seq<ItemTurn>, k: nat): seq<Step>
    requires k <= |turns|
    decreases |turns| - k
  {
    if k == |turns| then []
    else StepsOfItem(c, BreakerAfter(c.breaker, b, turns, k), turns[k]) + ItemSteps(c, b, turns, k + 1)
  }

  lemma RunPrepended(c: Config, s: State, step: Step, steps: seq<Step>)
    requires Enabled(s, step) && Possible(c, Apply(c, s, step), steps)
    ensures Possible(c, s, [step] + steps) && Run(c, s, [step] + steps) == Run(c, Apply(c, s, step), steps)
  {
    assert ([step] + steps)[1..] == steps;
  }

  /** Where the worker is once the item at hand is done. */
  function ItemDone(c: Config, s: State, t: ItemTurn): State
    requires s.worker.Turning? && s.worker.next < |s.worker.batch|
  {
    var (batch, next, results) := (s.worker.batch, s.worker.next, s.worker.results);
    var (b, admitted) := CB.Served(c.breaker, s.breaker, t.turn);
    Settle(s, batch[next], FateOf(admitted, t.turn.outcome, ResultFor(results, next, t.ownAnswer)))
      .(breaker := b, worker := Onward(batch, next + 1, results))
  }

  lemma EndIsSteps(c: Config, s: State, t: ItemTurn, rest: seq<Step>)
    requires s.worker.Turning? && s.worker.next < |s.worker.batch| && s.phase == Open
    requires CB.Served(c.breaker, s.breaker, t.turn).1 && Possible(c, ItemDone(c, s, t), rest)
    ensures var s1, steps := Apply(c, s, Ask(t.turn.asked)), EndOfItem(t) + rest;
      Possible(c, s1, steps) && Run(c, s1, steps) == Run(c, ItemDone(c, s, t), rest)
  {
    var s1 := Apply(c, s, Ask(t.turn.asked));
    if t.turn.outcome == CB.Succeeds && t.delivers {
      var publish := Publish(t.ownAnswer, t.turn.done);
      var s2 := Apply(c, s1, publish);
      assert Apply(c, s2, Delivered) == ItemDone(c, s, t);
      RunPrepended(c, s2, Delivered, rest);
      RunPrepended(c, s1, publish, [Delivered] + rest);
      assert EndOfItem(t) + rest == [publish] + ([Delivered] + rest);
    } else {
      var finish := Finish(t.turn.outcome, t.ownAnswer, t.turn.done);
      assert Apply(c, s1, finish) == ItemDone(c, s, t);
      RunPrepended(c, s1, finish, rest);
    }
  }

  lemma StepsOfItemAnd(c: Config, b: CB.State, t: ItemTurn, rest: seq<Step>)
    ensures StepsOfItem(c, b, t) + rest
         == [Ask(t.turn.asked)] + if CB.Served(c.breaker, b, t.turn).1 then EndOfItem(t) + rest else rest
  {
  }

  lemma SkipIsStep(c: Config, s: State, t: ItemTurn)
    requires s.worker.Turning? && s.worker.next < |s.worker.batch| && !CB.Served(c.breaker, s.breaker, t.turn).1
    ensures Apply(c, s, Ask(t.turn.asked)) == ItemDone(c, s, t)
  {
  }

  lemma ItemIsSteps(c: Config, s: State, t: ItemTurn, rest: seq<Step>)
    requires s.worker.Turning? && s.worker.next < |s.worker.batch| && s.phase == Open
    requires Possible(c, ItemDone(c, s, t), rest)
    ensures var steps := StepsOfItem(c, s.breaker, t) + rest;
      Possible(c, s, steps) && Run(c, s, steps) == Run(c, ItemDone(c, s, t), rest)
  {
    StepsOfItemAnd(c, s.breaker, t, rest);
    if CB.Served(c.breaker, s.breaker, t.turn).1 {
      EndIsSteps(c, s, t, rest);
      RunPrepended(c, s, Ask(t.turn.asked), EndOfItem(t) + rest);
    } else {
      SkipIsStep(c, s, t);
      RunPrepended(c, s, Ask(t.turn.asked), rest);
    }
  }

  /** s' is s once items k and on of its batch are done as the loop of the worker does them. */
  predicate BatchDone(c: Config, s: State, s': State, b: CB.State, batch: seq<Request>,
                      results: Option<seq<string>>, turns: seq<ItemTurn>, k: nat)
    requires k <= |batch| == |turns|
  {
    && s'.worker == Idle && s'.queue == s.queue && s'.accepted == s.accepted && s'.phase == s.phase
    && s'.breaker == BreakerAfter(c.breaker, b, turns, |batch|)
    && s'.unfinished == s.unfinished - (|batch| - k)
    && s'.settled == s.settled + SettledFirst(c.breaker, b, batch, results, turns, |batch|)[k..]
  }

  lemma {:induction false} SettledAt(c: CB.Config, b: CB.State, batch: seq<Request>,
                                     results: Option<seq<string>>, turns: seq<ItemTurn>, n: nat, k: nat)
    requires k < n <= |batch| == |turns|
    ensures var admitted := CB.Served(c, BreakerAfter(c, b, turns, k), turns[k].turn).1;
      SettledFirst(c, b, batch, results, turns, n)[k]
      == Settlement(batch[k], FateOf(admitted, turns[k].turn.outcome, ResultFor(results, k, turns[k].ownAnswer)))
  {
    if k < n - 1 {
      SettledAt(c, b, batch, results, turns, n - 1, k);
    }
  }

  lemma BatchDoneStep(c: Config, s: State, s': State, b: CB.State, batch: seq<Request>,
                      results: Option<seq<string>>, turns: seq<ItemTurn>, k: nat)
    requires k < |batch| == |turns| && s.worker == Turning(batch, k, results) && s.phase == Open
    requires s.breaker == BreakerAfter(c.breaker, b, turns, k)
    requires BatchDone(c, ItemDone(c, s, turns[k]), s', b, batch, results, turns, k + 1)
    ensures BatchDone(c, s, s', b, batch, results, turns, k)
  {
    SettledAt(c.breaker, b, batch, results, turns, |batch|, k);
    var all := SettledFirst(c.breaker, b, batch, results, turns, |batch|);
    assert all[k..] == [all[k]] + all[k + 1..];
  }

  /** Where nothing else runs meanwhile, the worker's loop over a batch and its steps come to the same. */
  lemma {:induction false} BatchIsSteps(c: Config, s: State, b: CB.State, batch: seq<Request>,
                                        results: Option<seq<string>>, turns: seq<ItemTurn>, k: nat)
    requires k <= |batch| == |turns| && s.worker == Onward(batch, k, results) && s.phase == Open
    requires s.breaker == BreakerAfter(c.breaker, b, turns, k)
    ensures Possible(c, s, ItemSteps(c, b, turns, k))
    ensures BatchDone(c, s, Run(c, s, ItemSteps(c, b, turns, k)), b, batch, results, turns, k)
    decreases |batch| - k
  {
    if k < |batch| {
      BatchIsSteps(c, ItemDone(c, s, turns[k]), b, batch, results, turns, k + 1);
      ItemIsSteps(c, s, turns[k], ItemSteps(c, b, turns, k + 1));
      BatchDoneStep(c, s, Run(c, s, ItemSteps(c, b, turns, k)), b, batch, results, turns, k);
    }
  }

  // ----- the collecting loop, as steps -----

  function Offers(rs: seq<Request>): seq<Step> {
    if rs == [] then [] else [Offer(rs[0])] + Offers(rs[1..])
  }

  /** The steps of the worker and its producers from a batch on until it stops growing. */
  function CollectSteps(c: Config, closed: bool, batch: seq<Request>, inbox: Inbox, waits: seq<Wait>): seq<Step>
    decreases |waits|
  {
    if |batch| >= c.batchMaxSize then []
    else if waits == [] then [Timeout]
    else
      var next := OfferedAll(closed, c.maxSize, inbox, waits[0].arrivals);
      Offers(waits[0].arrivals) +
      if waits[0].timedOut || next.queue == [] then [Timeout]
      else [GetMore] + CollectSteps(c, closed, batch + [next.queue[0]], next.(queue := next.queue[1..]), waits[1..])
  }

  function OffersDone(c: Config, s: State, rs: seq<Request>): State {
    WithInbox(s, OfferedAll(s.phase != Open, c.maxSize, InboxOf(s), rs))
  }

  lemma OfferedFirst(c: Config, s: State, rs: seq<Request>)
    requires rs != []
    ensures OffersDone(c, s, rs) == OffersDone(c, Apply(c, s, Offer(rs[0])), rs[1..])
  {
  }

  lemma OfferedNone(c: Config, s: State)
    ensures OffersDone(c, s, []) == s
  {
  }

  lemma FirstOfferAnd(rs: seq<Request>, rest: seq<Step>)
    requires rs != []
    ensures Offers(rs) + rest == [Offer(rs[0])] + (Offers(rs[1..]) + rest)
  {
  }

  lemma NoOffersAnd(rest: seq<Step>)
    ensures Offers([]) + rest == rest
  {
  }

  lemma {:induction false} OffersAreSteps(c: Config, s: State, rs: seq<Request>, rest: seq<Step>)
    requires Possible(c, OffersDone(c, s, rs), rest)
    ensures Possible(c, s, Offers(rs) + rest) && Run(c, s, Offers(rs) + rest) == Run(c, OffersDone(c, s, rs), rest)
    decreases |rs|
  {
    if rs == [] {
      OfferedNone(c, s);
      NoOffersAnd(rest);
    } else {
      OfferedFirst(c, s, rs);
      OffersAreSteps(c, Apply(c, s, Offer(rs[0])), rs[1..], rest);
      FirstOfferAnd(rs, rest);
      RunPrepended(c, s, Offer(rs[0]), Offers(rs[1..]) + rest);
    }
  }

  /** The state in which collecting from this batch ends. */
  function CollectDone(c: Config, s: State, batch: seq<Request>, waits: seq<Wait>): State {
    var (batch', inbox') := Collected(s.phase != Open, c.maxSize, c.batchMaxSize, batch, InboxOf(s), waits);
    WithInbox(s, inbox').(worker := Start(c, batch'))
  }

  /** The collecting loop and the interleaved steps of worker and producers come to the same. */
  lemma {:induction false} CollectIsSteps(c: Config, s: State, batch: seq<Request>, waits: seq<Wait>)
    requires s.worker == Gathered(c, batch)
    ensures Possible(c, s, CollectSteps(c, s.phase != Open, batch, InboxOf(s), waits))
    ensures Run(c, s, CollectSteps(c, s.phase != Open, batch, InboxOf(s), waits)) == CollectDone(c, s, batch, waits)
    decreases |waits|, 1
  {
    if |batch| < c.batchMaxSize {
      if waits == [] {
        TimeoutEnds(c, s, batch);
      } else {
        CollectStep(c, s, batch, waits);
      }
    }
  }

  lemma TimeoutEnds(c: Config, s: State, batch: seq<Request>)
    requires s.worker == Gathering(batch)
    ensures Possible(c, s, [Timeout]) && Run(c, s, [Timeout]) == s.(worker := Start(c, batch))
  {
    var s' := Apply(c, s, Timeout);
    assert [Timeout][1..] == [];
    assert Possible(c, s', []) && Run(c, s', []) == s';
  }

  lemma CollectStep(c: Config, s: State, batch: seq<Request>, waits: seq<Wait>)
    requires waits != [] && |batch| < c.batchMaxSize && s.worker == Gathering(batch)
    ensures Possible(c, s, CollectSteps(c, s.phase != Open, batch, InboxOf(s), waits))
    ensures Run(c, s, CollectSteps(c, s.phase != Open, batch, InboxOf(s), waits)) == CollectDone(c, s, batch, waits)
    decreases |waits|, 0
  {
    var next := OfferedAll(s.phase != Open, c.maxSize, InboxOf(s), waits[0].arrivals);
    var s1 := WithInbox(s, next);
    if waits[0].timedOut || next.queue == [] {
      TimeoutEnds(c, s1, batch);
      OffersAreSteps(c, s, waits[0].arrivals, [Timeout]);
    } else {
      var s2, batch2 := Apply(c, s1, GetMore), batch + [next.queue[0]];
      var rest := CollectSteps(c, s.phase != Open, batch2, InboxOf(s2), waits[1..]);
      CollectIsSteps(c, s2, batch2, waits[1..]);
      RunPrepended(c, s1, GetMore, rest);
      OffersAreSteps(c, s, waits[0].arrivals, [GetMore] + rest);
    }
  }

  /** From the first item on: what the worker gathers is what its steps gather. */
  lemma GatherIsSteps(c: Config, s: State, waits: seq<Wait>)
    requires s.worker == Idle && s.queue != []
    ensures var first, rest := [s.queue[0]], s.(queue := s.queue[1..]);
      var steps := [Get] + CollectSteps(c, s.phase != Open, first, InboxOf(rest), waits);
      Possible(c, s, steps) && Run(c, s, steps) == CollectDone(c, rest, first, waits)
  {
    var first, s1 := [s.queue[0]], Apply(c, s, Get);
    CollectIsSteps(c, s1, first, waits);
    RunPrepended(c, s, Get, CollectSteps(c, s.phase != Open, first, InboxOf(s1), waits));
  }
}
