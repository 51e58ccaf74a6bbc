/** The enqueue side of detection processing and the batching worker that consumes the queue, section by section. */
module VlmPipeline {
  import CB = CircuitBreaker
  import opened Text

  datatype Request = Request(id: nat, deviceId: string, prompt: string, rule: string)

  /** How a request that was taken off the queue was settled, each time with one task_done. */
  datatype Fate = Skipped | Failed | Analysed(text: string) | Interrupted

  datatype Settlement = Settlement(request: Request, fate: Fate)

  // ----- rules -----

  datatype Rule = Rule(className: string, minConfidence: real, promptTemplate: string)

  datatype Seen = Seen(className: string, confidence: real)

  /** Some detection of the rule's class is surer than the rule demands. */
  predicate Triggers(rule: Rule, detections: seq<Seen>) {
    exists d :: d in detections && d.className == rule.className && d.confidence > rule.minConfidence
  }

  /** Rule k is triggered and none before it is. */
  predicate FirstTriggered(rules: seq<Rule>, detections: seq<Seen>, k: int) {
    && 0 <= k < |rules| && Triggers(rules[k], detections)
    && forall j | 0 <= j < k :: !Triggers(rules[j], detections)
  }

  /** The first rule that some detection triggers; none only if no detection triggers any. */
  method MatchVlmRule(rules: seq<Rule>, detections: seq<Seen>) returns (matched: Option<Rule>)
    ensures matched.None? <==> forall k | 0 <= k < |rules| :: !Triggers(rules[k], detections)
    ensures matched.Some? ==> exists k :: FirstTriggered(rules, detections, k) && matched.value == rules[k]
  {
    for k := 0 to |rules|
      invariant forall j | 0 <= j < k :: !Triggers(rules[j], detections)
    {
      for i := 0 to |detections|
        invariant forall j | 0 <= j < i ::
          !(detections[j].className == rules[k].className && detections[j].confidence > rules[k].minConfidence)
      {
        if detections[i].className == rules[k].className && detections[i].confidence > rules[k].minConfidence {
          assert detections[i] in detections;
          assert FirstTriggered(rules, detections, k);
          return Some(rules[k]);
        }
      }
    }
    return None;
  }

  /** The surest detection of a class decides: a rule is triggered exactly if its bound lies below that one. */
  lemma SurestDecides(rule: Rule, detections: seq<Seen>, surest: Seen)
    requires surest in detections && surest.className == rule.className
    requires forall d | d in detections && d.className == rule.className :: d.confidence <= surest.confidence
    ensures Triggers(rule, detections) <==> rule.minConfidence < surest.confidence
  {
  }

  // ----- the worker -----

  /** The part of an answer that is published. */
  function Shown(answer: string): string {
    if |answer| <= 200 then answer else answer[..200]
  }

  /**
   * What happens around one item: when the breaker is asked and told, how it ends, what its own analysis would say,
   * and whether an upload or guidance commands are awaited once it is published.
   */
  datatype ItemTurn = ItemTurn(turn: CB.Turn, ownAnswer: string, delivers: bool)

  /** The batch's result for the item if there is one, else the item's own. */
  function ResultFor(batchResults: Option<seq<string>>, idx: nat, ownAnswer: string): string {
    if batchResults.Some? && idx < |batchResults.value| then batchResults.value[idx] else ownAnswer
  }

  function FateOf(admitted: bool, outcome: CB.Outcome, result: string): Fate {
    if !admitted then Skipped else if outcome == CB.Succeeds then Analysed(Shown(result)) else Failed
  }

  /** The breaker after the first n items of a batch. */
  function BreakerAfter(c: CB.Config, b: CB.State, turns: seq<ItemTurn>, n: nat): CB.State
    requires n <= |turns|
  {
    if n == 0 then b else CB.Served(c, BreakerAfter(c, b, turns, n - 1), turns[n - 1].turn).0
  }

  /** How the first n items of a batch are settled. */
  function SettledFirst(c: CB.Config, b: CB.State, batch: seq<Request>, results: Option<seq<string>>,
                        turns: seq<ItemTurn>, n: nat): (r: seq<Settlement>)
    requires n <= |batch| == |turns|
    ensures |r| == n
  {
    if n == 0 then []
    else
      var k := n - 1;
      var admitted := CB.Served(c, BreakerAfter(c, b, turns, k), turns[k].turn).1;
      SettledFirst(c, b, batch, results, turns, k) +
      [Settlement(batch[k], FateOf(admitted, turns[k].turn.outcome, ResultFor(results, k, turns[k].ownAnswer)))]
  }

  // ----- the queue -----

  /** What waits, and all that was ever accepted. */
  datatype Inbox = Inbox(queue: seq<Request>, accepted: seq<Request>)

  predicate Refused(closed: bool, maxSize: int, inbox: Inbox) {
    closed || (maxSize > 0 && |inbox.queue| >= maxSize)
  }

  /** put_nowait behind the gate. */
  function Offered(closed: bool, maxSize: int, inbox: Inbox, r: Request): Inbox {
    if Refused(closed, maxSize, inbox) then inbox else Inbox(inbox.queue + [r], inbox.accepted + [r])
  }

  function OfferedAll(closed: bool, maxSize: int, inbox: Inbox, rs: seq<Request>): Inbox
    decreases |rs|
  {
    if rs == [] then inbox else OfferedAll(closed, maxSize, Offered(closed, maxSize, inbox, rs[0]), rs[1..])
  }

  /** What happens while the worker waits for one more item: requests arrive, or time runs out first. */
  datatype Wait = Wait(arrivals: seq<Request>, timedOut: bool)

  /** The batch once it stops growing, and the inbox then. */
  function Collected(closed: bool, maxSize: int, batchMaxSize: int, batch: seq<Request>, inbox: Inbox, waits: seq<Wait>)
    : (seq<Request>, Inbox)
    decreases |waits|
  {
    if |batch| >= batchMaxSize || waits == [] then (batch, inbox)
    else
      var next := OfferedAll(closed, maxSize, inbox, waits[0].arrivals);
      if waits[0].timedOut || next.queue == [] then (batch, next)
      else Collected(closed, maxSize, batchMaxSize, batch
          + [next.queue[0]], next.(queue := next.queue[1..]), waits[1..])
  }

  /** What joined the queue is what was accepted, in order. */
  predicate Grown(held: seq<Request>, inbox: Inbox, held': seq<Request>, inbox': Inbox) {
    inbox.accepted <= inbox'.accepted
        && held' + inbox'.queue == held + inbox.queue + inbox'.accepted[|inbox.accepted|..]
  }

  lemma GrownTrans(held: seq<Request>, a: Inbox, held': seq<Request>, b: Inbox, held'': seq<Request>, c: Inbox)
    requires Grown(held, a, held', b) && Grown(held', b, held'', c)
    ensures Grown(held, a, held'', c)
  {
    var n := |a.accepted|;
    assert c.accepted[n..] == b.accepted[n..] + c.accepted[|b.accepted|..];
  }

  lemma {:induction false} OfferedAllGrows(closed: bool, maxSize: int, held: seq<Request>, inbox: Inbox,
                                           rs: seq<Request>)
    ensures Grown(held, inbox, held, OfferedAll(closed, maxSize, inbox, rs))
    decreases |rs|
  {
    if rs != [] {
      var next := Offered(closed, maxSize, inbox, rs[0]);
      OfferedAllGrows(closed, maxSize, held, next, rs[1..]);
      GrownTrans(held, inbox, held, next, held, OfferedAll(closed, maxSize, inbox, rs));
    }
  }

  /**
   * Collecting respects the bound and keeps the order: the batch and the queue are what they were, then what was
   * accepted.
   */
  lemma {:induction false} CollectedKeepsOrder(closed: bool, maxSize: int, batchMaxSize: int,
                                               batch: seq<Request>, inbox: Inbox, waits: seq<Wait>)
    requires 1 <= |batch| <= CB.AtLeastOne(batchMaxSize)
    ensures var (batch', inbox') := Collected(closed, maxSize, batchMaxSize, batch, inbox, waits);
      1 <= |batch'| <= CB.AtLeastOne(batchMaxSize) && Grown(batch, inbox, batch', inbox')
    decreases |waits|
  {
    if |batch| < batchMaxSize && waits != [] {
      var next := OfferedAll(closed, maxSize, inbox, waits[0].arrivals);
      OfferedAllGrows(closed, maxSize, batch, inbox, waits[0].arrivals);
      if !(waits[0].timedOut || next.queue == []) {
        var batch1, inbox1 := batch + [next.queue[0]], next.(queue := next.queue[1..]);
        assert next.queue == [next.queue[0]] + next.queue[1..];
        assert Grown(batch, next, batch1, inbox1);
        CollectedKeepsOrder(closed, maxSize, batchMaxSize, batch1, inbox1, waits[1..]);
        var (batch', inbox') := Collected(closed, maxSize, batchMaxSize, batch1, inbox1, waits[1..]);
        GrownTrans(batch, inbox, batch, next, batch1, inbox1);
        GrownTrans(batch, inbox, batch1, inbox1, batch', inbox');
      }
    }
  }

  /** Collecting does not stop early: while no wait runs out it takes one waiting item each, up to the bound. */
  lemma {:induction false} CollectedTakesAll(closed: bool, maxSize: int, batchMaxSize: int,
                                             batch: seq<Request>, inbox: Inbox, waits: seq<Wait>)
    requires |batch| <= batchMaxSize && |waits| <= |inbox.queue|
    requires forall i | 0 <= i < |waits| :: !waits[i].timedOut
    ensures var (batch', inbox') := Collected(closed, maxSize, batchMaxSize, batch, inbox, waits);
      |batch'| == if |batch| + |waits| < batchMaxSize then |batch| + |waits| else batchMaxSize
    decreases |waits|
  {
    if |batch| < batchMaxSize && waits != [] {
      var next := OfferedAll(closed, maxSize, inbox, waits[0].arrivals);
      OfferedAllGrows(closed, maxSize, [], inbox, waits[0].arrivals);
      assert |next.queue| >= |inbox.queue|;
      CollectedTakesAll(closed, maxSize, batchMaxSize, batch + [next.queue[0]], next.(queue := next.queue[1..]),
                        waits[1..]);
    }
  }

  /** While there is room and the gate is open nothing is refused. */
  lemma {:induction false} NothingRefused(maxSize: int, inbox: Inbox, rs: seq<Request>)
    requires maxSize <= 0 || |inbox.queue| + |rs| <= maxSize
    ensures OfferedAll(false, maxSize, inbox, rs) == Inbox(inbox.queue + rs, inbox.accepted + rs)
    decreases |rs|
  {
    if rs == [] {
      assert inbox.queue + rs == inbox.queue && inbox.accepted + rs == inbox.accepted;
    } else {
      NothingRefused(maxSize, Offered(false, maxSize, inbox, rs[0]), rs[1..]);
      assert rs == [rs[0]] + rs[1..];
      assert inbox.queue + [rs[0]] + rs[1..] == inbox.queue + rs;
      assert inbox.accepted + [rs[0]] + rs[1..] == inbox.accepted + rs;
    }
  }

  class VLMProcessingPipeline {
    const batchMaxSize: int
    const maxSize: int
    const breaker: CB.CircuitBreaker
    var queue: seq<Request>
    var unfinished: int
    var shuttingDown: bool
    ghost var accepted: seq<Request>
    ghost var settled: seq<Settlement>

    constructor (batchMaxSize: int, maxSize: int, breaker: CB.CircuitBreaker)
      ensures this.batchMaxSize == batchMaxSize && this.maxSize == maxSize && this.breaker == breaker
      ensures queue == [] && unfinished == 0 && !shuttingDown && accepted == [] && settled == []
    {
      this.batchMaxSize, this.maxSize, this.breaker := batchMaxSize, maxSize, breaker;
      queue, unfinished, shuttingDown, accepted, settled := [], 0, false, [], [];
    }

    ghost function Model(): Inbox
      reads this
    {
      Inbox(queue, accepted)
    }

    /** The enqueue part of process: closed by the gate, refused by a full queue. */
    method Offer(r: Request) returns (ok: bool)
      modifies this`queue, this`unfinished, this`accepted
      ensures Model() == Offered(shuttingDown, maxSize, old(Model()), r)
      ensures ok == !Refused(shuttingDown, maxSize, old(Model()))
      ensures unfinished - |accepted| == old(unfinished - |accepted|)
    {
      if shuttingDown {
        return false;
      }
      if maxSize > 0 && |queue| >= maxSize {
        return false;
      }
      queue := queue + [r];
      unfinished := unfinished + 1;
      accepted := accepted + [r];
      return true;
    }

    method TaskDone(item: Request, ghost fate: Fate)
      requires unfinished > 0
      modifies this`unfinished, this`settled
      ensures unfinished == old(unfinished) - 1 && settled == old(settled) + [Settlement(item, fate)]
    {
      unfinished := unfinished - 1;
      settled := settled + [Settlement(item, fate)];
    }

    /** Other coroutines run while the worker waits. */
    method OfferAll(rs: seq<Request>)
      modifies this`queue, this`unfinished, this`accepted
      ensures Model() == OfferedAll(shuttingDown, maxSize, old(Model()), rs)
      ensures unfinished - |accepted| == old(unfinished - |accepted|)
    {
      var i := 0;
      while i < |rs|
        invariant i <= |rs|
        invariant OfferedAll(shuttingDown, maxSize, Model(), rs[i..])
            == OfferedAll(shuttingDown, maxSize, old(Model()), rs)
        invariant unfinished - |accepted| == old(unfinished - |accepted|)
      {
        assert rs[i..][1..] == rs[i + 1..];
        var ok := Offer(rs[i]);
        i := i + 1;
      }
    }

    /**
     * The collecting loop, from a first item on: the front of the queue joins the batch until it is full or time runs
     * out.
     */
    method Gather(waits: seq<Wait>) returns (batch: seq<Request>)
      requires queue != []
      modifies this`queue, this`unfinished, this`accepted
      ensures (batch, Model()) == Collected(shuttingDown, maxSize, batchMaxSize, [old(queue)[0]],
                                            Inbox(old(queue)[1..], old(accepted)), waits)
      ensures 1 <= |batch| <= CB.AtLeastOne(batchMaxSize) && Grown([], old(Model()), batch, Model())
      ensures unfinished - |accepted| == old(unfinished - |accepted|)
    {
      ghost var first, inbox := [queue[0]], Inbox(queue[1..], accepted);
      CollectedKeepsOrder(shuttingDown, maxSize, batchMaxSize, first, inbox, waits);
      assert queue == first + queue[1..];
      assert Grown([], Model(), first, inbox);
      batch := [queue[0]];
      queue := queue[1..];
      var k := 0;
      while |batch| < batchMaxSize && k < |waits|
        invariant k <= |waits|
        invariant Collected(shuttingDown, maxSize, batchMaxSize, batch, Model(), waits[k..])
               == Collected(shuttingDown, maxSize, batchMaxSize, first, inbox, waits)
        invariant unfinished - |accepted| == old(unfinished - |accepted|)
      {
        assert waits[k..][1..] == waits[k + 1..];
        OfferAll(waits[k].arrivals);
        if waits[k].timedOut || queue == [] {
          break;
        }
        batch := batch + [queue[0]];
        queue := queue[1..];
        k := k + 1;
      }
      GrownTrans([], old(Model()), first, inbox, batch, Model());
    }

    /** _process_item: whatever happens to the item, it is settled once. */
    method ProcessItem(item: Request, idx: nat, batchResults: Option<seq<string>>, t: ItemTurn)
      requires unfinished > 0
      modifies this`unfinished, this`settled, breaker
      ensures unfinished == old(unfinished) - 1
      ensures var (b, admitted) := CB.Served(breaker.config, old(breaker.Model()), t.turn);
        breaker.Model() == b &&
        settled == old(settled)
            + [Settlement(item, FateOf(admitted, t.turn.outcome, ResultFor(batchResults, idx, t.ownAnswer)))]
    {
      var allowed := breaker.AllowRequest(t.turn.asked);
      if !allowed {
        TaskDone(item, Skipped);
        return;
      }
      ghost var fate := Failed;
      match t.turn.outcome {
        case Fails =>
          breaker.RecordFailure(t.turn.done);
        case Succeeds =>
          breaker.RecordSuccess();
          fate := Analysed(Shown(ResultFor(batchResults, idx, t.ownAnswer)));
        case SucceedsThenFails =>
          breaker.RecordSuccess();
          breaker.RecordFailure(t.turn.done);
      }
      TaskDone(item, fate);
    }

    /** The loop over a gathered batch. */
    method ProcessBatch(batch: seq<Request>, batchResults: Option<seq<string>>, turns: seq<ItemTurn>)
      requires |turns| == |batch| <= unfinished
      modifies this`unfinished, this`settled, breaker
      ensures unfinished == old(unfinished) - |batch|
      ensures settled == old(settled)
          + SettledFirst(breaker.config, old(breaker.Model()), batch, batchResults, turns, |batch|)
      ensures breaker.Model() == BreakerAfter(breaker.config, old(breaker.Model()), turns, |batch|)
    {
      ghost var b := breaker.Model();
      for idx := 0 to |batch|
        invariant unfinished == old(unfinished) - idx
        invariant settled == old(settled) + SettledFirst(breaker.config, b, batch, batchResults, turns, idx)
        invariant breaker.Model() == BreakerAfter(breaker.config, b, turns, idx)
      {
        ProcessItem(batch[idx], idx, batchResults, turns[idx]);
      }
    }
  }
}
