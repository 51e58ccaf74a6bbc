/** The reconnecting sender: one thread that streams detections and spills them while the server is away. */
module Delivery {
  import opened SpillQueue

  function ShiftLeft(x: nat, n: nat): nat {
    if n == 0 then x else 2 * ShiftLeft(x, n - 1)
  }

  function AtMost(x: nat, bound: nat): nat {
    if x < bound then x else bound
  }

  /** Milliseconds to wait before the next reconnection attempt. */
  function BackoffMs(initialMs: nat, attempt: nat): nat {
    AtMost(ShiftLeft(initialMs, AtMost(attempt, 15)), 30000)
  }

  lemma {:induction false} ShiftMonotone(x: nat, m: nat, n: nat)
    requires m <= n
    ensures ShiftLeft(x, m) <= ShiftLeft(x, n)
  {
    if m < n {
      ShiftMonotone(x, m, n - 1);
    }
  }

  /** Waiting never gets shorter from one failed attempt to the next, and never exceeds half a minute. */
  lemma BackoffNeverShrinks(initialMs: nat, m: nat, n: nat)
    requires m <= n
    ensures BackoffMs(initialMs, m) <= BackoffMs(initialMs, n) <= 30000
  {
    ShiftMonotone(initialMs, AtMost(m, 15), AtMost(n, 15));
  }

  /** The first wait is the initial one, each next one is twice as long, and the cap is half a minute. */
  lemma BackoffDoubles(initialMs: nat, n: nat)
    ensures BackoffMs(initialMs, 0) == AtMost(initialMs, 30000)
    ensures n < 15 ==> BackoffMs(initialMs, n + 1) == AtMost(2 * BackoffMs(initialMs, n), 30000)
    ensures n >= 15 ==> BackoffMs(initialMs, n) == BackoffMs(initialMs, 15)
  {
  }

  /** Everything passed in, and where it is: written, waiting or evicted. */
  datatype Ledger = Ledger(submitted: seq<Item>, written: seq<Item>, waiting: seq<Item>, evicted: seq<Item>)

  predicate Balanced(l: Ledger) {
    multiset(l.submitted) == multiset(l.written) + multiset(l.waiting) + multiset(l.evicted)
  }

  /** The network answers the client's n-th question with net(n): any pattern of successes and failures. */
  class GRPCClient {
    const maxReconnectAttempts: nat
    const queue: DetectionQueue
    const net: nat -> bool
    var ticks: nat
    var connected: bool
    var stub: bool
    var streamOpen: bool
    var reconnectAttempts: nat
    ghost var submitted: seq<Item>
    ghost var written: seq<Item>

    ghost predicate Valid()
      reads this, queue
    {
      && queue.Valid() && queue.maxEntries >= 1
      && (streamOpen ==> connected) && (connected ==> stub)
      && reconnectAttempts <= maxReconnectAttempts
    }

    /** What the accounting is about. */
    ghost function Books(): Ledger
      reads this, queue
    {
      Ledger(submitted, written, queue.queue, queue.evicted)
    }

    constructor (maxReconnectAttempts: nat, queue: DetectionQueue, net: nat -> bool)
      requires queue.Valid() && queue.maxEntries >= 1 && queue.queue == queue.evicted == []
      ensures Valid() && !connected && this.queue == queue && Books() == Ledger([], [], [], [])
    {
      this.maxReconnectAttempts := maxReconnectAttempts;
      this.queue := queue;
      this.net := net;
      ticks, reconnectAttempts := 0, 0;
      connected, stub, streamOpen := false, false, false;
      submitted, written := [], [];
    }

    /** One question to the network. */
    method Ask() returns (answer: bool)
      modifies this`ticks
      ensures answer == net(old(ticks)) && ticks == old(ticks) + 1
    {
      answer := net(ticks);
      ticks := ticks + 1;
    }

    method CreateChannel() returns (ok: bool)
      modifies this`ticks, this`stub
      ensures ok == net(old(ticks)) && ticks == old(ticks) + 1
      ensures stub == (old(stub) || ok)
    {
      ok := Ask();
      if ok {
        stub := true;
      }
    }

    method HealthCheckLocked() returns (ok: bool)
      modifies this`ticks
      ensures old(ticks) <= ticks <= old(ticks) + 1
      ensures ok ==> stub
      ensures stub ==> ok == net(old(ticks))
    {
      if !stub {
        return false;
      }
      ok := Ask();
    }

    /** The answers that bring a connection up: to the channel, to its connection and to the health check. */
    ghost predicate Answers(since: nat) {
      net(since) && net(since + 1) && net(since + 2)
    }

    /** Make a channel, wait until it is connected, and check the server's health. */
    method Handshake() returns (ok: bool)
      modifies this`ticks, this`stub
      ensures ticks >= old(ticks) && (old(stub) || ok ==> stub)
      ensures ok <==> Answers(old(ticks))
    {
      var answer := CreateChannel();
      if !answer {
        return false;
      }
      answer := Ask();
      if !answer {
        return false;
      }
      ok := HealthCheckLocked();
    }

    method OpenStream() returns (ok: bool)
      modifies this`ticks, this`streamOpen
      ensures old(ticks) <= ticks <= old(ticks) + 1
      ensures ok == streamOpen && (old(streamOpen) ==> ok) && (ok ==> old(streamOpen) || stub)
      ensures !old(streamOpen) && stub ==> ok == net(old(ticks))
    {
      if streamOpen {
        return true;
      }
      if !stub {
        return false;
      }
      var stream := Ask();
      if !stream {
        return false;
      }
      streamOpen := true;
      return true;
    }

    method Write(item: Item) returns (ok: bool)
      modifies this`ticks, this`written
      ensures ok == net(old(ticks)) && ticks == old(ticks) + 1
      ensures written == if ok then old(written) + [item] else old(written)
    {
      ok := Ask();
      if ok {
        written := written + [item];
      }
    }

    method CloseStream()
      modifies this`streamOpen
      ensures !streamOpen
    {
      if !streamOpen {
        return;
      }
      streamOpen := false;
    }

    method Connect() returns (ok: bool)
      requires Valid()
      modifies this`ticks, this`stub, this`connected, this`reconnectAttempts
      ensures Valid() && ok == connected == (old(connected) || Answers(old(ticks)))
      ensures ok && !old(connected) ==> reconnectAttempts == 0
      ensures !ok || old(connected) ==> reconnectAttempts == old(reconnectAttempts)
    {
      if connected {
        return true;
      }
      var up := Handshake();
      if !up {
        return false;
      }
      connected := true;
      reconnectAttempts := 0;
      return true;
    }

    /** queue_.Dequeue, and the promise that the entry would still fit if it had to go back. */
    method Take() returns (ok: bool, item: Item)
      requires queue.Valid()
      modifies queue
      ensures queue.Valid() && ok == (old(queue.queue) != [])
      ensures ok ==> item == old(queue.queue)[0] && queue.queue == old(queue.queue)[1..] && Fits(item)
      ensures !ok ==> queue.queue == []
      ensures queue.evicted == old(queue.evicted)
    {
      ok, item := queue.Dequeue(true);
      if ok {
        RequeueNeverEvicts(old(queue.queue), queue.maxEntries, queue.maxMemoryBytes);
      }
    }

    ghost predicate Fits(item: Item)
      reads queue
    {
      Evictions(queue.queue, item, queue.maxEntries, queue.maxMemoryBytes) == 0
    }

    /** queue_.Enqueue of an entry that was taken out just before: it goes to the tail and pushes nothing out. */
    method Requeue(item: Item)
      requires queue.Valid() && queue.maxEntries >= 1 && Fits(item)
      modifies queue
      ensures queue.Valid() && queue.queue == old(queue.queue) + [item] && queue.evicted == old(queue.evicted)
    {
      var hangs, ok := queue.Enqueue(item, true);
    }

    /** The loop body of DrainQueue: open the stream if need be and write, or put the entry back. */
    method SendOrRequeue(item: Item) returns (ok: bool)
      requires queue.Valid() && queue.maxEntries >= 1 && Fits(item) && stub
      modifies this`ticks, this`streamOpen, this`written, queue
      ensures queue.Valid() && ticks >= old(ticks)
      ensures ok ==> written == old(written) + [item] && queue.queue == old(queue.queue)
      ensures !ok ==> written == old(written) && queue.queue == old(queue.queue) + [item]
      ensures queue.evicted == old(queue.evicted)
      ensures NetworkIsUp(old(ticks)) ==> ok
    {
      var open := OpenStream();
      if !open {
        Requeue(item);
        return false;
      }
      ok := Write(item);
      if !ok {
        Requeue(item);
      }
    }

    /** Delivers n entries from the front; if one fails it goes to the tail and the drain ends. */
    method DrainQueue() returns (ghost n: nat)
      requires queue.Valid() && queue.maxEntries >= 1 && stub
      modifies this`ticks, this`streamOpen, this`written, queue
      ensures queue.Valid() && ticks >= old(ticks)
      ensures queue.evicted == old(queue.evicted)
      ensures n <= |old(queue.queue)| && written == old(written) + old(queue.queue)[..n]
      ensures queue.queue == Drained(old(queue.queue), n)
      ensures NetworkIsUp(old(ticks)) ==> n == |old(queue.queue)|
    {
      ghost var q := queue.queue;
      n := 0;
      var more, queued := Take();
      while more
        invariant queue.Valid() && ticks >= old(ticks)
        invariant n <= |q| && written == old(written) + q[..n]
        invariant if more then n < |q| && queued == q[n] && Fits(queued) && queue.queue == q[n + 1..]
                  else n == |q| && queue.queue == []
        invariant queue.evicted == old(queue.evicted)
        decreases more, |queue.queue|
      {
        var ok := SendOrRequeue(queued);
        if !ok {
          return;
        }
        assert q[..n + 1] == q[..n] + [queued];
        n := n + 1;
        more, queued := Take();
      }
    }

    ghost predicate NetworkIsUp(since: nat) {
      forall n | n >= since :: net(n)
    }

    /** Buffering instead of dropping: the oldest entries make room if they must. */
    method Spill(result: Item)
      requires Valid()
      modifies this`submitted, queue
      ensures Valid() && submitted == old(submitted) + [result]
      ensures var k := Evictions(old(queue.queue), result, queue.maxEntries, queue.maxMemoryBytes);
        queue.queue == old(queue.queue)[k..] + [result] && queue.evicted == old(queue.evicted) + old(queue.queue)[..k]
    {
      var hangs, ok := queue.Enqueue(result, true);
      submitted := submitted + [result];
    }

    /** The reconnection block of StreamDetection, without the attempt limit; n entries are drained. */
    method Reconnect() returns (ok: bool, ghost n: nat)
      requires Valid() && !connected && reconnectAttempts < maxReconnectAttempts
      modifies this`ticks, this`stub, this`connected, this`reconnectAttempts, this`streamOpen, this`written, queue
      ensures Valid() && ok == connected == Answers(old(ticks)) && ticks >= old(ticks)
      ensures n <= |old(queue.queue)| && written == old(written) + old(queue.queue)[..n]
      ensures queue.evicted == old(queue.evicted)
      ensures ok ==> reconnectAttempts == 0 && queue.queue == Drained(old(queue.queue), n)
      ensures !ok ==> reconnectAttempts == old(reconnectAttempts) + 1 && n == 0 && queue.queue == old(queue.queue)
      ensures NetworkIsUp(old(ticks)) ==> ok && n == |old(queue.queue)|
    {
      n := 0;
      reconnectAttempts := reconnectAttempts + 1;
      var up := Handshake();
      if !up {
        return false, 0;
      }
      connected := true;
      reconnectAttempts := 0;
      n := DrainQueue();
      return true, n;
    }

    /** After a successful write one waiting entry gets its chance. */
    method DrainOne()
      requires Valid() && streamOpen
      modifies this`ticks, this`written, queue
      ensures Valid() && streamOpen
      ensures queue.evicted == old(queue.evicted)
      ensures var q := old(queue.queue);
        if q == [] then written == old(written) && queue.queue == []
        else if net(old(ticks)) then written == old(written) + [q[0]] && queue.queue == q[1..]
        else written == old(written) && queue.queue == q[1..] + [q[0]]
    {
      ghost var q := queue.queue;
      var empty := queue.Empty();
      if !empty {
        var ok, queued := Take();
        if ok {
          if streamOpen {
            var sent := Write(queued);
            if !sent {
              Requeue(queued);
            }
            assert q == [q[0]] + q[1..];
          }
        }
      }
    }

    /**
     * result is written or queued. If the call had to reconnect and could, n entries were drained first;
     * after a successful write one more entry may be tried.
     */
    method StreamDetection(result: Item) returns (ok: bool, ghost reconnected: bool, ghost n: nat)
      requires Valid()
      modifies this`ticks, this`stub, this`connected, this`reconnectAttempts, this`streamOpen, this`written,
               this`submitted, queue
      ensures Valid() && ok
      ensures n <= |old(queue.queue)| && (!reconnected ==> n == 0)
      ensures if connected then Sent(old(Books()), Books(), result, reconnected, n)
              else Spilled(old(Books()), Books(), result, reconnected, n, queue.maxEntries, queue.maxMemoryBytes)
      ensures connected ==> streamOpen && (old(connected) || reconnected)
      ensures reconnectAttempts ==
              if old(connected) then old(reconnectAttempts) else if reconnected then 0
              else if old(reconnectAttempts) == maxReconnectAttempts then maxReconnectAttempts
              else old(reconnectAttempts) + 1
      ensures !old(connected) && old(reconnectAttempts) == maxReconnectAttempts
              ==> !connected && !reconnected && ticks == old(ticks)
      ensures NetworkIsUp(old(ticks)) && (old(connected) || old(reconnectAttempts) < maxReconnectAttempts)
              ==> connected && (reconnected ==> n == |old(queue.queue)|)
    {
      reconnected, n := false, 0;
      ghost var l := Books();
      assert l.written + l.waiting[..0] == l.written;
      if !connected {
        if reconnectAttempts >= maxReconnectAttempts {
          Spill(result);
          return true, false, 0;
        }
        var up;
        up, n := Reconnect();
        if !up {
          Spill(result);
          return true, false, 0;
        }
        reconnected := true;
      }
      assert Books() == Ledger(l.submitted, l.written + l.waiting[..n], Waiting(l, reconnected, n), l.evicted);
      var sent := SendOrDisconnect(result);
      if !sent {
        Spill(result);
        return true, reconnected, n;
      }
      submitted := submitted + [result];
      DrainOne();
      return true, reconnected, n;
    }

    /** Any run of calls: what was passed in is written, waiting or counted as evicted, whatever the network did. */
    method StreamAll(results: seq<Item>)
      requires Valid() && Balanced(Books())
      modifies this`ticks, this`stub, this`connected, this`reconnectAttempts, this`streamOpen, this`written,
               this`submitted, queue
      ensures Valid() && Balanced(Books()) && submitted == old(submitted) + results
    {
      for i := 0 to |results|
        invariant Valid() && Balanced(Books()) && submitted == old(submitted) + results[..i]
      {
        ghost var l := Books();
        var ok;
        ghost var reconnected, n;
        ok, reconnected, n := StreamDetection(results[i]);
        CallBalances(l, Books(), results[i], reconnected, n, connected, queue.maxEntries, queue.maxMemoryBytes);
        assert results[..i + 1] == results[..i] + [results[i]];
      }
      assert results[..|results|] == results;
    }

    /** Lazily open the stream and write; any failure leaves the client disconnected with its stream closed. */
    method SendOrDisconnect(result: Item) returns (sent: bool)
      requires queue.Valid() && stub && connected
      modifies this`ticks, this`connected, this`streamOpen, this`written
      ensures sent == connected == streamOpen && ticks >= old(ticks)
      ensures written == if sent then old(written) + [result] else old(written)
      ensures NetworkIsUp(old(ticks)) ==> sent
    {
      if !streamOpen {
        var open := OpenStream();
        if !open {
          connected := false;
          return false;
        }
      }
      sent := Write(result);
      if !sent {
        CloseStream();
        connected := false;
      }
    }
  }

  /** The queue after a drain that delivered n entries: the entry that failed, if any, is now at the tail. */
  function Drained(q: seq<Item>, n: nat): seq<Item>
    requires n <= |q|
  {
    if n == |q| then [] else q[n + 1..] + [q[n]]
  }

  lemma DrainedBag(q: seq<Item>, n: nat)
    requires n <= |q|
    ensures multiset(q[..n]) + multiset(Drained(q, n)) == multiset(q)
  {
    if n < |q| {
      assert q == q[..n] + [q[n]] + q[n + 1..];
    } else {
      assert q[..n] == q;
    }
  }

  /** What waits once the reconnection, if there was one, is done. */
  function Waiting(l: Ledger, reconnected: bool, n: nat): seq<Item>
    requires n <= |l.waiting|
  {
    if reconnected then Drained(l.waiting, n) else l.waiting
  }

  /** n waiting entries, then result, then perhaps the next waiting entry went out; nothing was evicted. */
  predicate Sent(l: Ledger, l': Ledger, result: Item, reconnected: bool, n: nat)
    requires n <= |l.waiting|
  {
    var w, rest := l.written + l.waiting[..n] + [result], Waiting(l, reconnected, n);
    && l'.submitted == l.submitted + [result]
    && l'.evicted == l.evicted
    && if rest == [] then l'.written == w && l'.waiting == []
       else || (l'.written == w + [rest[0]] && l'.waiting == rest[1..])
            || (l'.written == w && l'.waiting == rest[1..] + [rest[0]])
  }

  /** n waiting entries went out and result joined the queue, which evicted its oldest entries if it had to. */
  predicate Spilled(l: Ledger, l': Ledger, result: Item, reconnected: bool, n: nat, maxEntries: nat, maxBytes: nat)
    requires n <= |l.waiting|
  {
    var rest := Waiting(l, reconnected, n);
    var k := Evictions(rest, result, maxEntries, maxBytes);
    l' == Ledger(l.submitted + [result], l.written + l.waiting[..n], rest[k..] + [result], l.evicted + rest[..k])
  }

  /** One call of StreamDetection, as its contract describes it, whatever the network did. */
  ghost predicate Called(l: Ledger, l': Ledger, result: Item, maxEntries: nat, maxBytes: nat) {
    exists reconnected: bool, n: nat :: n <= |l.waiting| && (!reconnected ==> n == 0)
      && (Sent(l, l', result, reconnected, n) || Spilled(l, l', result, reconnected, n, maxEntries, maxBytes))
  }

  lemma RestBag(l: Ledger, reconnected: bool, n: nat)
    requires n <= |l.waiting| && (!reconnected ==> n == 0)
    ensures multiset(l.waiting[..n]) + multiset(Waiting(l, reconnected, n)) == multiset(l.waiting)
  {
    DrainedBag(l.waiting, n);
  }

  lemma SentBalances(l: Ledger, l': Ledger, result: Item, reconnected: bool, n: nat)
    requires n <= |l.waiting| && (!reconnected ==> n == 0) && Balanced(l) && Sent(l, l', result, reconnected, n)
    ensures Balanced(l')
  {
    var rest := Waiting(l, reconnected, n);
    RestBag(l, reconnected, n);
    SentBag(l', l.written + l.waiting[..n] + [result], rest);
  }

  lemma SentBag(l: Ledger, w: seq<Item>, rest: seq<Item>)
    requires if rest == [] then l.written == w && l.waiting == []
             else || (l.written == w + [rest[0]] && l.waiting == rest[1..])
                  || (l.written == w && l.waiting == rest[1..] + [rest[0]])
    ensures multiset(l.written) + multiset(l.waiting) == multiset(w) + multiset(rest)
  {
    if rest != [] {
      assert rest == [rest[0]] + rest[1..];
    }
  }

  lemma SpilledBalances(l: Ledger, l': Ledger, result: Item, reconnected: bool, n: nat, maxEntries: nat, maxBytes: nat)
    requires n <= |l.waiting| && (!reconnected ==> n == 0) && Balanced(l)
    requires Spilled(l, l', result, reconnected, n, maxEntries, maxBytes)
    ensures Balanced(l')
  {
    var rest := Waiting(l, reconnected, n);
    var k := Evictions(rest, result, maxEntries, maxBytes);
    RestBag(l, reconnected, n);
    assert rest == rest[..k] + rest[k..];
  }

  lemma CallBalances(l: Ledger, l': Ledger, result: Item, reconnected: bool, n: nat, sent: bool, maxEntries: nat,
                     maxBytes: nat)
    requires n <= |l.waiting| && (!reconnected ==> n == 0) && Balanced(l)
    requires if sent then Sent(l, l', result, reconnected, n)
        else Spilled(l, l', result, reconnected, n, maxEntries, maxBytes)
    ensures Balanced(l') && l'.submitted == l.submitted + [result]
  {
    if sent {
      SentBalances(l, l', result, reconnected, n);
    } else {
      SpilledBalances(l, l', result, reconnected, n, maxEntries, maxBytes);
    }
  }

  /**
   * The same for the ledgers alone: over any run of calls as the contract describes them, all that was passed in is
   * written, waiting or counted as evicted.
   */
  lemma {:induction false} NothingVanishes(ledgers: seq<Ledger>, results: seq<Item>, maxEntries: nat, maxBytes: nat)
    requires |ledgers| == |results| + 1 && ledgers[0] == Ledger([], [], [], [])
    requires forall i | 0 <= i < |results| :: Called(ledgers[i], ledgers[i + 1], results[i], maxEntries, maxBytes)
    ensures ledgers[|results|].submitted == results && Balanced(ledgers[|results|])
    decreases |results|
  {
    if results != [] {
      var m := |results| - 1;
      NothingVanishes(ledgers[..m + 1], results[..m], maxEntries, maxBytes);
      var l, l' := ledgers[m], ledgers[m + 1];
      assert Called(l, l', results[m], maxEntries, maxBytes);
      var reconnected: bool, n: nat :| n <= |l.waiting| && (!reconnected ==> n == 0)
        && (Sent(l, l', results[m], reconnected, n)
            || Spilled(l, l', results[m], reconnected, n, maxEntries, maxBytes));
      CallBalances(l, l', results[m], reconnected, n, Sent(l, l', results[m], reconnected, n), maxEntries, maxBytes);
    }
  }

  /** A detection that was passed in once is in exactly one of the three places. */
  lemma ExactlyOnePlace(l: Ledger, x: Item)
    requires Balanced(l) && multiset(l.submitted)[x] == 1
    ensures multiset(l.written)[x] + multiset(l.waiting)[x] + multiset(l.evicted)[x] == 1
  {
    assert (multiset(l.written) + multiset(l.waiting) + multiset(l.evicted))[x] == 1;
  }

  /** Why delivery is not first-in first-out: a drain that fails reorders the queue unless at most one entry is left. */
  lemma DrainKeepsOrderIff(q: seq<Item>, n: nat)
    requires n <= |q| && forall i, j | 0 <= i < j < |q| :: q[i] != q[j]
    ensures Drained(q, n) == q[n..] <==> |q| - n <= 1
  {
    if n < |q| {
      assert q[n..][0] == q[n];
      assert |q| - n > 1 ==> Drained(q, n)[0] == q[n + 1];
    }
  }
}
