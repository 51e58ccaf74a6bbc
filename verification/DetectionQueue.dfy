/** The bounded queue that holds detections while the server is out of reach. */
module SpillQueue {

  /** A serialised detection: which one it is, and how many bytes it takes. */
  datatype Item = Item(id: nat, size: nat)

  function Bytes(q: seq<Item>): nat {
    if q == [] then 0 else q[0].size + Bytes(q[1..])
  }

  /** No need to evict before this item: the negated guard of the eviction loop. */
  predicate Room(q: seq<Item>, item: Item, maxEntries: nat, maxBytes: nat) {
    |q| < maxEntries && (Bytes(q) + item.size <= maxBytes || q == [])
  }

  /** How many of the oldest entries the eviction loop drops. */
  function Evictions(q: seq<Item>, item: Item, maxEntries: nat, maxBytes: nat): (k: nat)
    ensures k <= |q|
  {
    if q == [] || Room(q, item, maxEntries, maxBytes) then 0 else 1 + Evictions(q[1..], item, maxEntries, maxBytes)
  }

  /** bytes is the size of q, q is not too long, and it is too big only as a single entry. */
  predicate Bounded(q: seq<Item>, bytes: int, maxEntries: nat, maxBytes: nat) {
    bytes == Bytes(q) && |q| <= maxEntries && (bytes > maxBytes ==> |q| == 1)
  }

  /** q is all that came in but for the first entries, which are gone. */
  predicate IsTail(everything: seq<Item>, gone: nat, q: seq<Item>) {
    gone + |q| == |everything| && q == everything[gone..]
  }

  lemma FrontGoes(everything: seq<Item>, gone: nat, q: seq<Item>, bytes: int, maxEntries: nat, maxBytes: nat)
    requires q != [] && IsTail(everything, gone, q) && Bounded(q, bytes, maxEntries, maxBytes)
    ensures IsTail(everything, gone + 1, q[1..]) && Bounded(q[1..], bytes - q[0].size, maxEntries, maxBytes)
  {
  }

  lemma TailGrows(everything: seq<Item>, gone: nat, q: seq<Item>, bytes: int, item: Item, maxEntries: nat,
                  maxBytes: nat)
    requires IsTail(everything, gone, q) && Bounded(q, bytes, maxEntries, maxBytes)
    requires Room(q, item, maxEntries, maxBytes)
    ensures IsTail(everything + [item], gone, q + [item])
    ensures Bounded(q + [item], bytes + item.size, maxEntries, maxBytes)
  {
    BytesSnoc(q, item);
  }

  /** One turn of the eviction loop, k entries into q. */
  lemma EvictionsStep(q: seq<Item>, k: nat, item: Item, maxEntries: nat, maxBytes: nat)
    requires k < |q| && !Room(q[k..], item, maxEntries, maxBytes)
    ensures q[k..][1..] == q[k + 1..] && q[..k + 1] == q[..k] + [q[k]]
    ensures Evictions(q[k..], item, maxEntries, maxBytes) == 1 + Evictions(q[k + 1..], item, maxEntries, maxBytes)
  {
    assert q[k..][1..] == q[k + 1..];
  }

  class DetectionQueue {
    const maxEntries: nat
    const maxMemoryBytes: nat
    var queue: seq<Item>
    var currentBytes: int
    var enqueued: nat
    var dropped: nat
    ghost var everything: seq<Item>
    ghost var evicted: seq<Item>
    ghost var taken: seq<Item>

    ghost predicate Valid()
      reads this
    {
      && Bounded(queue, currentBytes, maxEntries, maxMemoryBytes)
      && IsTail(everything, |taken| + |evicted|, queue)
      && enqueued == |everything| && dropped == |evicted|
    }

    constructor (maxEntries: nat, maxMemoryBytes: nat)
      ensures Valid() && queue == everything == evicted == taken == []
      ensures this.maxEntries == maxEntries && this.maxMemoryBytes == maxMemoryBytes
    {
      this.maxEntries := maxEntries;
      this.maxMemoryBytes := maxMemoryBytes;
      queue, everything, evicted, taken := [], [], [], [];
      currentBytes, enqueued, dropped := 0, 0, 0;
    }

    /** serializes says whether the detection could be serialised; hangs says that the call never returns. */
    method Enqueue(item: Item, serializes: bool) returns (hangs: bool, ok: bool)
      requires Valid()
      modifies this
      ensures Valid() && ok == (serializes && !hangs) && (hangs <==> serializes && maxEntries == 0)
      ensures ok ==> var k := Evictions(old(queue), item, maxEntries, maxMemoryBytes);
        queue == old(queue)[k..] + [item] && evicted == old(evicted) + old(queue)[..k]
      ensures ok ==> everything == old(everything) + [item]
      ensures !ok ==> queue == old(queue) && evicted == old(evicted) && everything == old(everything)
      ensures taken == old(taken)
    {
      if !serializes {
        return false, false;
      }
      hangs := MakeRoom(item);
      if hangs {
        return true, false;
      }
      TailGrows(everything, |taken| + |evicted|, queue, currentBytes, item, maxEntries, maxMemoryBytes);
      queue := queue + [item];
      currentBytes := currentBytes + item.size;
      enqueued := enqueued + 1;
      everything := everything + [item];
      return false, true;
    }

    /** The eviction loop of Enqueue; a turn that finds nothing to evict changes nothing, so the next is like it. */
    method MakeRoom(item: Item) returns (hangs: bool)
      requires Valid()
      modifies this
      ensures Valid() && (hangs <==> maxEntries == 0)
      ensures !hangs ==> Room(queue, item, maxEntries, maxMemoryBytes)
      ensures var k := Evictions(old(queue), item, maxEntries, maxMemoryBytes);
        queue == old(queue)[k..] && evicted == old(evicted) + old(queue)[..k]
      ensures everything == old(everything) && taken == old(taken)
    {
      ghost var q, k := queue, 0;
      while |queue| >= maxEntries || (currentBytes + item.size > maxMemoryBytes && queue != [])
        invariant Valid()
        invariant k <= |q| && queue == q[k..] && evicted == old(evicted) + q[..k]
        invariant k + Evictions(queue, item, maxEntries, maxMemoryBytes)
            == Evictions(q, item, maxEntries, maxMemoryBytes)
        invariant everything == old(everything) && taken == old(taken)
        decreases |queue|
      {
        if queue == [] {
          return true;
        }
        EvictionsStep(q, k, item, maxEntries, maxMemoryBytes);
        EvictOldest();
        k := k + 1;
      }
      return false;
    }

    method EvictOldest()
      requires Valid()
      modifies this
      ensures Valid()
      ensures if old(queue) == [] then queue == [] && evicted == old(evicted)
              else queue == old(queue)[1..] && evicted == old(evicted) + [old(queue)[0]]
      ensures everything == old(everything) && taken == old(taken)
    {
      if queue == [] {
        return;
      }
      FrontGoes(everything, |taken| + |evicted|, queue, currentBytes, maxEntries, maxMemoryBytes);
      currentBytes := currentBytes - queue[0].size;
      evicted := evicted + [queue[0]];
      queue := queue[1..];
      dropped := dropped + 1;
    }

    /** parses says whether the front entry can be read back; it leaves the queue either way. */
    method Dequeue(parses: bool) returns (ok: bool, item: Item)
      requires Valid()
      modifies this
      ensures Valid() && ok == (old(queue) != [] && parses)
      ensures ok ==> item == old(queue)[0]
      ensures if old(queue) == [] then queue == [] && taken == old(taken)
              else queue == old(queue)[1..] && taken == old(taken) + [old(queue)[0]]
      ensures evicted == old(evicted) && everything == old(everything)
    {
      if queue == [] {
        return false, Item(0, 0);
      }
      FrontGoes(everything, |taken| + |evicted|, queue, currentBytes, maxEntries, maxMemoryBytes);
      var front := queue[0];
      currentBytes := currentBytes - front.size;
      taken := taken + [front];
      queue := queue[1..];
      if !parses {
        return false, Item(0, 0);
      }
      return true, front;
    }

    method Empty() returns (empty: bool)
      ensures empty == (queue == [])
    {
      empty := queue == [];
    }
  }

  // ----- what eviction keeps -----

  lemma {:induction false} BytesSnoc(q: seq<Item>, item: Item)
    ensures Bytes(q + [item]) == Bytes(q) + item.size
  {
    if q != [] {
      assert (q + [item])[1..] == q[1..] + [item];
      BytesSnoc(q[1..], item);
    } else {
      assert q + [item] == [item];
    }
  }

  lemma {:induction false} BytesOfSuffix(q: seq<Item>, k: nat)
    requires k <= |q|
    ensures Bytes(q[k..]) <= Bytes(q)
  {
    if k > 0 {
      assert q[k..] == q[1..][k - 1..];
      BytesOfSuffix(q[1..], k - 1);
    }
  }

  /** No more entries than allowed, and no more bytes unless it is a single entry. */
  predicate Holdable(q: seq<Item>, maxEntries: nat, maxBytes: nat) {
    |q| <= maxEntries && (Bytes(q) <= maxBytes || |q| <= 1)
  }

  lemma RoomIff(q: seq<Item>, item: Item, maxEntries: nat, maxBytes: nat)
    ensures Room(q, item, maxEntries, maxBytes) <==> Holdable(q + [item], maxEntries, maxBytes)
  {
    BytesSnoc(q, item);
  }

  /** What survives is the longest old suffix that the queue can hold with the newcomer; it can hold no longer one. */
  lemma {:induction false} KeepsLongestSuffix(q: seq<Item>, item: Item, maxEntries: nat, maxBytes: nat)
    requires maxEntries >= 1
    ensures var k := Evictions(q, item, maxEntries, maxBytes);
      Holdable(q[k..] + [item], maxEntries, maxBytes)
      && forall j | 0 <= j < k :: !Holdable(q[j..] + [item], maxEntries, maxBytes)
  {
    var k := Evictions(q, item, maxEntries, maxBytes);
    RoomIff(q, item, maxEntries, maxBytes);
    assert q[0..] == q;
    if k > 0 {
      KeepsLongestSuffix(q[1..], item, maxEntries, maxBytes);
      assert q[k..] == q[1..][k - 1..];
      forall j | 0 <= j < k ensures !Holdable(q[j..] + [item], maxEntries, maxBytes) {
        assert j > 0 ==> q[j..] == q[1..][j - 1..];
      }
    }
  }

  /** Room only grows as older entries go, so no kept entry could have been spared at the cost of an older one. */
  lemma RoomMonotone(q: seq<Item>, item: Item, maxEntries: nat, maxBytes: nat, j: nat)
    requires j <= |q| && Holdable(q + [item], maxEntries, maxBytes)
    ensures Holdable(q[j..] + [item], maxEntries, maxBytes)
  {
    BytesOfSuffix(q, j);
    BytesSnoc(q, item);
    BytesSnoc(q[j..], item);
  }

  /** Putting an entry that was just taken out back in at the tail never evicts anything. */
  lemma RequeueNeverEvicts(q: seq<Item>, maxEntries: nat, maxBytes: nat)
    requires q != [] && |q| <= maxEntries && (Bytes(q) > maxBytes ==> |q| == 1)
    ensures Evictions(q[1..], q[0], maxEntries, maxBytes) == 0
  {
  }

  /** Eviction is lossless exactly when the queue can hold the newcomer besides all it has. */
  lemma NothingEvictedIff(q: seq<Item>, item: Item, maxEntries: nat, maxBytes: nat)
    requires maxEntries >= 1
    ensures Evictions(q, item, maxEntries, maxBytes) == 0 <==> Holdable(q + [item], maxEntries, maxBytes)
  {
    RoomIff(q, item, maxEntries, maxBytes);
  }

  /** With no entries allowed even an empty queue has no room: the guard of the loop never turns false. */
  lemma ZeroCapacityNeverHasRoom(item: Item, maxBytes: nat)
    ensures forall q :: !Room(q, item, 0, maxBytes)
  {
  }
}
