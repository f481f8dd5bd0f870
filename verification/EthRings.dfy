/** The two descriptor rings of the Ethernet driver and everything that hangs off
    their slots: buffers, DMA mappings and bounce allocations. */
module EthRings {
  import opened Prelude

  const RING: int := 64

  // A buffer, by identity.
  type Skb = int

  function RingNext(index: int): (next: int)
    requires 0 <= index < RING
    ensures 0 <= next < RING
  {
    if index == RING - 1 then 0 else index + 1
  }

  /** How far slot i is from slot base, going forward. */
  function Ahead(base: int, i: int): (d: int)
    requires 0 <= base < RING && 0 <= i < RING
    ensures 0 <= d < RING
  {
    if base <= i then i - base else i - base + RING
  }

  function Wrap(base: int, d: int): (i: int)
    requires 0 <= base < RING && 0 <= d <= RING
    ensures 0 <= i < RING
  {
    if base + d < RING then base + d else base + d - RING
  }

  /** The slots from base on hold the queue in order, and all others are empty. */
  ghost predicate Holds(slots: seq<Option<Skb>>, base: int, queue: seq<Skb>) {
    && |slots| == RING && 0 <= base < RING && |queue| <= RING
    && forall i :: 0 <= i < RING ==>
         slots[i] == if Ahead(base, i) < |queue| then Some(queue[Ahead(base, i)]) else None
  }

  /** Taking the oldest entry and clearing its slot. */
  lemma Taken(slots: seq<Option<Skb>>, base: int, queue: seq<Skb>)
    requires Holds(slots, base, queue) && |queue| > 0
    ensures slots[base] == Some(queue[0])
    ensures Holds(slots[base := None], RingNext(base), queue[1..])
  {
    var after, next := slots[base := None], RingNext(base);
    forall i | 0 <= i < RING
      ensures after[i] == if Ahead(next, i) < |queue| - 1 then Some(queue[1..][Ahead(next, i)]) else None
    {
      if i != base {
        assert Ahead(next, i) == Ahead(base, i) - 1;
      }
    }
  }

  /** Putting a new entry behind the youngest one. */
  lemma Put(slots: seq<Option<Skb>>, base: int, queue: seq<Skb>, skb: Skb)
    requires Holds(slots, base, queue) && |queue| < RING
    ensures Holds(slots[Wrap(base, |queue|) := Some(skb)], base, queue + [skb])
    ensures slots[Wrap(base, |queue|)] == None
  {
    var at := Wrap(base, |queue|);
    assert Ahead(base, at) == |queue|;
  }

  // How many slots are in use.
  ghost function Count<T>(slots: seq<Option<T>>): (n: int)
    ensures 0 <= n <= |slots|
  {
    if |slots| == 0 then 0
    else Count(slots[..|slots| - 1]) + (if slots[|slots| - 1].Some? then 1 else 0)
  }

  lemma {:induction false} CountUpdate<T>(slots: seq<Option<T>>, i: int, v: Option<T>)
    requires 0 <= i < |slots|
    ensures Count(slots[i := v])
         == Count(slots) - (if slots[i].Some? then 1 else 0) + (if v.Some? then 1 else 0)
    decreases |slots|
  {
    var last := |slots| - 1;
    if i == last {
      assert slots[i := v][..last] == slots[..last];
    } else {
      assert slots[i := v][..last] == slots[..last][i := v];
      CountUpdate(slots[..last], i, v);
    }
  }

  lemma {:induction false} CountNone<T>(slots: seq<Option<T>>)
    requires forall i :: 0 <= i < |slots| ==> slots[i] == None
    ensures Count(slots) == 0
    decreases |slots|
  {
    if |slots| > 0 {
      CountNone(slots[..|slots| - 1]);
    }
  }

  // How many slots hold this buffer.
  ghost function Occurs(slots: seq<Option<Skb>>, skb: Skb): (n: int)
    ensures n >= 0
  {
    if slots == [] then 0
    else Occurs(slots[..|slots| - 1], skb) + (if slots[|slots| - 1] == Some(skb) then 1 else 0)
  }

  lemma {:induction false} OccursUpdate(slots: seq<Option<Skb>>, i: int, v: Option<Skb>, skb: Skb)
    requires 0 <= i < |slots|
    ensures Occurs(slots[i := v], skb)
         == Occurs(slots, skb) - (if slots[i] == Some(skb) then 1 else 0) + (if v == Some(skb) then 1 else 0)
    decreases |slots|
  {
    var last := |slots| - 1;
    if i == last {
      assert slots[i := v][..last] == slots[..last];
    } else {
      assert slots[i := v][..last] == slots[..last][i := v];
      OccursUpdate(slots[..last], i, v, skb);
    }
  }

  lemma {:induction false} OccursNone(slots: seq<Option<Skb>>, skb: Skb)
    requires forall i :: 0 <= i < |slots| ==> slots[i] == None
    ensures Occurs(slots, skb) == 0
    decreases |slots|
  {
    if |slots| > 0 {
      OccursNone(slots[..|slots| - 1], skb);
    }
  }

  /** Slots that hold a queue in order hold each of its buffers as often as the queue. */
  lemma {:induction false} HoldsOccurs(slots: seq<Option<Skb>>, base: int, queue: seq<Skb>, skb: Skb)
    requires Holds(slots, base, queue)
    ensures Occurs(slots, skb) == multiset(queue)[skb]
    decreases |queue|
  {
    if queue == [] {
      OccursNone(slots, skb);
    } else {
      Taken(slots, base, queue);
      HoldsOccurs(slots[base := None], RingNext(base), queue[1..], skb);
      OccursUpdate(slots, base, None, skb);
      assert queue == [queue[0]] + queue[1..];
    }
  }

  // Clearing a slot moves its buffer to those that are gone.
  lemma Discarded(slots: seq<Option<Skb>>, i: int, gone: multiset<Skb>, all: multiset<Skb>)
    requires 0 <= i < |slots|
    requires all == gone + if slots[i].Some? then multiset{slots[i].value} else multiset{}
    ensures Count(slots[i := None]) == Count(slots) - if slots[i].Some? then 1 else 0
    ensures forall x :: all[x] + Occurs(slots[i := None], x) == gone[x] + Occurs(slots, x)
  {
    CountUpdate(slots, i, None);
    forall x ensures all[x] + Occurs(slots[i := None], x) == gone[x] + Occurs(slots, x) {
      OccursUpdate(slots, i, None, x);
    }
  }

  lemma HeadAdvances(clean: int, head: int, occupied: int)
    requires 0 <= clean < RING && 0 <= head < RING && Ahead(clean, head) <= occupied <= RING
    requires head != Wrap(clean, occupied)
    ensures Ahead(clean, RingNext(head)) <= occupied
    ensures Ahead(clean, RingNext(head)) == (if Ahead(clean, head) == RING - 1 then 0 else Ahead(clean, head) + 1)
    ensures forall i :: 0 <= i < RING ==>
      (Ahead(clean, i) < Ahead(clean, head) + 1 <==> Ahead(clean, i) < Ahead(clean, head) || i == head)
  {
  }

  lemma OldestLeaves(clean: int, head: int)
    requires 0 <= clean < RING && 0 <= head < RING
    ensures clean != head ==> Ahead(RingNext(clean), head) == Ahead(clean, head) - 1
    ensures forall i :: 0 <= i < RING && i != clean ==> Ahead(RingNext(clean), i) == Ahead(clean, i) - 1
  {
  }

  // A bounce allocation.
  datatype Block = Block

  // The status word of a descriptor.
  datatype Status = Status(done: bool, error: bool, actual: int)

  const NO_STATUS := Status(false, false, 0)

  // What dma_map_single and the address check answer.
  datatype Mapping = Unmapped | Misplaced | Mapped
}
