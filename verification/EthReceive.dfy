/** The receive half of the driver's private structure, updated in place. Every method is
    proved equal to a function of EthRx on the state it finds, for every answer of the
    environment; what the driver promises is proved there, about all histories. */
module EthReceive {
  import opened Prelude
  import opened EthRings
  import opened EthRx

  /** rx_skb, the status words of rx_ring, the two indices, RX_TAIL, the engine's next
      descriptor, two counters of the network device, and how many buffers have been
      allocated. The ghost fields are as in the specification. */
  class Receiver {
    const skbs: array<Option<Skb>>
    const desc: array<Status>
    var cons: int
    var prod: int
    var tail: int
    var next: int
    var issued: nat
    var errors: int
    var dropped: int
    var on: bool
    var writing: bool
    ghost var maps: int
    ghost var queue: seq<Skb>
    ghost var posted: seq<Skb>
    ghost var consumed: seq<Skb>
    ghost var delivered: seq<Frame>
    ghost var freed: seq<Skb>
    ghost var reposts: int
    ghost var failures: int
    ghost var stale: bool

    ghost predicate Sized() {
      skbs.Length == RING && desc.Length == RING
    }

    ghost function State(): Rx
      reads this, skbs, desc
    {
      Rx(skbs[..], desc[..], cons, prod, tail, next, maps, issued, queue, posted, consumed, delivered, freed,
         errors, dropped, reposts, failures, stale, on, writing)
    }

    constructor ()
      ensures Sized() && fresh(skbs) && fresh(desc)
      ensures maps == 0 && skbs[..] == Placed(0)
    {
      skbs := new Option<Skb>[RING](i => None);
      desc := new Status[RING](i => NO_STATUS);
      cons, prod, tail, next, issued, errors, dropped := 0, 0, 0, 0, 0, 0, 0;
      maps, queue, posted, consumed, delivered, freed := 0, [], [], [], [], [];
      reposts, failures, stale, on, writing := 0, 0, false, false, false;
    }

    // One step of the engine.
    method Step(move: Move)
      requires Sized() && Shape(State())
      modifies `next, `writing, desc
      ensures State() == Device(old(State()), move)
    {
      ghost var before := State();
      match move {
        case Take =>
          if on && next != tail {
            writing := true;
          }
        case WriteBack(error, actual) =>
          if writing {
            desc[next] := Status(true, error, actual);
            next, writing := RingNext(next), false;
            assert desc[..] == before.desc[before.next := Status(true, error, actual)];
          }
      }
    }

    // What the engine does while the driver is about to read a descriptor.
    method Engine(moves: seq<Move>)
      requires Sized() && Shape(State())
      modifies `next, `writing, desc
      ensures State() == Moves(old(State()), moves)
    {
      ghost var start := State();
      assert moves[..0] == [];
      for i := 0 to |moves|
        invariant State() == Moves(start, moves[..i])
      {
        assert moves[..i + 1][..i] == moves[..i];
        Step(moves[i]);
      }
      assert moves[..|moves|] == moves;
    }

    method Allocate(memory: bool) returns (skb: Option<Skb>)
      modifies `issued
      ensures issued == old(issued) + (if memory then 1 else 0)
      ensures skb == if memory then Some(old(issued)) else None
    {
      if memory {
        skb, issued := Some(issued), issued + 1;
      } else {
        skb := None;
      }
    }

    // Maps the buffer and writes it into the slot and the descriptor.
    method PostBuffer(index: int, skb: Skb, mapping: Mapping) returns (ok: bool)
      requires Sized() && 0 <= index < RING
      modifies `maps, skbs, desc
      ensures ok <==> mapping == Mapped
      ensures skbs[..] == if ok then old(skbs[..])[index := Some(skb)] else old(skbs[..])
      ensures desc[..] == if ok then old(desc[..])[index := NO_STATUS] else old(desc[..])
      ensures maps == old(maps) + if ok then 1 else 0
    {
      maps := maps + if mapping == Unmapped then 0 else 1;
      if mapping != Mapped {
        maps := maps - if mapping == Unmapped then 0 else 1;
        return false;
      }
      skbs[index] := Some(skb);
      desc[index] := NO_STATUS;
      return true;
    }

    // The buffer of the oldest descriptor leaves the ring.
    method Take() returns (skb: Skb)
      requires Sized() && Shape(State()) && skbs[cons].Some?
      modifies `cons, `maps, `queue, `consumed, skbs
      ensures State() == Consume(old(State()), skb) && Some(skb) == old(skbs[cons])
    {
      ghost var before := State();
      var index := cons;
      skb := skbs[index].value;
      skbs[index] := None;
      maps := maps - 1;
      consumed, queue := consumed + [skb], Tail(queue);
      cons := RingNext(index);
      assert skbs[..] == before.slots[index := None];
    }

    method Settle(skb: Skb, status: Status, first: bool, second: bool, ghost turn: Turn) returns (back: Option<Skb>)
      requires turn.first == first && turn.second == second
      modifies `issued, `errors, `dropped, `freed, `delivered
      ensures (State(), back) == Dispose(old(State()), skb, status, turn)
    {
      back := Allocate(first);
      if status.error || status.actual > BUFFER {
        errors := errors + 1;
        freed := freed + [skb];
      } else if back.Some? {
        delivered := delivered + [Frame(skb, status.actual)];
      } else {
        dropped := dropped + 1;
        back := Some(skb);
      }
      if back.None? {
        back := Allocate(second);
      }
    }

    // The slot is lost, and zero is written to CTRL.
    method Lose(back: Option<Skb>)
      modifies `failures, `dropped, `freed, `on
      ensures State() == Fail(old(State()), back)
    {
      dropped := dropped + 1;
      if back.Some? {
        freed := freed + [back.value];
      }
      failures, on := failures + 1, false;
      assert State().freed == old(State()).freed + if back.Some? then [back.value] else [];
    }

    // The buffer goes back into the ring, or its slot is lost.
    method Repost(back: Option<Skb>, mapping: Mapping) returns (ok: bool)
      requires Sized() && Shape(State())
      modifies `prod, `maps, `queue, `posted, `reposts, `failures, `dropped, `freed, `on, skbs, desc
      ensures ok <==> back.Some? && mapping == Mapped
      ensures State() == if ok then Post(old(State()), back.value) else Fail(old(State()), back)
    {
      ok := false;
      if back.Some? {
        ok := PostBuffer(prod, back.value, mapping);
      }
      if ok {
        queue, posted, reposts := queue + [back.value], posted + [back.value], reposts + 1;
        prod := RingNext(prod);
      } else {
        Lose(back);
      }
    }

    // One turn of the poll loop.
    method PollOne(turn: Turn) returns (verdict: Verdict)
      requires Sized() && Shape(State())
      modifies this, skbs, desc
      ensures (State(), verdict) == One(old(State()), turn)
    {
      var index := cons;
      var status := desc[index];
      if !status.done {
        return Nothing;
      }
      if skbs[index].None? {
        stale := true;
        return Stale;
      }
      var skb := Take();
      var back := Settle(skb, status, turn.first, turn.second, turn);
      var ok := Repost(back, turn.mapping);
      verdict := if ok then Reposted else Failed;
    }

    /** The poll loop, whatever the allocator and the DMA layer answer and whatever the
        engine does meanwhile. */
    method RxPoll(budget: nat, turns: int -> Turn) returns (work: int)
      requires Sized() && Shape(State())
      modifies this, skbs, desc
      ensures (State(), work) == Poll(old(State()), budget, turns)
    {
      var advanced := false;
      work, advanced := PollLoop(budget, turns);
      if advanced {
        tail := prod;
      }
    }

    // One turn with what the engine does just before it.
    method PollNext(turn: Turn) returns (verdict: Verdict)
      requires Sized() && Shape(State())
      modifies this, skbs, desc
      ensures (State(), verdict) == EthRx.Step(old(State()), turn)
    {
      Engine(turn.moves);
      verdict := PollOne(turn);
    }

    method PollLoop(budget: nat, turns: int -> Turn) returns (work: int, advanced: bool)
      requires Sized() && Shape(State())
      modifies this, skbs, desc
      ensures (State(), work, advanced) == Loop(old(State()), 0, false, budget, turns)
    {
      work, advanced := 0, false;
      ghost var end := Loop(State(), work, advanced, budget, turns);
      while work < budget
        invariant Shape(State()) && Loop(State(), work, advanced, budget, turns) == end
        decreases budget - work
      {
        var verdict := PollNext(turns(work));
        if verdict == Reposted || verdict == Failed {
          work := work + 1;
        }
        if verdict != Reposted {
          break;
        }
        advanced := true;
      }
    }

    // Frees one slot of the ring for good.
    method Discard(index: int, ghost gone: multiset<Skb>) returns (ghost all: multiset<Skb>)
      requires Sized() && 0 <= index < RING
      modifies `maps, skbs
      ensures skbs[..] == old(skbs[..])[index := None]
      ensures maps - Count(skbs[..]) == old(maps - Count(skbs[..]))
      ensures forall x :: all[x] + Occurs(skbs[..], x) == gone[x] + Occurs(old(skbs[..]), x)
    {
      all := gone;
      ghost var before := skbs[..];
      if skbs[index].Some? {
        maps := maps - 1;
        all := gone + multiset{skbs[index].value};
        skbs[index] := None;
      }
      Discarded(before, index, gone, all);
      assert skbs[..] == before[index := None];
    }

    // The first n buffers have been posted into a cleared ring.
    ghost predicate Filling(n: int)
      requires 0 <= n <= POSTED
      reads this, skbs, desc
    {
      State() == Rx(Placed(n), EthRx.Clear(), 0, POSTED, tail, next, n, n, Numbers(n), Numbers(n), [], [], [],
                    0, 0, 0, 0, false, on, writing)
    }

    method ClearDescriptors()
      requires Sized()
      modifies desc
      ensures desc[..] == EthRx.Clear()
    {
      for i := 0 to RING
        invariant forall k :: 0 <= k < i ==> desc[k] == NO_STATUS
      {
        desc[i] := NO_STATUS;
      }
    }

    // A cleared ring, with a new record and the counters taken from here.
    method Clear()
      requires Sized() && skbs[..] == Placed(0) && maps == 0
      modifies `cons, `prod, `issued, `errors, `dropped, `queue, `posted, `consumed, `delivered, `freed,
        `reposts, `failures, `stale, desc
      ensures Filling(0)
    {
      ClearDescriptors();
      cons, prod, issued, errors, dropped := 0, POSTED, 0, 0, 0;
      queue, posted, consumed, delivered, freed := [], [], [], [], [];
      reposts, failures, stale := 0, 0, false;
    }

    /** Posts one buffer while the ring is being filled; on failure the buffer, if there
        was one, is freed. */
    method PostFirst(n: int, memory: bool, mapping: Mapping) returns (ok: bool)
      requires Sized() && 0 <= n < POSTED && Filling(n)
      modifies `issued, `maps, `queue, `posted, `freed, skbs, desc
      ensures ok <==> memory && mapping == Mapped
      ensures if ok then Filling(n + 1) else skbs[..] == old(skbs[..]) && maps == old(maps)
    {
      var skb := Allocate(memory);
      if skb.None? {
        return false;
      }
      ok := PostBuffer(n, skb.value, mapping);
      if !ok {
        freed := freed + [skb.value];
        return;
      }
      queue, posted := queue + [skb.value], posted + [skb.value];
      assert queue == Numbers(n + 1);
      assert skbs[..] == Placed(n + 1);
      assert desc[..] == EthRx.Clear();
    }

    // Posts 63 buffers, or stops at the first that cannot be had or mapped.
    method FillSlots(memory: int -> bool, mapping: int -> Mapping) returns (ok: bool, ghost n: int)
      requires Sized() && Filling(0)
      modifies `issued, `maps, `queue, `posted, `freed, skbs, desc
      ensures ok <==> Granted(memory, mapping)
      ensures 0 <= n <= POSTED && skbs[..] == Placed(n) && maps == n && (ok ==> n == POSTED && Filling(n))
    {
      for i := 0 to POSTED
        invariant Filling(i)
        invariant forall k :: 0 <= k < i ==> memory(k) && mapping(k) == Mapped
      {
        ok := PostFirst(i, memory(i), mapping(i));
        if !ok {
          return false, i;
        }
      }
      return true, POSTED;
    }
  }
}
