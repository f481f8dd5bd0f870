/** The transmit half of the driver's private structure, updated in place. Every method is
    proved equal to a function of EthTx on the state it finds, for every answer of the
    environment; what the driver promises is proved there, about all histories. */
module EthTransmit {
  import opened Prelude
  import opened EthRings
  import opened EthTx

  /** tx_skb, tx_bounce_alloc, the status words of tx_ring, the two indices, TX_HEAD and
      the stopped flag of the network queue. The ghost fields are what the kernel holds
      for the driver, and the record of buffers. */
  class Transmitter {
    const skbs: array<Option<Skb>>
    const blocks: array<Option<Block>>
    const desc: array<Status>
    var prod: int
    var clean: int
    var head: int
    var stopped: bool
    ghost var maps: int
    ghost var bounces: int
    ghost var pending: int
    ghost var queue: seq<Skb>
    ghost var accepted: seq<Skb>
    ghost var released: seq<Skb>

    ghost predicate Sized() {
      skbs.Length == RING && blocks.Length == RING && desc.Length == RING
    }

    ghost function State(): Tx
      reads this, skbs, blocks, desc
    {
      Tx(skbs[..], blocks[..], desc[..], prod, clean, head, stopped, maps, bounces, pending, queue, accepted, released)
    }

    constructor ()
      ensures Sized() && State() == Empty() && fresh(skbs) && fresh(blocks) && fresh(desc)
    {
      skbs := new Option<Skb>[RING](i => None);
      blocks := new Option<Block>[RING](i => None);
      desc := new Status[RING](i => NO_STATUS);
      prod, clean, head, stopped := 0, 0, 0, false;
      maps, bounces, pending, queue, accepted, released := 0, 0, 0, [], [], [];
      new;
      assert skbs[..] == Empty().slots;
      assert blocks[..] == Empty().blocks;
      assert desc[..] == Empty().desc;
    }

    // What the engine does while the driver is about to read a register.
    method Engine(moves: seq<Move>)
      requires Sized() && Shape(State())
      modifies `head, desc
      ensures State() == Moves(old(State()), moves)
    {
      ghost var start := State();
      assert moves[..0] == [];
      for i := 0 to |moves|
        invariant State() == Moves(start, moves[..i])
      {
        assert moves[..i + 1][..i] == moves[..i];
        ghost var before := State();
        if head != prod {
          match moves[i] {
            case WriteDone(error) => desc[head] := Status(true, error, 0);
            case AdvanceHead =>
              if desc[head].done {
                head := RingNext(head);
              }
          }
        }
        assert State() == Device(before, moves[i]);
      }
      assert moves[..|moves|] == moves;
    }

    // The oldest buffer goes back to the kernel.
    method Release(index: int)
      requires Sized() && Shape(State()) && index == clean
      modifies `clean, `maps, `bounces, `queue, `released, skbs, blocks, desc
      ensures State() == ReleaseOldest(old(State()))
    {
      ghost var before := State();
      var skb := skbs[index];
      maps := maps - 1;
      released, queue := released + Buffer(skb), Rest(queue);
      bounces := bounces - 1;
      skbs[index], blocks[index], desc[index] := None, None, NO_STATUS;
      clean := RingNext(index);
      assert skbs[..] == before.slots[index := None];
      assert blocks[..] == before.blocks[index := None];
      assert desc[..] == before.desc[index := NO_STATUS];
    }

    // The reclaim loop; what the engine does meanwhile is put after it, since the loop
    // uses its one reading of TX_HEAD and the slots before that are the driver's.
    method ReclaimPassed()
      requires Sized() && Shape(State())
      modifies `clean, `maps, `bounces, `queue, `released, skbs, blocks, desc
      ensures State() == EthTx.Reclaim(old(State()))
    {
      ghost var start := State();
      var seen := head;
      while clean != seen
        invariant Shape(State()) && head == seen && EthTx.Reclaim(State()) == EthTx.Reclaim(start)
        decreases Ahead(clean, seen)
      {
        var index := clean;
        if !desc[index].done {
          break;
        }
        OldestLeaves(clean, seen);
        Release(index);
      }
    }

    /** Reclaims what TX_HEAD has passed, and wakes the queue if there is room. */
    method Reclaim(wake: seq<Move>)
      requires Sized() && Shape(State())
      modifies `clean, `head, `stopped, `maps, `bounces, `queue, `released, skbs, blocks, desc
      ensures State() == ReclaimAndWake(old(State()), wake)
    {
      ReclaimPassed();
      Engine(wake);
      if stopped && RingNext(prod) != head {
        stopped := false;
      }
    }

    // The buffer enters the ring.
    method Enter(skb: Skb)
      requires Sized() && Shape(State())
      modifies `prod, `pending, `queue, `accepted, skbs, blocks, desc
      ensures State() == Enqueue(old(State()), skb)
    {
      ghost var before := State();
      var index := prod;
      skbs[index], blocks[index] := Some(skb), Some(Block);
      desc[index] := NO_STATUS;
      prod := RingNext(index);
      pending, queue, accepted := pending - 1, queue + [skb], accepted + [skb];
      assert skbs[..] == before.slots[index := Some(skb)];
      assert blocks[..] == before.blocks[index := Some(Block)];
      assert desc[..] == before.desc[index := NO_STATUS];
    }

    /** A transmit call, whatever the allocator and the DMA layer answer and whatever the
        engine does meanwhile. */
    method StartXmit(packet: Packet, memory: bool, mapping: Mapping, w: Timing) returns (outcome: Outcome)
      requires Sized() && Shape(State())
      modifies this, skbs, blocks, desc
      ensures (State(), outcome) == Xmit(old(State()), packet, memory, mapping, w)
    {
      if !packet.linear || packet.length > 1536 {
        return Dropped;
      }
      if !memory {
        return NoMemory;
      }
      bounces := bounces + 1;
      maps := maps + if mapping == Unmapped then 0 else 1;
      if mapping != Mapped {
        maps := maps - if mapping == Unmapped then 0 else 1;
        bounces := bounces - 1;
        return Dropped;
      }
      pending := pending + 1;
      assert State() == WithMapping(old(State()));
      Engine(w.first);
      outcome := Place(packet.skb, w);
    }

    // A full ring: the packet stays with the caller.
    method TurnAway()
      requires Sized()
      modifies `stopped, `maps, `bounces, `pending
      ensures var t := old(State());
        State() == t.(stopped := true, maps := t.maps - 1, bounces := t.bounces - 1, pending := t.pending - 1)
    {
      stopped := true;
      maps, bounces, pending := maps - 1, bounces - 1, pending - 1;
    }

    method Accept(skb: Skb, third: seq<Move>)
      requires Sized() && Shape(State())
      modifies this, skbs, blocks, desc
      ensures State() == Stop(Moves(Enqueue(old(State()), skb), third))
    {
      Enter(skb);
      Engine(third);
      if RingNext(prod) == head {
        stopped := true;
      }
    }

    // The fullness test and what follows from it.
    method Decide(skb: Skb, third: seq<Move>) returns (outcome: Outcome)
      requires Sized() && Shape(State())
      modifies this, skbs, blocks, desc
      ensures (State(), outcome) == EthTx.Place(old(State()), skb, third)
    {
      if RingNext(prod) == head {
        TurnAway();
        outcome := RingFull;
      } else {
        Accept(skb, third);
        outcome := Accepted;
      }
    }

    // The part of a transmit call under the lock.
    method Place(skb: Skb, w: Timing) returns (outcome: Outcome)
      requires Sized() && Shape(State())
      modifies this, skbs, blocks, desc
      ensures (State(), outcome) == Locked(old(State()), skb, w)
    {
      Reclaim(w.wake);
      Engine(w.second);
      outcome := Decide(skb, w.third);
    }

    /** Frees one slot of the ring for good; freeing no bounce buffer does nothing. */
    method Discard(index: int, ghost gone: multiset<Skb>) returns (ghost all: multiset<Skb>)
      requires Sized() && 0 <= index < RING
      modifies `maps, `bounces, skbs, blocks
      ensures skbs[..] == old(skbs[..])[index := None] && blocks[..] == old(blocks[..])[index := None]
      ensures maps - Count(skbs[..]) == old(maps - Count(skbs[..]))
      ensures bounces - Count(blocks[..]) == old(bounces - Count(blocks[..]))
      ensures forall x :: all[x] + Occurs(skbs[..], x) == gone[x] + Occurs(old(skbs[..]), x)
    {
      all := gone;
      ghost var before, buffers := skbs[..], blocks[..];
      if skbs[index].Some? {
        maps := maps - 1;
        all := gone + multiset{skbs[index].value};
        skbs[index] := None;
      }
      if blocks[index].Some? {
        bounces := bounces - 1;
      }
      blocks[index] := None;
      Discarded(before, index, gone, all);
      CountUpdate(buffers, index, None);
      assert skbs[..] == before[index := None] && blocks[..] == buffers[index := None];
    }

    // A cleared ring, with a new record.
    method Clear()
      requires Sized() && skbs[..] == Empty().slots && blocks[..] == Empty().blocks
      modifies `prod, `clean, `queue, `accepted, `released, desc
      ensures State()
           == Empty().(head := head, stopped := stopped, maps := maps, bounces := bounces, pending := pending)
    {
      for i := 0 to RING
        invariant forall k :: 0 <= k < i ==> desc[k] == NO_STATUS
      {
        desc[i] := NO_STATUS;
      }
      assert desc[..] == Empty().desc;
      prod, clean := 0, 0;
      queue, accepted, released := [], [], [];
    }
  }
}
