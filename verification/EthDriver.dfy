/** Opening, running and closing the device: both rings together, and the account of
    every DMA mapping and bounce buffer at every call boundary. The rings are those of
    EthTransmit and EthReceive, their invariants those of EthTx and EthRx, and engine
    activity between calls is part of the model. */
module EthDriver {
  import opened Prelude
  import opened EthRings
  import opened EthTransmit
  import opened EthReceive
  import EthTx
  import EthRx

  datatype OpenResult = Opened | Busy | TimedOut | NoRings

  // Both rings are in order.
  ghost predicate Works(t: EthTx.Tx, r: EthRx.Rx) {
    EthTx.Inv(t) && EthRx.Rest(r)
  }

  // No slot is occupied, and only calls under way hold anything.
  ghost predicate Bare(t: EthTx.Tx, r: EthRx.Rx) {
    && t.slots == EthTx.Empty().slots && t.blocks == EthTx.Empty().blocks && r.slots == EthRx.Placed(0)
    && t.maps == t.bounces == t.pending && r.maps == 0
  }

  // The account of mappings and bounce buffers.
  ghost predicate Balanced(t: EthTx.Tx, r: EthRx.Rx) {
    && t.maps == Count(t.slots) + t.pending && t.bounces == Count(t.blocks) + t.pending && r.maps == Count(r.slots)
  }

  lemma WorksBalanced(t: EthTx.Tx, r: EthRx.Rx)
    requires Works(t, r)
    ensures Balanced(t, r)
  {
  }

  lemma BareBalanced(t: EthTx.Tx, r: EthRx.Rx)
    requires Bare(t, r)
    ensures Balanced(t, r)
  {
    CountNone(t.slots);
    CountNone(t.blocks);
    CountNone(r.slots);
  }

  lemma FreshWorks()
    ensures Works(EthTx.Empty(), EthRx.Filled())
  {
    EthTx.EmptyGood();
    EthRx.FilledRest();
  }

  class Driver {
    const tx: Transmitter
    const rx: Receiver
    var txRing: bool    // tx_ring is not NULL
    var rxRing: bool    // rx_ring is not NULL

    ghost predicate Sized() {
      && tx.Sized() && rx.Sized() && tx.skbs != rx.skbs && tx.desc != rx.desc
    }

    /** Every outstanding mapping belongs to an occupied slot of one of the rings or to a
        transmit call under way, and so does every bounce buffer. */
    ghost predicate Accounted()
      reads tx, tx.skbs, tx.blocks, rx, rx.skbs
    {
      && tx.maps == Count(tx.skbs[..]) + tx.pending
      && tx.bounces == Count(tx.blocks[..]) + tx.pending
      && rx.maps == Count(rx.skbs[..])
    }

    /** Between calls the device either runs on two rings in order or holds nothing. */
    ghost predicate Coherent()
      reads this, tx, tx.skbs, tx.blocks, tx.desc, rx, rx.skbs, rx.desc
    {
      && txRing == rxRing
      && if txRing then Works(tx.State(), rx.State()) else Bare(tx.State(), rx.State())
    }

    constructor ()
      ensures Sized() && Coherent() && !txRing
    {
      tx := new Transmitter();
      rx := new Receiver();
      txRing, rxRing := false, false;
      new;
    }

    /** The number of mappings and bounce buffers, in every state between calls. */
    lemma CoherentAccounted()
      requires Coherent()
      ensures Accounted()
    {
      if txRing {
        WorksBalanced(tx.State(), rx.State());
      } else {
        BareBalanced(tx.State(), rx.State());
      }
    }

    /** Frees both rings and every buffer in them, each once, however far their filling
        had got. */
    method FreeRings() returns (ghost fromTx: multiset<Skb>, ghost fromRx: multiset<Skb>)
      requires Sized() && Accounted()
      modifies `txRing, `rxRing, tx`maps, tx`bounces, rx`maps, tx.skbs, tx.blocks, rx.skbs
      ensures !txRing && !rxRing && Bare(tx.State(), rx.State())
      ensures forall x :: fromTx[x] == Occurs(old(tx.skbs[..]), x) && fromRx[x] == Occurs(old(rx.skbs[..]), x)
    {
      fromTx, fromRx := multiset{}, multiset{};
      for index := 0 to RING
        invariant Accounted()
        invariant forall k :: 0 <= k < index ==>
          tx.skbs[..][k] == None && tx.blocks[..][k] == None && rx.skbs[..][k] == None
        invariant forall x :: fromTx[x] + Occurs(tx.skbs[..], x) == Occurs(old(tx.skbs[..]), x)
        invariant forall x :: fromRx[x] + Occurs(rx.skbs[..], x) == Occurs(old(rx.skbs[..]), x)
      {
        fromTx := tx.Discard(index, fromTx);
        fromRx := rx.Discard(index, fromRx);
      }
      NothingHeld(tx.skbs[..]);
      CountNone(tx.blocks[..]);
      NothingHeld(rx.skbs[..]);
      assert tx.skbs[..] == EthTx.Empty().slots;
      assert tx.blocks[..] == EthTx.Empty().blocks;
      txRing, rxRing := false, false;
    }

    /** Allocates both rings and fills the receive ring; whatever fails on the way, what
        had been allocated and mapped by then is freed again. */
    method AllocRings(coherentTx: bool, coherentRx: bool, aligned: bool, memory: int -> bool, mapping: int -> Mapping)
      returns (ok: bool)
      requires Sized() && Bare(tx.State(), rx.State())
      modifies this, tx, rx, tx.skbs, tx.blocks, tx.desc, rx.skbs, rx.desc
      ensures tx.pending == old(tx.pending) && tx.head == old(tx.head)
      ensures rx.next == old(rx.next) && rx.writing == old(rx.writing)
      ensures ok <==> coherentTx && coherentRx && aligned && EthRx.Granted(memory, mapping)
      ensures if ok then Filled() else !txRing && !rxRing && Bare(tx.State(), rx.State())
    {
      txRing, rxRing := coherentTx, coherentRx;
      BareBalanced(tx.State(), rx.State());
      if !coherentTx || !coherentRx || !aligned {
        ghost var fromTx, fromRx := FreeRings();
        return false;
      }
      ClearRings();
      ok := FillRing(memory, mapping);
    }

    method ClearRings()
      requires Sized() && Bare(tx.State(), rx.State())
      modifies tx`prod, tx`clean, tx`queue, tx`accepted, tx`released, tx.desc, rx, rx.desc
      ensures rx.Filling(0) && Cleared() && rx.next == old(rx.next) && rx.writing == old(rx.writing)
    {
      tx.Clear();
      rx.Clear();
    }

    // The transmit ring is empty, as opening leaves it before the registers are programmed.
    ghost predicate Cleared()
      reads tx, tx.skbs, tx.blocks, tx.desc
    {
      tx.State() == EthTx.Empty().(head := tx.head, stopped := tx.stopped, maps := tx.pending,
                                   bounces := tx.pending, pending := tx.pending)
    }

    // Both rings are as opening leaves them before the registers are programmed.
    ghost predicate Filled()
      reads this, tx, tx.skbs, tx.blocks, tx.desc, rx, rx.skbs, rx.desc
    {
      txRing && rxRing && rx.Sized() && rx.Filling(EthRx.POSTED) && Cleared()
    }

    method FillRing(memory: int -> bool, mapping: int -> Mapping) returns (ok: bool)
      requires Sized() && txRing && rxRing && rx.Filling(0) && Cleared()
      modifies this, tx`maps, tx`bounces, tx.skbs, tx.blocks, rx, rx.skbs, rx.desc
      ensures rx.next == old(rx.next) && rx.writing == old(rx.writing)
      ensures ok <==> EthRx.Granted(memory, mapping)
      ensures if ok then Filled() else !txRing && !rxRing && Bare(tx.State(), rx.State())
    {
      ghost var n;
      ok, n := rx.FillSlots(memory, mapping);
      if !ok {
        EthRx.PlacedCount(rx.skbs[..], n);
        CountNone(tx.skbs[..]);
        CountNone(tx.blocks[..]);
        ghost var fromTx, fromRx := FreeRings();
      }
    }

    /** Opens the device. It refuses while rings are allocated, which they still are after
        a stop that did not reach idle; and any failure leaves nothing allocated. */
    method Open(idle: bool, coherentTx: bool, coherentRx: bool, aligned: bool,
                memory: int -> bool, mapping: int -> Mapping) returns (result: OpenResult)
      requires Sized() && Coherent() && tx.pending == 0
      modifies this, tx, rx, tx.skbs, tx.blocks, tx.desc, rx.skbs, rx.desc
      ensures Coherent() && tx.pending == 0
      ensures result == Busy <==> old(txRing)
      ensures result == TimedOut <==> !old(txRing) && !idle
      ensures result == Opened <==>
        !old(txRing) && idle && coherentTx && coherentRx && aligned && EthRx.Granted(memory, mapping)
      ensures txRing <==> old(txRing) || result == Opened
      ensures result == Opened ==> tx.State() == EthTx.Empty() && rx.State() == EthRx.Filled()
      ensures result == Busy ==> tx.State() == old(tx.State()) && rx.State() == old(rx.State())
    {
      if txRing || rxRing {
        return Busy;
      }
      rx.on := false;
      if !idle {
        return TimedOut;
      }
      var ok := OpenIdle(coherentTx, coherentRx, aligned, memory, mapping);
      result := if ok then Opened else NoRings;
    }

    // Resets the heads, allocates the rings and programs the registers.
    method OpenIdle(coherentTx: bool, coherentRx: bool, aligned: bool, memory: int -> bool, mapping: int -> Mapping)
      returns (ok: bool)
      requires Sized() && Bare(tx.State(), rx.State()) && tx.pending == 0
      modifies this, tx, rx, tx.skbs, tx.blocks, tx.desc, rx.skbs, rx.desc
      ensures Coherent() && tx.pending == 0 && txRing == ok
      ensures ok <==> coherentTx && coherentRx && aligned && EthRx.Granted(memory, mapping)
      ensures ok ==> tx.State() == EthTx.Empty() && rx.State() == EthRx.Filled()
    {
      tx.head, rx.next, rx.writing := 0, 0, false;
      ok := AllocRings(coherentTx, coherentRx, aligned, memory, mapping);
      if ok {
        Program();
        FreshWorks();
      }
    }

    // Hands the filled rings to the engine and lets the network layer send.
    method Program()
      requires Sized() && Filled() && tx.pending == 0 && tx.head == 0 && rx.next == 0 && !rx.writing
      modifies rx`tail, rx`on, tx`stopped
      ensures tx.State() == EthTx.Empty() && rx.State() == EthRx.Filled()
    {
      rx.tail := rx.prod;
      rx.on := true;
      tx.stopped := false;
    }

    /** A transmit call keeps the transmit ring in order with the one exception that
        overfills it, and leaves the receive ring alone. */
    method StartXmit(packet: EthTx.Packet, memory: bool, mapping: Mapping, w: EthTx.Timing)
      returns (outcome: EthTx.Outcome)
      requires Sized() && Coherent() && txRing
      modifies tx, tx.skbs, tx.blocks, tx.desc
      ensures (tx.State(), outcome) == EthTx.Xmit(old(tx.State()), packet, memory, mapping, w)
      ensures tx.pending == old(tx.pending) && rx.State() == old(rx.State())
      ensures EthTx.Inv(tx.State()) <==>
        !(EthTx.Mappable(packet, memory, mapping) && EthTx.Overfills(EthTx.Arrived(old(tx.State()), w), w))
      ensures EthTx.HeadStable(EthTx.Finish(packet.skb, w)) ==> EthTx.Inv(tx.State())
    {
      EthTx.XmitEffect(tx.State(), packet, memory, mapping, w);
      outcome := tx.StartXmit(packet, memory, mapping, w);
    }

    // The part of the NAPI poll function that works on the rings.
    method NapiPoll(budget: nat, wake: seq<EthTx.Move>, turns: int -> EthRx.Turn) returns (work: int)
      requires Sized() && Coherent() && txRing
      modifies tx, tx.skbs, tx.blocks, tx.desc, rx, rx.skbs, rx.desc
      ensures Coherent() && tx.pending == old(tx.pending) && 0 <= work <= budget
      ensures tx.State() == EthTx.ReclaimAndWake(old(tx.State()), wake)
      ensures (rx.State(), work) == EthRx.Poll(old(rx.State()), budget, turns)
    {
      ReclaimPart(wake);
      work := ReceivePart(budget, turns);
    }

    method ReclaimPart(wake: seq<EthTx.Move>)
      requires Sized() && EthTx.Inv(tx.State())
      modifies tx, tx.skbs, tx.blocks, tx.desc
      ensures EthTx.Inv(tx.State()) && tx.State() == EthTx.ReclaimAndWake(old(tx.State()), wake)
      ensures tx.pending == old(tx.pending)
    {
      EthTx.WakeEffect(tx.State(), wake);
      tx.Reclaim(wake);
    }

    method ReceivePart(budget: nat, turns: int -> EthRx.Turn) returns (work: int)
      requires Sized() && EthRx.Rest(rx.State())
      modifies rx, rx.skbs, rx.desc
      ensures EthRx.Rest(rx.State()) && (rx.State(), work) == EthRx.Poll(old(rx.State()), budget, turns)
      ensures 0 <= work <= budget
    {
      EthRx.PollEffect(rx.State(), budget, turns);
      EthRx.RestShape(rx.State());
      work := rx.RxPoll(budget, turns);
    }

    /** What the engine does between calls keeps both rings in order. */
    method Engine(txMoves: seq<EthTx.Move>, rxMoves: seq<EthRx.Move>)
      requires Sized() && Coherent() && txRing
      modifies tx`head, tx.desc, rx`next, rx`writing, rx.desc
      ensures tx.State() == EthTx.Moves(old(tx.State()), txMoves) && rx.State() == EthRx.Moves(old(rx.State()), rxMoves)
      ensures Coherent()
    {
      MovesWork(tx.State(), rx.State(), txMoves, rxMoves);
      tx.Engine(txMoves);
      rx.Engine(rxMoves);
    }

    /** Stops the device. Once it is idle every buffer in the rings is freed exactly once
        and no mapping and no bounce buffer is left; if it does not become idle, rings and
        mappings are kept as they are and the receive engine stays off. */
    method Stop(idle: bool) returns (ghost fromTx: multiset<Skb>, ghost fromRx: multiset<Skb>)
      requires Sized() && Coherent() && tx.pending == 0
      modifies this, tx, rx, tx.skbs, tx.blocks, rx.skbs
      ensures Coherent() && tx.pending == 0 && tx.stopped && !rx.on
      ensures idle ==> !txRing && tx.maps == tx.bounces == rx.maps == 0
      ensures idle && old(txRing) ==>
        forall x :: fromTx[x] == multiset(old(tx.queue))[x] && fromRx[x] == multiset(old(rx.queue))[x]
      ensures !idle ==> tx.State() == old(tx.State()).(stopped := true) && rx.State() == old(rx.State()).(on := false)
      ensures !idle ==> txRing == old(txRing)
    {
      Quiet();
      fromTx, fromRx := multiset{}, multiset{};
      if idle {
        fromTx, fromRx := StopIdle();
      }
    }

    // Stops the network queue and switches the receive engine off.
    method Quiet()
      requires Sized() && Coherent()
      modifies tx`stopped, rx`on
      ensures tx.State() == old(tx.State()).(stopped := true) && rx.State() == old(rx.State()).(on := false)
      ensures Coherent()
    {
      ghost var t, r := tx.State(), rx.State();
      if txRing {
        QuietWorks(t, r);
      }
      tx.stopped := true;
      rx.on := false;
      assert tx.State() == t.(stopped := true) && rx.State() == r.(on := false);
    }

    method StopIdle() returns (ghost fromTx: multiset<Skb>, ghost fromRx: multiset<Skb>)
      requires Sized() && Coherent() && tx.pending == 0
      modifies `txRing, `rxRing, tx`maps, tx`bounces, rx`maps, tx.skbs, tx.blocks, rx.skbs
      ensures Coherent() && !txRing && tx.maps == tx.bounces == rx.maps == 0
      ensures old(txRing) ==>
        forall x :: fromTx[x] == multiset(old(tx.queue))[x] && fromRx[x] == multiset(old(rx.queue))[x]
    {
      CoherentAccounted();
      if txRing {
        WorksHeld(tx.State(), rx.State());
      }
      fromTx, fromRx := FreeRings();
    }
  }

  lemma MovesWork(t: EthTx.Tx, r: EthRx.Rx, txMoves: seq<EthTx.Move>, rxMoves: seq<EthRx.Move>)
    requires Works(t, r)
    ensures EthTx.Shape(t) && EthRx.Shape(r) && Works(EthTx.Moves(t, txMoves), EthRx.Moves(r, rxMoves))
  {
    EthRx.RestShape(r);
    EthTx.MovesKeep(t, txMoves);
    EthRx.MovesRest(r, rxMoves);
  }

  lemma QuietWorks(t: EthTx.Tx, r: EthRx.Rx)
    requires Works(t, r)
    ensures Works(t.(stopped := true), r.(on := false))
  {
    EthRx.OffRest(r);
  }

  lemma WorksHeld(t: EthTx.Tx, r: EthRx.Rx)
    requires Works(t, r)
    ensures forall x :: Occurs(t.slots, x) == multiset(t.queue)[x]
    ensures forall x :: Occurs(r.slots, x) == multiset(r.queue)[x]
  {
    HeldQueue(t.slots, t.clean, t.queue);
    HeldQueue(r.slots, r.cons, r.queue);
  }

  lemma HeldQueue(slots: seq<Option<Skb>>, base: int, queue: seq<Skb>)
    requires Holds(slots, base, queue)
    ensures forall x :: Occurs(slots, x) == multiset(queue)[x]
  {
    forall x ensures Occurs(slots, x) == multiset(queue)[x] {
      HoldsOccurs(slots, base, queue, x);
    }
  }

  lemma NothingHeld(slots: seq<Option<Skb>>)
    requires forall i :: 0 <= i < |slots| ==> slots[i] == None
    ensures Count(slots) == 0 && forall x :: Occurs(slots, x) == 0
  {
    CountNone(slots);
    forall x ensures Occurs(slots, x) == 0 {
      OccursNone(slots, x);
    }
  }
}
