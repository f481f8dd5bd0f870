/** One transmit call and one reclaim field by field, with the driver's constants written
    out: 64 slots, and packets of at most 1536 bytes. */
module EthTxExact {
  import opened Prelude
  import opened EthRings
  import opened EthTx

  /** When a call is dropped, sent back for want of memory, and refused because the ring
      has no room; in the first two cases nothing has changed, and in the last only the
      queue is stopped. */
  lemma Refusals(t: Tx, p: Packet, memory: bool, mapping: Mapping, w: Timing)
    requires Shape(t)
    ensures var (u, outcome) := Xmit(t, p, memory, mapping, w);
      var v := Tested(Arrived(t, w), w);
      && (outcome == Dropped <==> !p.linear || p.length > 1536 || (memory && mapping != Mapped))
      && (outcome == NoMemory <==> p.linear && p.length <= 1536 && !memory)
      && (outcome == Dropped || outcome == NoMemory ==> u == t)
      && (outcome == RingFull <==>
            p.linear && p.length <= 1536 && memory && mapping == Mapped && (v.prod + 1) % 64 == v.head)
      && (outcome == RingFull ==>
            u == v.(stopped := true, maps := v.maps - 1, bounces := v.bounces - 1, pending := v.pending - 1))
  {
  }

  // v has room for one buffer, and u is v with this buffer in it, at some later reading of HEAD.
  ghost predicate Entered(v: Tx, u: Tx, skb: Skb) {
    && 0 <= v.prod < |v.slots| == |v.blocks|
    && u.slots == v.slots[v.prod := Some(skb)] && u.blocks == v.blocks[v.prod := Some(Block)]
    && u.prod == (v.prod + 1) % 64 && u.clean == v.clean
    && u.maps == v.maps && u.bounces == v.bounces && u.pending == v.pending - 1
    && u.queue == v.queue + [skb] && u.accepted == v.accepted + [skb] && u.released == v.released
    && (u.stopped <==> v.stopped || (u.prod + 1) % 64 == u.head)
  }

  lemma PlaceEnters(v: Tx, skb: Skb, third: seq<Move>)
    requires Shape(v) && (v.prod + 1) % 64 != v.head
    ensures var (u, outcome) := Place(v, skb, third);
      && outcome == Accepted && Entered(v, u, skb)
      && (third == [] ==> u.head == v.head && u.desc == v.desc[v.prod := Status(false, false, 0)])
  {
  }

  // The queue is left stopped only if it was, and there is still no room.
  lemma TestedStopped(t: Tx, w: Timing)
    requires Shape(t)
    ensures var r, v := ReclaimAndWake(t, w.wake), Tested(t, w);
      && (v.stopped <==> r.stopped) && (r.stopped <==> t.stopped && (r.prod + 1) % 64 == r.head)
      && v.prod == r.prod == t.prod && (w.second == [] ==> v == r)
  {
    ReclaimSame(t);
  }

  /** An accepted packet takes the slot at tx_prod, and leaves the queue stopped exactly when
      it took the last room there was; HEAD moving just before the fullness test can leave
      it stopped as well. */
  lemma Acceptance(t: Tx, p: Packet, memory: bool, mapping: Mapping, w: Timing)
    requires Shape(t) && Xmit(t, p, memory, mapping, w).1 == Accepted
    ensures var u, v := Xmit(t, p, memory, mapping, w).0, Tested(Arrived(t, w), w);
      && Entered(v, u, p.skb) && v.prod == t.prod
      && (w.second == [] ==> (u.stopped <==> (u.prod + 1) % 64 == u.head))
      && (!t.stopped ==> (u.stopped <==> (u.prod + 1) % 64 == u.head))
      && (w.third == [] ==> u.head == v.head && u.desc == v.desc[v.prod := Status(false, false, 0)])
  {
    var s := Arrived(t, w);
    TestedStopped(s, w);
    PlaceEnters(Tested(s, w), p.skb, w.third);
  }

  // The slots of u up to tx_clean are cleared, and the others as in t.
  ghost predicate Cleared(t: Tx, u: Tx)
    requires Shape(t) && Shape(u)
  {
    && u.prod == t.prod && u.head == t.head && u.stopped == t.stopped
    && forall i :: 0 <= i < 64 ==>
         (u.slots[i], u.blocks[i], u.desc[i]) ==
         if Ahead(t.clean, i) < Ahead(t.clean, u.clean) then (None, None, Status(false, false, 0))
         else (t.slots[i], t.blocks[i], t.desc[i])
  }

  // The slots that were passed had been done, and the next one is not, or HEAD is there.
  ghost predicate Passed(t: Tx, u: Tx)
    requires Shape(t) && Shape(u)
  {
    && (u.clean == t.head || !t.desc[u.clean].done)
    && forall i :: 0 <= i < 64 && Ahead(t.clean, i) < Ahead(t.clean, u.clean) ==> t.desc[i].done
  }

  /** The reclaim goes on to HEAD or to the first descriptor that is not done, and clears the
      slots it passes, their status words included, and no others. */
  lemma {:induction false} ReclaimClears(t: Tx)
    requires Shape(t)
    ensures Cleared(t, Reclaim(t)) && Passed(t, Reclaim(t))
    ensures Ahead(t.clean, Reclaim(t).clean) <= Ahead(t.clean, t.head)
    decreases Ahead(t.clean, t.head)
  {
    if t.clean != t.head && t.desc[t.clean].done {
      OldestLeaves(t.clean, t.head);
      ReclaimClears(ReleaseOldest(t));
      ClearedStep(t, Reclaim(ReleaseOldest(t)));
      PassedStep(t, Reclaim(ReleaseOldest(t)));
    }
  }

  lemma PassedStep(t: Tx, u: Tx)
    requires Shape(t) && Shape(u) && t.clean != t.head && t.desc[t.clean].done && Passed(ReleaseOldest(t), u)
    requires Ahead(RingNext(t.clean), u.clean) <= Ahead(RingNext(t.clean), t.head)
    ensures Passed(t, u)
  {
    var r := ReleaseOldest(t);
    OldestLeaves(t.clean, u.clean);
    OldestLeaves(t.clean, t.head);
    assert Ahead(r.clean, t.clean) == 63;
    assert u.clean != t.clean;
    forall i | 0 <= i < 64 && Ahead(t.clean, i) < Ahead(t.clean, u.clean) ensures t.desc[i].done {
      if i != t.clean {
        assert Ahead(r.clean, i) == Ahead(t.clean, i) - 1;
        assert r.desc[i].done;
      }
    }
  }

  lemma ClearedStep(t: Tx, u: Tx)
    requires Shape(t) && Shape(u) && t.clean != t.head && Cleared(ReleaseOldest(t), u)
    requires Ahead(RingNext(t.clean), u.clean) <= Ahead(RingNext(t.clean), t.head)
    ensures Cleared(t, u) && Ahead(t.clean, u.clean) <= Ahead(t.clean, t.head)
  {
    var r := ReleaseOldest(t);
    OldestLeaves(t.clean, u.clean);
    OldestLeaves(t.clean, t.head);
    assert Ahead(r.clean, t.clean) == 63;
    assert u.clean != t.clean;
    forall i | 0 <= i < 64
      ensures (u.slots[i], u.blocks[i], u.desc[i]) ==
        if Ahead(t.clean, i) < Ahead(t.clean, u.clean) then (None, None, Status(false, false, 0))
        else (t.slots[i], t.blocks[i], t.desc[i])
    {
      if i != t.clean {
        assert Ahead(r.clean, i) == Ahead(t.clean, i) - 1;
      }
    }
  }
}
