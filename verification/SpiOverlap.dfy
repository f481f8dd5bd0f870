/** Which overlaps of transmit and receive buffers a transfer tolerates. */
module SpiOverlap {
  import opened Prelude
  import opened SpiBuffers
  import opened SpiTransfer

  ghost predicate Within(cells: seq<int>, size: int) {
    forall i :: 0 <= i < |cells| ==> 0 <= cells[i] < size
  }

  // No byte is received into the cell of a byte that is sent later.
  ghost predicate Apart(tx: seq<int>, rx: seq<int>) {
    forall i, j :: 0 <= i < |rx| && i < j < |tx| ==> rx[i] != tx[j]
  }

  lemma {:induction false} StoredKeeps(memory: seq<Byte>, rx: seq<int>, values: seq<Byte>, cell: int)
    requires 0 <= cell < |memory| && forall i :: 0 <= i < |values| && i < |rx| ==> rx[i] != cell
    ensures Stored(memory, rx, values)[cell] == memory[cell]
    decreases |values|
  {
    if values != [] {
      StoredKeeps(memory, rx, values[..|values| - 1], cell);
    }
  }

  lemma {:induction false} StoredLast(memory: seq<Byte>, rx: seq<int>, values: seq<Byte>, k: int)
    requires 0 <= k < |values| && k < |rx| && 0 <= rx[k] < |memory|
    requires forall i :: k < i < |values| && i < |rx| ==> rx[i] != rx[k]
    ensures Stored(memory, rx, values)[rx[k]] == values[k]
    decreases |values|
  {
    if k < |values| - 1 {
      StoredLast(memory, rx, values[..|values| - 1], k);
    }
  }

  /** Where no cell is received into twice, the receive list ends with the bytes that
      arrived, as many as there is room for, and all other memory is as it was. */
  lemma Received(memory: seq<Byte>, rx: seq<int>, values: seq<Byte>)
    requires Within(rx, |memory|) && |rx| <= |values|
    requires forall i, j :: 0 <= i < j < |rx| ==> rx[i] != rx[j]
    ensures forall i :: 0 <= i < |rx| ==> Stored(memory, rx, values)[rx[i]] == values[i]
    ensures forall cell :: 0 <= cell < |memory| && cell !in rx ==> Stored(memory, rx, values)[cell] == memory[cell]
  {
    forall i | 0 <= i < |rx| ensures Stored(memory, rx, values)[rx[i]] == values[i] {
      StoredLast(memory, rx, values, i);
    }
    forall cell | 0 <= cell < |memory| && cell !in rx ensures Stored(memory, rx, values)[cell] == memory[cell] {
      StoredKeeps(memory, rx, values, cell);
    }
  }

  lemma ApartSends(memory: seq<Byte>, tx: seq<int>, rx: seq<int>, values: seq<Byte>, j: int)
    requires Apart(tx, rx) && Within(tx, |memory|) && 0 <= j <= |values|
    ensures ByteAt(Stored(memory, rx, values[..j]), tx, j) == ByteAt(memory, tx, j)
  {
    if j < |tx| {
      StoredKeeps(memory, rx, values[..j], tx[j]);
    }
  }

  // The last position before j into whose cell something is received.
  lemma LastInto(rx: seq<int>, cell: int, i: int, j: int) returns (k: int)
    requires 0 <= i < j && i < |rx| && rx[i] == cell
    ensures i <= k < j && k < |rx| && rx[k] == cell && forall n :: k < n < j && n < |rx| ==> rx[n] != cell
    decreases j
  {
    if j - 1 < |rx| && rx[j - 1] == cell {
      k := j - 1;
    } else {
      k := LastInto(rx, cell, i, j - 1);
    }
  }

  // Arriving bytes that change what is sent at position j.
  lemma OverlapShows(memory: seq<Byte>, tx: seq<int>, rx: seq<int>, len: int, i: int, j: int)
    returns (values: seq<Byte>)
    requires Within(tx, |memory|) && 0 <= i < |rx| && i < j < |tx| <= len && rx[i] == tx[j]
    ensures |values| == len && ByteAt(Stored(memory, rx, values[..j]), tx, j) != ByteAt(memory, tx, j)
  {
    var k := LastInto(rx, tx[j], i, j);
    var other: Byte := if memory[tx[j]] == 0 then 1 else 0;
    values := seq(len, n => if n == k then other else 0);
    StoredLast(memory, rx, values[..j], k);
  }

  // Whatever arrives, the bytes sent are those the transmit list held at the start.
  ghost predicate SendsList(t: Transfer, slave: int, tx: seq<int>, rx: seq<int>, callback: Option<int>)
    requires Good(t) && !t.active && 0 <= slave < 4 && Longer(|tx|, |rx|) > 0
  {
    StartGood(t, slave, tx, rx, callback);
    forall values: seq<Byte> :: |values| == Longer(|tx|, |rx|) ==>
      var u := Run(Start(t, slave, tx, rx, callback), Rounds(values));
      forall j :: 0 <= j < |u.log.sent| ==> u.log.sent[j] == ByteAt(t.memory, tx, j)
  }

  // What the transfer in which these bytes arrive sends.
  lemma Sent(t: Transfer, slave: int, tx: seq<int>, rx: seq<int>, callback: Option<int>, values: seq<Byte>)
    requires Good(t) && !t.active && 0 <= slave < 4 && Longer(|tx|, |rx|) > 0 && |values| == Longer(|tx|, |rx|)
    ensures Good(Start(t, slave, tx, rx, callback))
    ensures var u := Run(Start(t, slave, tx, rx, callback), Rounds(values));
      && |u.log.sent| == |values|
      && forall j :: 0 <= j < |values| ==> u.log.sent[j] == ByteAt(Stored(t.memory, rx, values[..j]), tx, j)
  {
    StartGood(t, slave, tx, rx, callback);
    RoundsEnd(Start(t, slave, tx, rx, callback), values);
    TransferRun(t, slave, tx, rx, callback, Rounds(values));
  }

  /** The bytes sent are always those of the transmit list, filled up with 0xff, if and only
      if no byte is received into the cell of a byte that is sent later. */
  lemma SendsListIff(t: Transfer, slave: int, tx: seq<int>, rx: seq<int>, callback: Option<int>)
    requires Good(t) && !t.active && 0 <= slave < 4 && Longer(|tx|, |rx|) > 0
    requires Within(tx, |t.memory|)
    ensures SendsList(t, slave, tx, rx, callback) <==> Apart(tx, rx)
  {
    StartGood(t, slave, tx, rx, callback);
    var first, len := Start(t, slave, tx, rx, callback), Longer(|tx|, |rx|);
    if Apart(tx, rx) {
      forall values: seq<Byte> | |values| == len
        ensures var u := Run(first, Rounds(values));
          forall j :: 0 <= j < |u.log.sent| ==> u.log.sent[j] == ByteAt(t.memory, tx, j)
      {
        Sent(t, slave, tx, rx, callback, values);
        forall j | 0 <= j < len ensures ByteAt(Stored(t.memory, rx, values[..j]), tx, j) == ByteAt(t.memory, tx, j) {
          ApartSends(t.memory, tx, rx, values, j);
        }
      }
    } else {
      var i, j :| 0 <= i < |rx| && i < j < |tx| && rx[i] == tx[j];
      var values := OverlapShows(t.memory, tx, rx, len, i, j);
      Sent(t, slave, tx, rx, callback, values);
      assert Run(first, Rounds(values)).log.sent[j] != ByteAt(t.memory, tx, j);
    }
  }

  /** A transfer in place, where both lists are the same cells, is one that does. */
  lemma InPlace(cells: seq<int>)
    requires forall i, j :: 0 <= i < j < |cells| ==> cells[i] != cells[j]
    ensures Apart(cells, cells)
  {
  }
}
