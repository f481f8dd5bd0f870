/** How an SPI transfer starts, with the numbers written out. */
module SpiExact {
  import opened Prelude
  import opened SpiBuffers
  import opened SpiTransfer

  // Select line `line` of the four, as a bit of the register.
  function LineBit(select: int, line: int): int
    requires 0 <= line < 4
  {
    if line == 0 then select % 2 else if line == 1 then select / 2 % 2
    else if line == 2 then select / 4 % 2 else select / 8 % 2
  }

  /** Selecting a slave clears its line and sets the other three. */
  lemma OneLineLow(slave: int, line: int)
    requires 0 <= slave < 4 && 0 <= line < 4
    ensures 0 <= SelectLines(slave) < 16
    ensures LineBit(SelectLines(slave), line) == (if line == slave then 0 else 1)
  {
  }

  // Between transfers all four lines are set.
  lemma NoLineLow(t: Transfer, line: int)
    requires Good(t) && !t.active && 0 <= line < 4
    ensures LineBit(t.select, line) == 1
  {
  }

  /** A transfer starts with its slave selected, the callback kept, nothing counted, and the
      first byte of the transmit list under way, or 0xff if that list is empty; it is as long
      as the longer list. */
  lemma Starts(t: Transfer, slave: int, tx: seq<int>, rx: seq<int>, callback: Option<int>)
    requires Good(t) && !t.active && 0 <= slave < 4
    ensures var u := Start(t, slave, tx, rx, callback);
      && LineBit(u.select, slave) == 0 && u.active && u.busy && !u.done && u.index == 0
      && u.callback == callback && u.memory == t.memory && |tx| <= u.len && |rx| <= u.len
      && (u.len == |tx| || u.len == |rx|) && |u.log.sent| == 1 && u.log.arrived == [] && u.log.fired == t.log.fired
      && (tx == [] ==> u.log.sent == [255])
      && (tx != [] && 0 <= tx[0] < |t.memory| ==> u.log.sent == [t.memory[tx[0]]])
  {
    OneLineLow(slave, slave);
  }

  /** Past the end of the transmit list 0xff is sent; within it, what its cell holds. */
  lemma CellRead(memory: seq<Byte>, cells: seq<int>, i: nat)
    ensures i >= |cells| ==> ByteAt(memory, cells, i) == 255
    ensures i < |cells| && 0 <= cells[i] < |memory| ==> ByteAt(memory, cells, i) == memory[cells[i]]
  {
  }

  /** A received byte goes into the cell at its position of the receive list and no other,
      and past the end of the list nowhere. */
  lemma CellWritten(memory: seq<Byte>, cells: seq<int>, i: nat, b: Byte)
    ensures i >= |cells| ==> Store(memory, cells, i, b) == memory
    ensures i < |cells| && 0 <= cells[i] < |memory| ==>
      && Store(memory, cells, i, b)[cells[i]] == b
      && forall a :: 0 <= a < |memory| && a != cells[i] ==> Store(memory, cells, i, b)[a] == memory[a]
  {
  }
}
