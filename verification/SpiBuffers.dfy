/** Scatter/gather lists of buffers as flat lists of memory cells. */
module SpiBuffers {
  import opened Prelude

  // A pointer into memory and a length. Buffers may overlap.
  datatype Buffer = Buffer(start: int, len: nat)

  // A list of buffers, or NULL.
  type List = Option<seq<Buffer>>

  function Span(b: Buffer): (cells: seq<int>)
    ensures |cells| == b.len && forall i :: 0 <= i < b.len ==> cells[i] == b.start + i
  {
    seq(b.len, i => b.start + i)
  }

  ghost function Cells(buffers: seq<Buffer>): seq<int> {
    if buffers == [] then [] else Cells(buffers[..|buffers| - 1]) + Span(buffers[|buffers| - 1])
  }

  // NULL is an empty list.
  ghost function CellsOf(list: List): seq<int> {
    if list.Some? then Cells(list.value) else []
  }

  // The buffers lie in memory.
  ghost predicate Inside(list: List, size: int) {
    list.Some? ==> forall k :: 0 <= k < |list.value| ==>
      0 <= list.value[k].start && list.value[k].start + list.value[k].len <= size
  }

  /** Byte o of buffer k, in the flat list. */
  lemma {:induction false} CellsAt(buffers: seq<Buffer>, k: int, o: int)
    requires 0 <= k < |buffers| && 0 <= o <= buffers[k].len
    ensures |Cells(buffers[..k])| + o <= |Cells(buffers)|
    ensures o < buffers[k].len ==>
      |Cells(buffers[..k])| + o < |Cells(buffers)|
      && Cells(buffers)[|Cells(buffers[..k])| + o] == buffers[k].start + o
    decreases |buffers|
  {
    var front := buffers[..|buffers| - 1];
    if k < |front| {
      assert front[..k] == buffers[..k];
      CellsAt(front, k, o);
    }
  }

  lemma CellsNext(buffers: seq<Buffer>, k: int)
    requires 0 <= k < |buffers|
    ensures |Cells(buffers[..k + 1])| == |Cells(buffers[..k])| + buffers[k].len
  {
    assert buffers[..k + 1][..k] == buffers[..k];
  }

  // The byte at a position of a flat list, and 0xff past its end.
  function ByteAt(memory: seq<Byte>, cells: seq<int>, i: int): Byte {
    if 0 <= i < |cells| && 0 <= cells[i] < |memory| then memory[cells[i]] else 0xff
  }

  // A byte stored at a position of a flat list, or nowhere past its end.
  function Store(memory: seq<Byte>, cells: seq<int>, i: int, b: Byte): (after: seq<Byte>)
    ensures |after| == |memory|
  {
    if 0 <= i < |cells| && 0 <= cells[i] < |memory| then memory[cells[i] := b] else memory
  }

  method TotalLength(list: List) returns (n: int)
    ensures n == |CellsOf(list)|
  {
    n := 0;
    if list.Some? {
      for i := 0 to |list.value|
        invariant n == |Cells(list.value[..i])|
      {
        CellsNext(list.value, i);
        n := n + list.value[i].len;
      }
      assert list.value[..|list.value|] == list.value;
    }
  }

  // Where the loops of the two methods below stop.
  lemma Found(buffers: seq<Buffer>, i: int, offset: int, index: int)
    requires 0 <= i < |buffers| && 0 <= offset == index - |Cells(buffers[..i])| && offset < buffers[i].len
    ensures index < |Cells(buffers)| && Cells(buffers)[index] == buffers[i].start + offset
  {
    CellsAt(buffers, i, offset);
  }

  /** The byte to send at a position: that of the flat list, and 0xff past its end. */
  method TxByte(memory: array<Byte>, tx: List, index: nat) returns (b: Byte)
    requires Inside(tx, memory.Length)
    ensures b == ByteAt(memory[..], CellsOf(tx), index)
  {
    if tx.None? {
      return 0xff;
    }
    var buffers, offset := tx.value, index;
    for i := 0 to |buffers|
      invariant 0 <= offset == index - |Cells(buffers[..i])|
    {
      if offset < buffers[i].len {
        Found(buffers, i, offset, index);
        return memory[buffers[i].start + offset];
      }
      CellsNext(buffers, i);
      offset := offset - buffers[i].len;
    }
    assert buffers[..|buffers|] == buffers;
    return 0xff;
  }

  /** Stores a received byte at a position of the flat list, or nowhere past its end. */
  method RxByte(memory: array<Byte>, rx: List, index: nat, value: Byte)
    requires Inside(rx, memory.Length)
    modifies memory
    ensures memory[..] == Store(old(memory[..]), CellsOf(rx), index, value)
  {
    if rx.None? {
      return;
    }
    var buffers, offset := rx.value, index;
    for i := 0 to |buffers|
      invariant 0 <= offset == index - |Cells(buffers[..i])| && memory[..] == old(memory[..])
    {
      if offset < buffers[i].len {
        Found(buffers, i, offset, index);
        memory[buffers[i].start + offset] := value;
        return;
      }
      CellsNext(buffers, i);
      offset := offset - buffers[i].len;
    }
    assert buffers[..|buffers|] == buffers;
  }
}
