/** The flash controller: a bus read is assembled from four 16-bit words, and what the ROM
    loads is the word the bytes of the flash stand for. */
module BootFlash {
  import opened Prelude
  import opened BootWords
  import opened BootImage
  import opened BootRom

  // The address lines of the flash count 16-bit words.
  const FLASH_WORDS: int := 0x400_0000

  type Cells = int -> Half

  function ByteIn(cells: Cells, offset: int): Byte {
    var half := cells((offset / 2) % FLASH_WORDS);
    if offset % 2 == 0 then half % 256 else half / 256
  }

  // The flash as bytes, the low byte of each word first.
  function FlashOf(cells: Cells): (flash: Flash)
    ensures forall address :: flash(address) == ByteIn(cells, address - BPI_BASE)
  {
    (address: int) => ByteIn(cells, address - BPI_BASE)
  }

  lemma {:induction false} JoinAppend(low: seq<Byte>, high: seq<Byte>)
    ensures Join(low + high) == Join(low) + Power(|low|) * Join(high)
  {
    if low == [] {
      assert low + high == high;
    } else {
      assert (low + high)[1..] == low[1..] + high;
      JoinAppend(low[1..], high);
    }
  }

  lemma JoinTwo(bytes: seq<Byte>, low: int, high: int)
    requires |bytes| == 2 && bytes[0] == low && bytes[1] == high
    ensures Join(bytes) == low + 256 * high
  {
    assert Join(bytes[1..]) == high + 256 * Join(bytes[1..][1..]);
  }

  lemma TwoBytes(cells: Cells, k: int, offset: int, half: int)
    requires offset == 2 * k && half == cells(k % FLASH_WORDS)
    ensures ByteIn(cells, offset) == half % 256 && ByteIn(cells, offset + 1) == half / 256
  {
    assert offset / 2 == k && (offset + 1) / 2 == k;
  }

  // Two bytes read from flash word k.
  lemma HalfRead(cells: Cells, k: int, at: int, half: int)
    requires at == BPI_BASE + 2 * k && half == cells(k % FLASH_WORDS)
    ensures Join(BootRom.Bytes(FlashOf(cells), at, 2)) == half
  {
    TwoBytes(cells, k, at - BPI_BASE, half);
    JoinTwo(BootRom.Bytes(FlashOf(cells), at, 2), half % 256, half / 256);
  }

  lemma PowerTwo(n: nat)
    ensures Power(n + 2) == 65536 * Power(n)
  {
    assert Power(n + 2) == 256 * Power(n + 1);
  }

  // The 16 bits that flash word k puts above the bytes read before it.
  lemma NextHalf(cells: Cells, address: int, n: nat, k: int, half: int)
    requires address + n == BPI_BASE + 2 * k && half == cells(k % FLASH_WORDS)
    ensures Join(BootRom.Bytes(FlashOf(cells), address, n + 2))
         == Join(BootRom.Bytes(FlashOf(cells), address, n)) + half * Power(n)
  {
    var flash, at := FlashOf(cells), address + n;
    var low, high := BootRom.Bytes(flash, address, n), BootRom.Bytes(flash, at, 2);
    assert BootRom.Bytes(flash, address, n + 2) == low + high;
    JoinAppend(low, high);
    HalfRead(cells, k, at, half);
  }

  // The bits of the first i flash words, and the weight of the next.
  ghost predicate Assembled(cells: Cells, address: int, i: nat, data: int, scale: int) {
    data == Join(BootRom.Bytes(FlashOf(cells), address, 2 * i)) && scale == Power(2 * i)
  }

  lemma BeatStart(cells: Cells, address: int, i: nat)
    requires i == 0
    ensures Assembled(cells, address, i, 0, 1)
  {
  }

  lemma BeatStep(cells: Cells, address: int, first: int, i: nat, data: int, scale: int, half: int)
    requires address == BPI_BASE + 2 * first && Assembled(cells, address, i, data, scale)
    requires half == cells((first + i) % FLASH_WORDS)
    ensures Assembled(cells, address, i + 1, data + half * scale, scale * 65536)
  {
    NextHalf(cells, address, 2 * i, first + i, half);
    PowerTwo(2 * i);
  }

  /** One read of eight aligned bytes: four flash words, the first in the lowest bits. */
  method ReadBeat(cells: Cells, address: int) returns (data: int)
    requires BPI_BASE <= address < BPI_BASE + BPI_BYTES && address % 8 == 0
    ensures data == LoadWord(FlashOf(cells), address)
  {
    var bpiAddress, scale := (address - BPI_BASE) / 2, 1;
    ghost var first := bpiAddress;
    data := 0;
    BeatStart(cells, address, 0);
    for halfword := 0 to 4
      invariant bpiAddress == (first + halfword) % FLASH_WORDS
      invariant Assembled(cells, address, halfword, data, scale)
    {
      BeatStep(cells, address, first, halfword, data, scale, cells(bpiAddress));
      data := data + cells(bpiAddress) * scale;
      scale := scale * 65536;
      bpiAddress := (bpiAddress + 1) % FLASH_WORDS;
    }
  }
}
