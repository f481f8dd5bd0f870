/** The boot format with its addresses, offsets and numbers written out: what the ROM asks of
    the flash, what it leaves in memory, and what the packer prints, byte by byte. */
module BootExact {
  import opened Prelude
  import opened BootWords
  import opened BootImage
  import opened BootRom

  // Eight bytes that stand for v, the low byte first.
  predicate Little(b: seq<int>, v: int) {
    && |b| == 8
    && v == b[0] + 0x100 * b[1] + 0x1_0000 * b[2] + 0x100_0000 * b[3] + 0x1_0000_0000 * b[4]
          + 0x100_0000_0000 * b[5] + 0x1_0000_0000_0000 * b[6] + 0x100_0000_0000_0000 * b[7]
  }

  lemma JoinStep(b: seq<Byte>, rest: seq<Byte>, v: int)
    requires b != [] && rest == b[1..] && v == Join(rest)
    ensures Join(b) == b[0] + 256 * v
  {
  }

  lemma JoinLittle(b: seq<Byte>)
    requires |b| == 8
    ensures Little(b, Join(b))
  {
    var b7, b6, b5, b4 := b[7..], b[6..], b[5..], b[4..];
    var b3, b2, b1, end := b[3..], b[2..], b[1..], b[8..];
    JoinStep(b7, end, Join(end));
    JoinStep(b6, b7, Join(b7));
    JoinStep(b5, b6, Join(b6));
    JoinStep(b4, b5, Join(b5));
    JoinStep(b3, b4, Join(b4));
    JoinStep(b2, b3, Join(b3));
    JoinStep(b1, b2, Join(b2));
    JoinStep(b, b1, Join(b1));
  }

  /** A word of the flash, the low byte first. */
  lemma WordOfFlash(flash: Flash, at: int)
    ensures Little([flash(at), flash(at + 1), flash(at + 2), flash(at + 3),
                    flash(at + 4), flash(at + 5), flash(at + 6), flash(at + 7)], LoadWord(flash, at))
  {
    var b := [flash(at), flash(at + 1), flash(at + 2), flash(at + 3),
              flash(at + 4), flash(at + 5), flash(at + 6), flash(at + 7)];
    assert BootRom.Bytes(flash, at, 8) == b;
    JoinLittle(b);
  }

  // The header as the ROM's checks want it.
  predicate Sound(flash: Flash) {
    var size, load := LoadWord(flash, 0x2000_0010), LoadWord(flash, 0x2000_0018);
    var entry := LoadWord(flash, 0x2000_0020);
    && LoadWord(flash, 0x2000_0000) == 0x4552_4953_4356_4150 && LoadWord(flash, 0x2000_0008) == 1
    && size != 0 && size % 8 == 0
    && 0x8000_0000 <= load && load + size <= 0x1_0000_0000 && load <= entry < load + size
  }

  // The sum of the n words behind the header.
  function SumOf(flash: Flash, n: nat): int {
    XorAll(FlashWords(flash, 0x2000_0040, n))
  }

  /** How the ROM ends, on the words of the flash at 0x2000_0000: it jumps only behind the
      right magic, version 1, a size of whole words, a range in DDR, an entry in it and the
      right sum; an image at a misaligned address traps; everything else halts. */
  lemma EndingExact(flash: Flash)
    ensures var size, load := LoadWord(flash, 0x2000_0010), LoadWord(flash, 0x2000_0018);
      var entry, sum := LoadWord(flash, 0x2000_0020), LoadWord(flash, 0x2000_0028);
      && (Ending(flash) != Halt ==>
            LoadWord(flash, 0x2000_0000) == 0x4552_4953_4356_4150 && LoadWord(flash, 0x2000_0008) == 1)
      && (Ending(flash).Misaligned? <==> Sound(flash) && load % 8 != 0)
      && (Ending(flash).Misaligned? ==> Ending(flash).address == load)
      && (Ending(flash).Jump? <==> Sound(flash) && load % 8 == 0 && SumOf(flash, size / 8) == sum)
      && (Ending(flash).Jump? ==> Ending(flash).pc == (if entry % 2 == 0 then entry else entry - 1))
      && (Copies(flash) <==> Sound(flash) && load % 8 == 0)
  {
  }

  /** Of two flashes that differ in the magic or in the version at most one gets past the
      checks. */
  lemma OneVersion(flash: Flash, other: Flash)
    requires LoadWord(flash, 0x2000_0000) != LoadWord(other, 0x2000_0000)
          || LoadWord(flash, 0x2000_0008) != LoadWord(other, 0x2000_0008)
    ensures Ending(flash) == Halt || Ending(other) == Halt
  {
  }

  lemma StoredBytes(flash: Flash, memory: Memory, load: int, from: int, n: nat)
    ensures var after := Stored(memory, load, BootRom.Bytes(flash, from, n));
      && (forall a :: load <= a < load + n ==> a in after && after[a] == flash(from + (a - load)))
      && (forall a :: !(load <= a < load + n) ==> (a in after <==> a in memory))
      && (forall a :: !(load <= a < load + n) && a in memory ==> after[a] == memory[a])
  {
  }

  /** What a copy leaves: byte i behind the header at load + i, and all else as it was. */
  lemma CopiedBytes(flash: Flash, memory: Memory)
    requires Copies(flash)
    ensures var size, load := LoadWord(flash, 0x2000_0010), LoadWord(flash, 0x2000_0018);
      var after := Copied(flash, memory, Load(flash), Size(flash) / 8);
      && (forall a :: load <= a < load + size ==> a in after && after[a] == flash(0x2000_0040 + (a - load)))
      && (forall a :: !(load <= a < load + size) ==> (a in after <==> a in memory))
      && (forall a :: !(load <= a < load + size) && a in memory ==> after[a] == memory[a])
  {
    assert 8 * (Size(flash) / 8) == Size(flash);
    StoredBytes(flash, memory, Load(flash), PAYLOAD, Size(flash));
  }

  // Bit i of a number.
  function Bit(a: int, i: nat): (b: int)
    requires a >= 0
    decreases i
  {
    if i == 0 then a % 2 else Bit(a / 2, i - 1)
  }

  // How many of the words have bit i set.
  function Ones(words: seq<int>, i: nat): (n: int)
    requires forall k :: 0 <= k < |words| ==> words[k] >= 0
  {
    if words == [] then 0 else Ones(words[..|words| - 1], i) + Bit(words[|words| - 1], i)
  }

  /** Each bit of an exclusive or is set exactly when it is set in one of the two. */
  lemma {:induction false} XorBit(a: int, b: int, i: nat)
    requires a >= 0 && b >= 0
    ensures Bit(Xor(a, b), i) == (Bit(a, i) + Bit(b, i)) % 2
    decreases i
  {
    XorHalves(a, b);
    if i > 0 {
      XorBit(a / 2, b / 2, i - 1);
    }
  }

  /** Each bit of the checksum is the parity of the words that have it set. */
  lemma {:induction false} SumBit(words: seq<int>, i: nat)
    requires forall k :: 0 <= k < |words| ==> words[k] >= 0
    ensures Bit(XorAll(words), i) == Ones(words, i) % 2
    decreases |words|
  {
    if words == [] {
      ZeroBit(i);
    } else {
      var rest, last := words[..|words| - 1], words[|words| - 1];
      SumBit(rest, i);
      XorBit(XorAll(rest), last, i);
    }
  }

  lemma {:induction false} ZeroBit(i: nat)
    ensures Bit(0, i) == 0
  {
    if i > 0 {
      ZeroBit(i - 1);
    }
  }
}
