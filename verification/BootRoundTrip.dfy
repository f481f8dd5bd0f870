/** What the packer prints, read into the flash, is what the boot ROM boots. */
module BootRoundTrip {
  import opened Prelude
  import opened BootWords
  import opened BootImage
  import opened BootRom
  import opened BootFlash

  /** In its window the ROM reads the flash words, which begin with the given ones; the
      other words and the rest of the address space are arbitrary. */
  ghost predicate Programmed(flash: Flash, cells: Cells, halves: seq<Half>) {
    && (forall address :: BPI_BASE <= address < BPI_BASE + BPI_BYTES ==> flash(address) == FlashOf(cells)(address))
    && 2 * |halves| <= BPI_BYTES && forall k :: 0 <= k < |halves| ==> cells(k) == halves[k]
  }

  // The flash holds these bytes from its base on.
  ghost predicate Contains(flash: Flash, image: seq<Byte>) {
    forall i :: 0 <= i < |image| ==> flash(BPI_BASE + i) == image[i]
  }

  lemma ImageInFlash(flash: Flash, cells: Cells, image: seq<Byte>)
    requires |image| % 2 == 0 && Programmed(flash, cells, Halves(image))
    ensures Contains(flash, image)
  {
    forall i | 0 <= i < |image| ensures flash(BPI_BASE + i) == image[i] {
      var k := i / 2;
      var half := Halves(image)[k];
      assert half == HalfAt(image, k);
      assert half % 256 == image[2 * k] && half / 256 == image[2 * k + 1];
      TwoBytes(cells, k, 2 * k, half);
      assert i == 2 * k || i == 2 * k + 1;
    }
  }

  lemma BytesInFlash(flash: Flash, image: seq<Byte>, from: int, n: nat)
    requires Contains(flash, image) && 0 <= from && from + n <= |image|
    ensures Bytes(flash, BPI_BASE + from, n) == image[from..from + n]
  {
    var got, want := Bytes(flash, BPI_BASE + from, n), image[from..from + n];
    forall i | 0 <= i < n ensures got[i] == want[i] {
      assert flash(BPI_BASE + (from + i)) == image[from + i];
    }
  }

  lemma FieldValue(fields: seq<nat>, k: int)
    requires 0 <= k < |fields| && 0 <= fields[k] < WORD_LIMIT
    ensures Join(Packed(fields)[8 * k..8 * k + 8]) == fields[k]
  {
    PackedField(fields, k, 8 * k, Split(fields[k], 8));
    WordPower();
    JoinSplit(fields[k], 8);
  }

  lemma PackedByte(fields: seq<nat>, k: int, at: int, j: int)
    requires 0 <= k < |fields| && at == 8 * k && 0 <= j < 8
    ensures Packed(fields)[at + j] == Split(fields[k], 8)[j]
  {
    assert (at + j) / 8 == k && (at + j) % 8 == j;
  }

  lemma PackedField(fields: seq<nat>, k: int, at: int, bytes: seq<Byte>)
    requires 0 <= k < |fields| && at == 8 * k && bytes == Split(fields[k], 8)
    ensures Packed(fields)[at..at + 8] == bytes
  {
    forall j | 0 <= j < 8 ensures Packed(fields)[at + j] == bytes[j] {
      PackedByte(fields, k, at, j);
    }
  }

  lemma FieldInFlash(flash: Flash, fields: seq<nat>, header: seq<Byte>, k: int)
    requires 0 <= k < |fields| && 0 <= fields[k] < WORD_LIMIT
    requires header == Packed(fields) && Contains(flash, header)
    ensures LoadWord(flash, BPI_BASE + 8 * k) == fields[k]
  {
    BytesInFlash(flash, header, 8 * k, 8);
    FieldValue(fields, k);
  }

  lemma PayloadInFlash(flash: Flash, header: seq<Byte>, padded: seq<Byte>)
    requires |header| == HEADER && |padded| % 8 == 0 && Contains(flash, header + padded)
    ensures Bytes(flash, PAYLOAD, |padded|) == padded
    ensures FlashWords(flash, PAYLOAD, |padded| / 8) == Words(padded)
  {
    var image := header + padded;
    BytesInFlash(flash, image, HEADER, |padded|);
    var got, want := FlashWords(flash, PAYLOAD, |padded| / 8), Words(padded);
    forall k | 0 <= k < |padded| / 8 ensures got[k] == want[k] {
      BytesInFlash(flash, image, HEADER + 8 * k, 8);
      assert image[HEADER + 8 * k..HEADER + 8 * k + 8] == padded[8 * k..8 * k + 8];
    }
  }

  lemma SumFits(padded: seq<Byte>)
    requires |padded| % 8 == 0
    ensures 0 <= XorAll(Words(padded)) < WORD_LIMIT
  {
    forall k | 0 <= k < |Words(padded)| ensures Words(padded)[k] < WORD_LIMIT {
      JoinBound(padded[8 * k..8 * k + 8]);
      WordPower();
    }
    XorAllBelow(Words(padded));
  }

  // The header fields of an accepted payload fit their 64 bits and are found in the flash.
  lemma HeaderInFlash(flash: Flash, size: int, load: int, entry: int, checksum: int, header: seq<Byte>)
    requires Fits(size, load) && load <= entry < load + size && 0 <= checksum < WORD_LIMIT
    requires header == Packed(Fields(size, load, entry, checksum)) && Contains(flash, header)
    ensures LoadWord(flash, BPI_BASE) == MAGIC && LoadWord(flash, BPI_BASE + 8) == VERSION
    ensures Size(flash) == size && Load(flash) == load && Entry(flash) == entry && Checksum(flash) == checksum
  {
    var fields := Fields(size, load, entry, checksum);
    FieldInFlash(flash, fields, header, 0);
    FieldInFlash(flash, fields, header, 1);
    FieldInFlash(flash, fields, header, 2);
    FieldInFlash(flash, fields, header, 3);
    FieldInFlash(flash, fields, header, 4);
    FieldInFlash(flash, fields, header, 5);
  }

  // A flash that holds a header and a padded payload.
  lemma BootsImage(flash: Flash, padded: seq<Byte>, load: int, entry: int, header: seq<Byte>)
    requires |padded| % 8 == 0 && Fits(|padded|, load) && load <= entry < load + |padded|
    requires header == Header(padded, load, entry) && Contains(flash, header + padded)
    ensures Ending(flash) == if load % 8 == 0 then Jump(entry - entry % 2) else Misaligned(load)
    ensures Accepts(flash) && Load(flash) == load && Size(flash) == |padded|
    ensures Bytes(flash, PAYLOAD, |padded|) == padded
  {
    SumFits(padded);
    forall i | 0 <= i < HEADER ensures flash(BPI_BASE + i) == header[i] {
      assert (header + padded)[i] == header[i];
    }
    HeaderInFlash(flash, |padded|, load, entry, XorAll(Words(padded)), header);
    PayloadInFlash(flash, header, padded);
  }

  /** For every payload, load address and entry the packer accepts and every flash that its
      output has been read into, the ROM copies the zero-padded payload to the load address,
      leaves all other memory alone, and jumps to the entry, if the load address is a
      multiple of eight; if it is not, the first store traps. */
  lemma RoundTrip(payload: seq<Byte>, load: int, entry: int, flash: Flash, cells: Cells, halves: seq<Half>,
                  memory: Memory)
    requires ImageText(payload, load, entry).Ok?
    requires ReadMem(ImageText(payload, load, entry).value, None) == Some(halves)
    requires Programmed(flash, cells, halves)
    ensures Ending(flash) == if load % 8 == 0 then Jump(entry - entry % 2) else Misaligned(load)
    ensures Copies(flash) <==> load % 8 == 0
    ensures Load(flash) == load && Size(flash) == |Padded(payload)|
    ensures Copied(flash, memory, Load(flash), Size(flash) / 8) == Stored(memory, load, Padded(payload))
  {
    var padded, image := Padded(payload), Image(payload, load, entry).value;
    ReadText(Halves(image));
    ImageInFlash(flash, cells, image);
    BootsImage(flash, padded, load, entry, Header(padded, load, entry));
    assert 8 * (Size(flash) / 8) == |padded|;
  }

  /** The packer refuses exactly what the ROM would refuse for its size, load address or
      entry: a flash with the right magic and version and the size of a padded payload is
      accepted if and only if the packer accepts the payload. */
  lemma PackerAgrees(payload: seq<Byte>, flash: Flash)
    requires LoadWord(flash, BPI_BASE) == MAGIC && LoadWord(flash, BPI_BASE + 8) == VERSION
    requires Size(flash) == |Padded(payload)|
    ensures Accepts(flash) <==> Image(payload, Load(flash), Entry(flash)).Ok?
  {
  }
}
