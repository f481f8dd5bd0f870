/** What the packer makes, byte by byte and character by character, with the numbers of the
    format written out. */
module BootLayout {
  import opened Prelude
  import opened BootWords
  import opened BootImage
  import opened BootRoundTrip
  import opened BootExact

  /** Which payloads, addresses and entries are refused, and in which order it is found. */
  lemma Refusals(payload: seq<Byte>, load: int, entry: int)
    ensures var size, r := |Padded(payload)|, Image(payload, load, entry);
      && |payload| <= size < |payload| + 8 && size % 8 == 0
      && (r == Err(EmptyPayload) <==> |payload| == 0)
      && (r == Err(RangeOutsideDdr) <==>
            |payload| > 0 && (load < 0x8000_0000 || load + size > 0x1_0000_0000))
      && (r == Err(EntryOutsidePayload) <==>
            && |payload| > 0 && 0x8000_0000 <= load && load + size <= 0x1_0000_0000
            && (entry < load || entry >= load + size))
  {
  }

  // The eight bytes at `at` stand for v.
  ghost predicate Field(bytes: seq<Byte>, at: int, v: int) {
    0 <= at <= at + 8 <= |bytes| && Little(bytes[at..at + 8], v)
  }

  lemma FieldBytes(fields: seq<nat>, bytes: seq<Byte>, k: int, at: int, v: int)
    requires 0 <= k < |fields| && at == 8 * k && fields[k] == v < WORD_LIMIT && bytes == Packed(fields)
    ensures Field(bytes, at, v)
  {
    FieldValue(fields, k);
    JoinLittle(bytes[at..at + 8]);
  }

  // The header, field by field.
  ghost predicate HeaderBytes(header: seq<Byte>, size: int, load: int, entry: int, sum: int) {
    && |header| == 64
    && Field(header, 0, 0x4552_4953_4356_4150) && Field(header, 8, 1)
    && Field(header, 16, size) && Field(header, 24, load) && Field(header, 32, entry) && Field(header, 40, sum)
    && Field(header, 48, 0) && Field(header, 56, 0)
  }

  lemma HeaderIs(fields: seq<nat>, header: seq<Byte>, size: nat, load: nat, entry: nat, sum: nat)
    requires fields == Fields(size, load, entry, sum) && header == Packed(fields)
    requires size < WORD_LIMIT && load < WORD_LIMIT && entry < WORD_LIMIT && sum < WORD_LIMIT
    ensures HeaderBytes(header, size, load, entry, sum)
  {
    LowFields(fields, header);
    HighFields(fields, header);
  }

  lemma LowFields(fields: seq<nat>, header: seq<Byte>)
    requires |fields| == 8 && header == Packed(fields) && forall k :: 0 <= k < 8 ==> fields[k] < WORD_LIMIT
    ensures Field(header, 0, fields[0]) && Field(header, 8, fields[1])
    ensures Field(header, 16, fields[2]) && Field(header, 24, fields[3])
  {
    FieldBytes(fields, header, 0, 0, fields[0]);
    FieldBytes(fields, header, 1, 8, fields[1]);
    FieldBytes(fields, header, 2, 16, fields[2]);
    FieldBytes(fields, header, 3, 24, fields[3]);
  }

  lemma HighFields(fields: seq<nat>, header: seq<Byte>)
    requires |fields| == 8 && header == Packed(fields) && forall k :: 0 <= k < 8 ==> fields[k] < WORD_LIMIT
    ensures Field(header, 32, fields[4]) && Field(header, 40, fields[5])
    ensures Field(header, 48, fields[6]) && Field(header, 56, fields[7])
  {
    FieldBytes(fields, header, 4, 32, fields[4]);
    FieldBytes(fields, header, 5, 40, fields[5]);
    FieldBytes(fields, header, 6, 48, fields[6]);
    FieldBytes(fields, header, 7, 56, fields[7]);
  }

  /** An image is 64 bytes of header, each field in eight bytes with the low byte first, and
      the payload filled up with zeros to whole words. The header's sum is the exclusive or
      of the words that these bytes stand for. */
  lemma ImageBytes(payload: seq<Byte>, load: int, entry: int)
    requires Image(payload, load, entry).Ok?
    ensures var image, size := Image(payload, load, entry).value, |Padded(payload)|;
      && |image| == 64 + size && HeaderBytes(image[..64], size, load, entry, XorAll(Words(image[64..])))
      && payload <= image[64..] && forall i :: 64 + |payload| <= i < 64 + size ==> image[i] == 0
  {
    var padded := Padded(payload);
    var header, sum := Header(padded, load, entry), XorAll(Words(padded));
    SumFits(padded);
    HeaderIs(Fields(|padded|, load, entry, sum), header, |padded|, load, entry, sum);
    HeaderThen(header, padded, header + padded, |payload|);
  }

  lemma HeaderThen(header: seq<Byte>, padded: seq<Byte>, image: seq<Byte>, n: int)
    requires |header| == 64 && image == header + padded && 0 <= n <= |padded|
    requires forall i :: n <= i < |padded| ==> padded[i] == 0
    ensures image[..64] == header && image[64..] == padded
    ensures forall i :: 64 + n <= i < |image| ==> image[i] == 0
  {
    forall i | 64 + n <= i < |image| ensures image[i] == 0 {
      assert image[i] == padded[i - 64];
    }
  }

  /** Halfword k is bytes 2k and 2k + 1 of the image, the first of them low. */
  lemma HalfBytes(image: seq<Byte>, k: nat)
    requires |image| % 2 == 0 && 2 * k + 1 < |image|
    ensures |Halves(image)| == |image| / 2
    ensures Halves(image)[k] % 256 == image[2 * k] && Halves(image)[k] / 256 == image[2 * k + 1]
  {
    assert Halves(image)[k] == HalfAt(image, k);
  }

  lemma DigitIs(d: int)
    requires 0 <= d < 16
    ensures HexDigit(d) == "0123456789abcdef"[d]
  {
  }

  lemma HalfDigits(half: Half)
    ensures var hex := "0123456789abcdef";
      |Digits(half)| == 4 && Digits(half)[0] == hex[half / 4096] && Digits(half)[1] == hex[half / 256 % 16]
      && Digits(half)[2] == hex[half / 16 % 16] && Digits(half)[3] == hex[half % 16]
  {
    DigitIs(half / 4096);
    DigitIs(half / 256 % 16);
    DigitIs(half / 16 % 16);
    DigitIs(half % 16);
  }

  // Line k of the text, its five characters starting at `at`.
  ghost predicate LineAt(text: string, at: int, half: Half) {
    var hex := "0123456789abcdef";
    && 0 <= at && at + 5 <= |text|
    && text[at] == hex[half / 4096] && text[at + 1] == hex[half / 256 % 16]
    && text[at + 2] == hex[half / 16 % 16] && text[at + 3] == hex[half % 16] && text[at + 4] == '\n'
  }

  /** The text has five characters a halfword: four lower-case hexadecimal digits, the
      highest first, and a newline. */
  lemma {:induction false} TextLines(halves: seq<Half>)
    requires halves != []
    ensures |Text(halves)| == 5 * |halves|
    ensures forall k :: 0 <= k < |halves| ==> LineAt(Text(halves), 5 * k, halves[k])
    decreases |halves|
  {
    var rest := halves[1..];
    FirstLine(halves, rest);
    if |halves| > 1 {
      TextLines(rest);
      forall k | 1 <= k < |halves| ensures LineAt(Text(halves), 5 * k, halves[k]) {
        LineLater(Text(rest), Text(halves), 5 * k - 5, rest[k - 1]);
      }
    }
  }

  lemma FirstLine(halves: seq<Half>, rest: seq<Half>)
    requires halves != [] && rest == halves[1..]
    ensures LineAt(Text(halves), 0, halves[0])
    ensures |halves| == 1 ==> |Text(halves)| == 5
    ensures |halves| > 1 ==> |Text(halves)| == |Text(rest)| + 5 && Text(halves)[5..] == Text(rest)
  {
    HalfDigits(halves[0]);
    if |halves| > 1 {
      assert Text(halves) == Digits(halves[0]) + "\n" + Text(rest);
    } else {
      assert Text(halves) == Digits(halves[0]) + "\n";
    }
  }

  lemma LineLater(rest: string, text: string, at: int, half: Half)
    requires |text| == |rest| + 5 && text[5..] == rest && LineAt(rest, at, half)
    ensures LineAt(text, at + 5, half)
  {
    assert forall i :: at <= i < at + 5 ==> rest[i] == text[i + 5];
  }
}
