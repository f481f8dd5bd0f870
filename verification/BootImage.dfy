/** The packer: a payload becomes a header, padded bytes and the lines of a hex file;
    and the reader of such files. */
module BootImage {
  import opened Prelude
  import opened BootWords

  const MAGIC: int := 0x4552495343564150
  const VERSION: int := 1
  const HEADER: int := 64
  const DDR_BASE: int := 0x8000_0000
  const DDR_LIMIT: int := 0x1_0000_0000

  datatype Error = EmptyPayload | RangeOutsideDdr | EntryOutsidePayload

  // The payload filled up with zeros to whole words.
  function Padded(payload: seq<Byte>): (padded: seq<Byte>)
    ensures |padded| % 8 == 0 && payload <= padded && |padded| < |payload| + 8
    ensures forall i :: |payload| <= i < |padded| ==> padded[i] == 0
  {
    payload + seq((8 - |payload| % 8) % 8, i => 0)
  }

  function Words(data: seq<Byte>): (words: seq<int>)
    requires |data| % 8 == 0
    ensures |words| == |data| / 8
    ensures forall k :: 0 <= k < |words| ==> words[k] == Join(data[8 * k..8 * k + 8]) && words[k] >= 0
  {
    seq(|data| / 8, k requires 0 <= k < |data| / 8 => Join(data[8 * k..8 * k + 8]))
  }

  /** The checksum loop. */
  method Xor64Words(data: seq<Byte>) returns (checksum: int)
    requires |data| % 8 == 0
    ensures checksum == XorAll(Words(data))
  {
    checksum := 0;
    ghost var words := Words(data);
    var offset := 0;
    while offset < |data|
      invariant 0 <= offset <= |data| && offset % 8 == 0
      invariant checksum == XorAll(words[..offset / 8])
    {
      ghost var k := offset / 8;
      assert offset == 8 * k;
      assert words[..k + 1][..k] == words[..k];
      checksum := Xor(checksum, Join(data[offset..offset + 8]));
      offset := offset + 8;
    }
    assert words[..|words|] == words;
  }

  // The header's words in order.
  function Fields(size: nat, load: nat, entry: nat, checksum: nat): seq<nat> {
    [MAGIC, VERSION, size, load, entry, checksum, 0, 0]
  }

  // Eight bytes a field, the low byte first.
  function Packed(fields: seq<nat>): (bytes: seq<Byte>)
    ensures |bytes| == 8 * |fields|
  {
    seq(8 * |fields|, i requires 0 <= i < 8 * |fields| => Split(fields[i / 8], 8)[i % 8])
  }

  // The header of a padded payload.
  function Header(padded: seq<Byte>, load: nat, entry: nat): (header: seq<Byte>)
    requires |padded| % 8 == 0
    ensures |header| == HEADER
  {
    Packed(Fields(|padded|, load, entry, XorAll(Words(padded))))
  }

  predicate Fits(size: int, load: int) {
    DDR_BASE <= load < load + size <= DDR_LIMIT
  }

  /** The image the packer makes, or its refusal. */
  function Image(payload: seq<Byte>, load: int, entry: int): (r: Result<seq<Byte>, Error>)
    ensures r.Ok? ==> |r.value| == HEADER + |Padded(payload)| && |r.value| % 2 == 0
    ensures r.Ok? <==> payload != [] && Fits(|Padded(payload)|, load) && load <= entry < load + |Padded(payload)|
  {
    var padded := Padded(payload);
    if payload == [] then Err(EmptyPayload)
    else if !Fits(|padded|, load) then Err(RangeOutsideDdr)
    else if !(load <= entry < load + |padded|) then Err(EntryOutsidePayload)
    else Ok(Header(padded, load, entry) + padded)
  }

  type Half = x: int | 0 <= x < 0x10000

  // Two bytes a halfword, the low byte first.
  function HalfAt(image: seq<Byte>, k: nat): Half
    requires 2 * k + 1 < |image|
  {
    var low: int, high: int := image[2 * k], image[2 * k + 1];
    low + 256 * high
  }

  function Halves(image: seq<Byte>): (halves: seq<Half>)
    requires |image| % 2 == 0
    ensures |halves| == |image| / 2
    ensures forall k :: 0 <= k < |halves| ==> halves[k] == HalfAt(image, k)
  {
    seq(|image| / 2, k requires 0 <= k < |image| / 2 => HalfAt(image, k))
  }

  function HexDigit(d: int): char
    requires 0 <= d < 16
  {
    if d < 10 then (d + '0' as int) as char else (d - 10 + 'a' as int) as char
  }

  function Digits(half: Half): string {
    [HexDigit(half / 4096), HexDigit(half / 256 % 16), HexDigit(half / 16 % 16), HexDigit(half % 16)]
  }

  // The lines, separated by newlines.
  function Lines(halves: seq<Half>): string {
    if halves == [] then ""
    else if |halves| == 1 then Digits(halves[0])
    else Digits(halves[0]) + "\n" + Lines(halves[1..])
  }

  function Text(halves: seq<Half>): string {
    Lines(halves) + "\n"
  }

  function ImageText(payload: seq<Byte>, load: int, entry: int): Result<string, Error> {
    match Image(payload, load, entry)
    case Ok(image) => Ok(Text(Halves(image)))
    case Err(error) => Err(error)
  }

  // The image, from the bytes of the payload file.
  method PackImage(payload: seq<Byte>, load: int, entry: int) returns (r: Result<seq<Byte>, Error>)
    ensures r == Image(payload, load, entry)
  {
    if payload == [] {
      return Err(EmptyPayload);
    }
    var padded := Padded(payload);
    var checksum := Xor64Words(padded);
    var end := load + |padded|;
    if !(DDR_BASE <= load < end <= DDR_LIMIT) {
      return Err(RangeOutsideDdr);
    }
    if !(load <= entry < end) {
      return Err(EntryOutsidePayload);
    }
    var header := Packed(Fields(|padded|, load, entry, checksum));
    assert header == Header(padded, load, entry);
    r := Ok(header + padded);
  }

  // The whole packer: the text of the output file.
  method Pack(payload: seq<Byte>, load: int, entry: int) returns (r: Result<string, Error>)
    ensures r == ImageText(payload, load, entry)
  {
    var image := PackImage(payload, load, entry);
    match image {
      case Ok(bytes) => r := Ok(Text(Halves(bytes)));
      case Err(error) => r := Err(error);
    }
  }

  predicate White(c: char) {
    c == ' ' || c == '\n' || c == '\t' || c == '\r'
  }

  function HexValue(c: char): (d: int)
    ensures -1 <= d < 16
  {
    if '0' <= c <= '9' then c as int - '0' as int
    else if 'a' <= c <= 'f' then c as int - 'a' as int + 10
    else if 'A' <= c <= 'F' then c as int - 'A' as int + 10
    else -1
  }

  // One more digit of the number being read, if there is one.
  function Extended(number: Option<int>, d: int): int {
    (if number.Some? then 16 * number.value else 0) + d
  }

  /** Reads white-space separated hexadecimal numbers into 16-bit words, as $readmemh
      does (section 21.4 of IEEE 1800-2017), where `number` is the number being read.
      Comments, addresses, underscores and unknown digits are not modelled and refused. */
  function ReadMem(text: string, number: Option<int>): (words: Option<seq<Half>>)
    decreases |text|
  {
    if text == "" then
      Some(if number.Some? then [number.value % 0x10000] else [])
    else if White(text[0]) then
      var rest := ReadMem(text[1..], None);
      if number.Some? && rest.Some? then Some([number.value % 0x10000] + rest.value) else rest
    else if HexValue(text[0]) >= 0 then
      ReadMem(text[1..], Some(Extended(number, HexValue(text[0]))))
    else
      None
  }

  lemma HexDigitValue(d: int)
    requires 0 <= d < 16
    ensures HexValue(HexDigit(d)) == d && !White(HexDigit(d))
  {
  }

  lemma ReadStep(text: string, number: Option<int>)
    requires text != "" && !White(text[0]) && HexValue(text[0]) >= 0
    ensures ReadMem(text, number)
         == ReadMem(text[1..], Some(Extended(number, HexValue(text[0]))))
  {
  }

  lemma ReadOne(text: string, d: int, rest: string, number: Option<int>)
    requires 0 <= d < 16 && text == [HexDigit(d)] + rest
    ensures ReadMem(text, number) == ReadMem(rest, Some(Extended(number, d)))
  {
    HexDigitValue(d);
    ReadStep(text, number);
    assert text[1..] == rest;
  }

  lemma ReadDigits(half: Half, rest: string)
    ensures ReadMem(Digits(half) + rest, None) == ReadMem(rest, Some(half))
  {
    var a, b, c, d := half / 4096, half / 256 % 16, half / 16 % 16, half % 16;
    var r3 := [HexDigit(d)] + rest;
    var r2 := [HexDigit(c)] + r3;
    var r1 := [HexDigit(b)] + r2;
    var r0 := [HexDigit(a)] + r1;
    assert Digits(half) + rest == r0;
    ReadOne(r0, a, r1, None);
    ReadOne(r1, b, r2, Some(a));
    ReadOne(r2, c, r3, Some(16 * a + b));
    ReadOne(r3, d, rest, Some(16 * (16 * a + b) + c));
    DigitsValue(half);
  }

  lemma DigitsValue(half: Half)
    ensures 16 * (16 * (16 * (half / 4096) + half / 256 % 16) + half / 16 % 16) + half % 16 == half
  {
    assert half / 16 / 16 == half / 256 && half / 256 / 16 == half / 4096;
  }

  lemma ReadNewline(half: Half, rest: string)
    ensures ReadMem("\n" + rest, Some(half))
         == var r := ReadMem(rest, None); if r.Some? then Some([half] + r.value) else r
  {
    assert ("\n" + rest)[1..] == rest;
  }

  /** Reading what was printed gives the halfwords back. */
  lemma {:induction false} ReadText(halves: seq<Half>)
    ensures ReadMem(Text(halves), None) == Some(halves)
    decreases |halves|
  {
    if |halves| == 0 {
      assert Text(halves) == "\n";
      assert Text(halves)[1..] == "";
      assert halves == [];
    } else if |halves| == 1 {
      ReadDigits(halves[0], "\n");
      assert "\n" + "" == "\n";
      ReadNewline(halves[0], "");
      assert [halves[0]] + [] == halves;
    } else {
      var rest := Text(halves[1..]);
      assert Text(halves) == Digits(halves[0]) + ("\n" + rest);
      ReadDigits(halves[0], "\n" + rest);
      ReadNewline(halves[0], rest);
      ReadText(halves[1..]);
      assert [halves[0]] + halves[1..] == halves;
    }
  }
}
