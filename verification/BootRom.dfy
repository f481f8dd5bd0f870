/** The first-stage boot ROM: its 64-bit checks, copy loop and checksum as register
    steps over a byte memory, for arbitrary flash contents. */
module BootRom {
  import opened Prelude
  import opened BootWords
  import opened BootImage

  const BPI_BASE: int := 0x2000_0000
  const BPI_BYTES: int := 0x800_0000
  const PAYLOAD: int := BPI_BASE + HEADER

  // What a load of one byte anywhere in the address space returns.
  type Flash = int -> Byte

  type Memory = map<int, Byte>

  function Bytes(flash: Flash, from: int, n: nat): (bytes: seq<Byte>)
    ensures |bytes| == n && forall i :: 0 <= i < n ==> bytes[i] == flash(from + i)
  {
    seq(n, i => flash(from + i))
  }

  function LoadWord(flash: Flash, address: int): (word: int)
    ensures 0 <= word < WORD_LIMIT
  {
    JoinBound(Bytes(flash, address, 8));
    WordPower();
    Join(Bytes(flash, address, 8))
  }

  // n words from an address on.
  function FlashWords(flash: Flash, from: int, n: nat): (words: seq<int>)
    ensures |words| == n
    ensures forall k :: 0 <= k < n ==> words[k] == LoadWord(flash, from + 8 * k) && 0 <= words[k] < WORD_LIMIT
  {
    seq(n, k => LoadWord(flash, from + 8 * k))
  }

  // Memory after some bytes have been stored from an address on.
  function Stored(memory: Memory, at: int, bytes: seq<Byte>): (after: Memory)
    ensures forall a :: at <= a < at + |bytes| ==> a in after && after[a] == bytes[a - at]
    ensures forall a :: !(at <= a < at + |bytes|) ==> (a in after <==> a in memory)
    ensures forall a :: !(at <= a < at + |bytes|) && a in memory ==> after[a] == memory[a]
  {
    memory + map a {:trigger a in memory} | at <= a < at + |bytes| :: bytes[a - at]
  }

  lemma StoredMore(memory: Memory, at: int, bytes: seq<Byte>, next: int, more: seq<Byte>, all: seq<Byte>)
    requires next == at + |bytes| && all == bytes + more
    ensures Stored(Stored(memory, at, bytes), next, more) == Stored(memory, at, all)
  {
    var left, right := Stored(Stored(memory, at, bytes), next, more), Stored(memory, at, all);
    forall a ensures (a in left <==> a in right) && (a in left ==> left[a] == right[a]) {
    }
  }

  // The header fields.
  function Size(flash: Flash): int { LoadWord(flash, BPI_BASE + 16) }
  function Load(flash: Flash): int { LoadWord(flash, BPI_BASE + 24) }
  function Entry(flash: Flash): int { LoadWord(flash, BPI_BASE + 32) }
  function Checksum(flash: Flash): int { LoadWord(flash, BPI_BASE + 40) }

  /** What the header must say, over unbounded integers. */
  predicate Accepts(flash: Flash) {
    && LoadWord(flash, BPI_BASE) == MAGIC && LoadWord(flash, BPI_BASE + 8) == VERSION
    && Size(flash) > 0 && Size(flash) % 8 == 0
    && DDR_BASE <= Load(flash) && Load(flash) + Size(flash) <= DDR_LIMIT
    && Load(flash) <= Entry(flash) < Load(flash) + Size(flash)
  }

  // How the ROM ends: at the entry, in the wait loop, or in a misaligned store's trap.
  datatype Outcome = Jump(pc: int) | Halt | Misaligned(address: int)

  // The sum over the payload that the header announces.
  function PayloadSum(flash: Flash): int
    requires Size(flash) >= 0
  {
    XorAll(FlashWords(flash, PAYLOAD, Size(flash) / 8))
  }

  /** How the ROM ends on a given flash; the jump instruction clears the lowest bit. */
  function Ending(flash: Flash): Outcome {
    if !Accepts(flash) then Halt
    else if Load(flash) % 8 != 0 then Misaligned(Load(flash))
    else if PayloadSum(flash) != Checksum(flash) then Halt
    else Jump(Entry(flash) - Entry(flash) % 2)
  }

  // Whether the copy loop runs to its end.
  predicate Copies(flash: Flash) {
    Accepts(flash) && Load(flash) % 8 == 0
  }

  // The sum of two 64-bit words, which wraps around.
  function Add(a: int, b: int): (c: int)
    requires 0 <= a < WORD_LIMIT && 0 <= b < WORD_LIMIT
    ensures 0 <= c < WORD_LIMIT
  {
    if a + b < WORD_LIMIT then a + b else a + b - WORD_LIMIT
  }

  class Hart {
    var memory: Memory
    ghost var stores: seq<int>    // the addresses of all stores so far

    constructor (memory: Memory)
      ensures this.memory == memory && stores == []
    {
      this.memory := memory;
      stores := [];
    }

    // Stores a word whose eight bytes are given.
    method StoreWord(address: int, word: nat, ghost bytes: seq<Byte>)
      requires |bytes| == 8 && Join(bytes) == word
      modifies this
      ensures memory == Stored(old(memory), address, bytes) && stores == old(stores) + [address]
    {
      SplitJoin(bytes);
      memory := Stored(memory, address, Split(word, 8));
      stores := stores + [address];
    }

    /** The checks on the header, with wrapping 64-bit additions. */
    method Check(flash: Flash) returns (pass: bool, t3: int, t4: int, t5: int, s0: int)
      ensures pass <==> Accepts(flash)
      ensures pass ==> t3 == Size(flash) && t4 == Load(flash) && t5 == Entry(flash) && s0 == Checksum(flash)
    {
      var t0 := BPI_BASE;
      t3, t4, t5, s0 := 0, 0, 0, 0;
      var t1 := LoadWord(flash, t0);
      if t1 != MAGIC {
        return false, t3, t4, t5, s0;
      }
      t1 := LoadWord(flash, t0 + 8);
      if t1 != VERSION {
        return false, t3, t4, t5, s0;
      }
      t3 := LoadWord(flash, t0 + 16);
      if t3 == 0 || t3 % 8 != 0 {
        return false, t3, t4, t5, s0;
      }
      t4 := LoadWord(flash, t0 + 24);
      t5 := LoadWord(flash, t0 + 32);
      s0 := LoadWord(flash, t0 + 40);
      var a2 := Add(t4, t3);
      pass := !(t4 < DDR_BASE) && !(a2 < t4) && !(a2 > DDR_LIMIT) && !(t5 < t4) && !(t5 >= a2);
    }

    // The first k words have been copied and summed.
    ghost predicate Progress(flash: Flash, load: int, k: nat, a4: int, start: Memory, before: seq<int>)
      reads this
    {
      && a4 == XorAll(FlashWords(flash, PAYLOAD, k))
      && memory == Copied(flash, start, load, k) && stores == before + Stores(load, k)
    }

    // One word goes from flash to memory.
    method MoveWord(flash: Flash, t0: int, t4: int, ghost load: int, ghost k: nat, ghost start: Memory)
      returns (a3: int)
      requires t0 == PAYLOAD + 8 * k && t4 == load + 8 * k && memory == Copied(flash, start, load, k)
      modifies this
      ensures a3 == LoadWord(flash, t0) && memory == Copied(flash, start, load, k + 1)
      ensures stores == old(stores) + [t4]
    {
      a3 := LoadWord(flash, t0);
      CopyStep(flash, start, load, k, t0, t4, memory);
      StoreWord(t4, a3, Bytes(flash, t0, 8));
    }

    // One word goes from flash to memory and into the sum.
    method CopyWord(flash: Flash, t0: int, t4: int, a4: int,
                    ghost load: int, ghost k: nat, ghost start: Memory, ghost before: seq<int>) returns (sum: int)
      requires t0 == PAYLOAD + 8 * k && t4 == load + 8 * k && Progress(flash, load, k, a4, start, before)
      modifies this
      ensures Progress(flash, load, k + 1, sum, start, before)
    {
      var a3 := MoveWord(flash, t0, t4, load, k, start);
      sum := Xor(a4, a3);
      FoldStep(flash, k);
      StoresStep(before, load, k);
    }

    /** The copy loop over n words, from registers as the checks leave them. */
    method CopyLoop(flash: Flash, size: int, load: int, ghost n: nat) returns (sum: int)
      requires 0 < size == 8 * n && DDR_BASE <= load && load + size <= DDR_LIMIT && load % 8 == 0
      modifies this
      ensures Progress(flash, load, n, sum, old(memory), old(stores))
    {
      var t0, t3, t4, a4 := PAYLOAD, size, load, 0;
      ghost var k := 0;
      assert Copied(flash, memory, load, 0) == memory;
      while t3 != 0
        invariant 0 <= k <= n && t3 == size - 8 * k && t0 == PAYLOAD + 8 * k && t4 == load + 8 * k
        invariant Progress(flash, load, k, a4, old(memory), old(stores))
        decreases t3
      {
        a4 := CopyWord(flash, t0, t4, a4, load, k, old(memory), old(stores));
        t0 := Add(t0, 8);
        t4 := Add(t4, 8);
        t3 := Add(t3, WORD_LIMIT - 8);
        k := k + 1;
      }
      sum := a4;
    }

    /** The whole ROM, for any flash and any memory: the header is accepted exactly by the
        unbounded predicate, stores go to [load, load + size) only, word by word, and the
        jump is taken exactly when the sum is the header's. */
    method Start(flash: Flash) returns (outcome: Outcome)
      modifies this
      ensures outcome == Ending(flash)
      ensures memory == if Copies(flash)
        then Copied(flash, old(memory), Load(flash), Size(flash) / 8) else old(memory)
      ensures stores == old(stores) + if Copies(flash)
        then Stores(Load(flash), Size(flash) / 8) else []
    {
      var pass, t3, t4, t5, s0 := Check(flash);
      if !pass {
        return Halt;
      }
      if t4 % 8 != 0 {
        return Misaligned(t4);
      }
      var a4 := CopyLoop(flash, t3, t4, t3 / 8);
      if a4 != s0 {
        return Halt;
      }
      outcome := Jump(t5 - t5 % 2);
    }
  }

  lemma FoldStep(flash: Flash, k: nat)
    ensures XorAll(FlashWords(flash, PAYLOAD, k + 1))
         == Xor(XorAll(FlashWords(flash, PAYLOAD, k)), LoadWord(flash, PAYLOAD + 8 * k))
  {
    assert FlashWords(flash, PAYLOAD, k + 1)[..k] == FlashWords(flash, PAYLOAD, k);
  }

  // Memory after the first k words have been copied.
  ghost function Copied(flash: Flash, memory: Memory, load: int, k: nat): Memory {
    Stored(memory, load, Bytes(flash, PAYLOAD, 8 * k))
  }

  // The addresses of the first k stores.
  ghost function Stores(load: int, k: nat): (addresses: seq<int>)
    ensures |addresses| == k && forall i :: 0 <= i < k ==> addresses[i] == load + 8 * i
  {
    seq(k, i => load + 8 * i)
  }

  /** No store leaves the range the header announces, which lies in DDR. */
  lemma StoresInDdr(flash: Flash, i: int)
    requires Copies(flash) && 0 <= i < Size(flash) / 8
    ensures var a := Stores(Load(flash), Size(flash) / 8)[i];
      DDR_BASE <= Load(flash) <= a && a + 8 <= Load(flash) + Size(flash) <= DDR_LIMIT && a % 8 == 0
  {
  }

  lemma StoresStep(before: seq<int>, load: int, k: nat)
    ensures before + Stores(load, k + 1) == before + Stores(load, k) + [load + 8 * k]
  {
    assert Stores(load, k + 1) == Stores(load, k) + [load + 8 * k];
  }

  lemma CopyStep(flash: Flash, memory: Memory, load: int, k: nat, from: int, at: int, before: Memory)
    requires from == PAYLOAD + 8 * k && at == load + 8 * k && before == Copied(flash, memory, load, k)
    ensures Stored(before, at, Bytes(flash, from, 8)) == Copied(flash, memory, load, k + 1)
  {
    var head, word, all := Bytes(flash, PAYLOAD, 8 * k), Bytes(flash, from, 8), Bytes(flash, PAYLOAD, 8 * (k + 1));
    assert head + word == all;
    StoredMore(memory, load, head, at, word, all);
  }

  // Two flashes with the same 64 bytes of header.
  ghost predicate SameHeader(flash: Flash, other: Flash) {
    forall a :: BPI_BASE <= a < PAYLOAD ==> flash(a) == other(a)
  }

  lemma SameWord(flash: Flash, other: Flash, at: int)
    requires forall a :: at <= a < at + 8 ==> flash(a) == other(a)
    ensures LoadWord(flash, at) == LoadWord(other, at)
  {
    assert Bytes(flash, at, 8) == Bytes(other, at, 8);
  }

  lemma SameFields(flash: Flash, other: Flash)
    requires SameHeader(flash, other)
    ensures Accepts(flash) == Accepts(other) && Size(flash) == Size(other) && Load(flash) == Load(other)
    ensures Entry(flash) == Entry(other) && Checksum(flash) == Checksum(other)
  {
    SameWord(flash, other, BPI_BASE);
    SameWord(flash, other, BPI_BASE + 8);
    SameWord(flash, other, BPI_BASE + 16);
    SameWord(flash, other, BPI_BASE + 24);
    SameWord(flash, other, BPI_BASE + 32);
    SameWord(flash, other, BPI_BASE + 40);
  }

  /** Of two flashes with the same header, one that boots and another: the other boots too
      exactly when its payload has the same sum. */
  lemma BootsIffSameSum(flash: Flash, other: Flash)
    requires SameHeader(flash, other) && Ending(flash).Jump? && Size(other) >= 0
    ensures Ending(other) == if PayloadSum(other) == PayloadSum(flash) then Ending(flash) else Halt
  {
    SameFields(flash, other);
  }

  /** Any change confined to one payload word is rejected. */
  lemma OneWordChanged(flash: Flash, other: Flash, k: int)
    requires SameHeader(flash, other) && Ending(flash).Jump? && 0 <= k < Size(flash) / 8
    requires forall i :: 0 <= i < Size(flash) / 8 && i != k ==>
      LoadWord(flash, PAYLOAD + 8 * i) == LoadWord(other, PAYLOAD + 8 * i)
    ensures Ending(other) == Ending(flash) <==> LoadWord(flash, PAYLOAD + 8 * k) == LoadWord(other, PAYLOAD + 8 * k)
    ensures LoadWord(flash, PAYLOAD + 8 * k) != LoadWord(other, PAYLOAD + 8 * k) ==> Ending(other) == Halt
  {
    SameFields(flash, other);
    BootsIffSameSum(flash, other);
    var n := Size(flash) / 8;
    var words, changed := FlashWords(flash, PAYLOAD, n), FlashWords(other, PAYLOAD, n);
    assert changed == words[k := changed[k]];
    XorAllUpdate(words, k, changed[k]);
    var sum, d := XorAll(words), Xor(words[k], changed[k]);
    assert words[k] == changed[k] ==> changed == words;
    if XorAll(changed) == sum {
      XorUnchanged(sum, d);
      XorCancels(words[k], changed[k]);
    }
  }

  lemma XorUnchanged(sum: int, d: int)
    requires sum >= 0 && d >= 0 && Xor(sum, d) == sum
    ensures d == 0
  {
    XorAssociates(sum, sum, d);
    XorZero(sum);
    XorZero(d);
  }
}
