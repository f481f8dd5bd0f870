/** Bytes, little-endian words and the exclusive or that sums them. */
module BootWords {
  import opened Prelude

  const WORD_LIMIT: int := 0x1_0000_0000_0000_0000

  function Join(bytes: seq<Byte>): (v: int)
    ensures v >= 0
  {
    if bytes == [] then 0 else bytes[0] + 256 * Join(bytes[1..])
  }

  function Split(v: nat, n: nat): (bytes: seq<Byte>)
    ensures |bytes| == n
    decreases v, n
  {
    if n == 0 then [] else [v % 256] + Split(v / 256, n - 1)
  }

  function Power(n: nat): (p: int)
    ensures p >= 1
  {
    if n == 0 then 1 else 256 * Power(n - 1)
  }

  lemma {:induction false} JoinBound(bytes: seq<Byte>)
    ensures Join(bytes) < Power(|bytes|)
  {
    if bytes != [] {
      JoinBound(bytes[1..]);
    }
  }

  lemma LowByte(low: Byte, high: int)
    requires high >= 0
    ensures (low + 256 * high) % 256 == low && (low + 256 * high) / 256 == high
  {
  }

  lemma {:induction false} SplitJoin(bytes: seq<Byte>)
    ensures Split(Join(bytes), |bytes|) == bytes
  {
    if bytes != [] {
      LowByte(bytes[0], Join(bytes[1..]));
      SplitJoin(bytes[1..]);
      assert [bytes[0]] + bytes[1..] == bytes;
    }
  }

  lemma {:induction false} JoinSplit(v: int, n: nat)
    requires 0 <= v < Power(n)
    ensures Join(Split(v, n)) == v
  {
    if n > 0 {
      JoinSplit(v / 256, n - 1);
    }
  }

  /** Bitwise exclusive or of two non-negative integers. */
  function Xor(a: int, b: int): (c: int)
    requires a >= 0 && b >= 0
    ensures c >= 0
    decreases a + b
  {
    if a == 0 && b == 0 then 0 else (a + b) % 2 + 2 * Xor(a / 2, b / 2)
  }

  lemma {:induction false} XorZero(a: int)
    requires a >= 0
    ensures Xor(a, 0) == Xor(0, a) == a && Xor(a, a) == 0
    decreases a
  {
    if a > 0 {
      XorZero(a / 2);
    }
  }

  lemma {:induction false} XorCommutes(a: int, b: int)
    requires a >= 0 && b >= 0
    ensures Xor(a, b) == Xor(b, a)
    decreases a + b
  {
    if a != 0 || b != 0 {
      XorCommutes(a / 2, b / 2);
    }
  }

  lemma XorHalves(a: int, b: int)
    requires a >= 0 && b >= 0
    ensures Xor(a, b) / 2 == Xor(a / 2, b / 2) && Xor(a, b) % 2 == (a + b) % 2
  {
  }

  lemma Parity(a: int, b: int, c: int, p: int)
    requires p % 2 == (a + b) % 2
    ensures (p + c) % 2 == (a + b + c) % 2
  {
  }

  lemma {:induction false} XorAssociates(a: int, b: int, c: int)
    requires a >= 0 && b >= 0 && c >= 0
    ensures Xor(Xor(a, b), c) == Xor(a, Xor(b, c))
    decreases a + b + c
  {
    var p, q := Xor(a, b), Xor(b, c);
    XorHalves(a, b);
    XorHalves(b, c);
    XorHalves(p, c);
    XorHalves(a, q);
    Parity(a, b, c, p);
    Parity(b, c, a, q);
    if a + b + c > 0 {
      XorAssociates(a / 2, b / 2, c / 2);
      SameHalves(Xor(p, c), Xor(a, q));
    }
  }

  lemma SameHalves(x: int, y: int)
    requires x / 2 == y / 2 && x % 2 == y % 2
    ensures x == y
  {
  }

  function Bits(n: nat): (p: int)
    ensures p >= 1
  {
    if n == 0 then 1 else 2 * Bits(n - 1)
  }

  lemma {:induction false} PowerBits(n: nat)
    ensures Power(n) == Bits(8 * n)
  {
    if n > 0 {
      PowerBits(n - 1);
      var m := 8 * n - 8;
      assert Bits(m + 4) == 2 * Bits(m + 3) == 4 * Bits(m + 2) == 8 * Bits(m + 1) == 16 * Bits(m);
      assert Bits(m + 8) == 2 * Bits(m + 7) == 4 * Bits(m + 6) == 8 * Bits(m + 5) == 16 * Bits(m + 4);
    }
  }

  lemma WordPower()
    ensures Power(8) == Bits(64) == WORD_LIMIT
  {
    PowerBits(8);
  }

  lemma {:induction false} XorBelow(a: int, b: int, n: nat)
    requires 0 <= a < Bits(n) && 0 <= b < Bits(n)
    ensures Xor(a, b) < Bits(n)
    decreases n
  {
    XorZero(0);
    if n > 0 {
      XorHalves(a, b);
      XorBelow(a / 2, b / 2, n - 1);
    }
  }

  /** The exclusive or of a list of words, from the first on. */
  function XorAll(words: seq<int>): (c: int)
    requires forall k :: 0 <= k < |words| ==> words[k] >= 0
    ensures c >= 0
  {
    if words == [] then 0 else Xor(XorAll(words[..|words| - 1]), words[|words| - 1])
  }

  lemma {:induction false} XorAllBelow(words: seq<int>)
    requires forall k :: 0 <= k < |words| ==> 0 <= words[k] < WORD_LIMIT
    ensures XorAll(words) < WORD_LIMIT
  {
    if words != [] {
      WordPower();
      XorAllBelow(words[..|words| - 1]);
      XorBelow(XorAll(words[..|words| - 1]), words[|words| - 1], 64);
    }
  }

  /** Changing one word changes the sum by the difference of the two words. */
  lemma {:induction false} XorAllUpdate(words: seq<int>, k: int, w: int)
    requires forall i :: 0 <= i < |words| ==> words[i] >= 0
    requires 0 <= k < |words| && w >= 0
    ensures XorAll(words[k := w]) == Xor(XorAll(words), Xor(words[k], w))
    decreases |words|
  {
    var last := |words| - 1;
    var rest, x := XorAll(words[..last]), words[last];
    if k == last {
      assert words[k := w][..last] == words[..last];
      XorAssociates(rest, x, Xor(x, w));
      XorAssociates(x, x, w);
      XorZero(x);
      XorZero(w);
    } else {
      assert words[k := w][..last] == words[..last][k := w];
      XorAllUpdate(words[..last], k, w);
      var d := Xor(words[k], w);
      XorAssociates(rest, d, x);
      XorCommutes(d, x);
      XorAssociates(rest, x, d);
    }
  }

  /** Equal sums before and after mean that the word did not change. */
  lemma {:induction false} XorCancels(a: int, b: int)
    requires a >= 0 && b >= 0 && Xor(a, b) == 0
    ensures a == b
    decreases a + b
  {
    if a != 0 || b != 0 {
      XorCancels(a / 2, b / 2);
    }
  }
}
