/** The benchmark matrix: a linear congruential stream with ten added on the diagonal. */
module LuGenerator {
  import opened RealSums
  import opened LuFactor
  import opened LuSingular
  import opened LuDominance

  const WORD_LIMIT := 0x1_0000_0000
  const SEED := 0x13579bdf

  function NextWord(state: int): (next: int)
    ensures 0 <= next < WORD_LIMIT
  {
    (state * 1664525 + 1013904223) % WORD_LIMIT
  }

  // The state after t steps of the generator.
  function Word(seed: int, t: int): int
    decreases t, seed
  {
    if t <= 0 then seed else NextWord(Word(seed, t - 1))
  }

  // Bits 8 to 23 of the word as a fraction, moved to [-1/2, 1/2).
  function Element(word: int, diagonal: bool): real {
    ((word / 256) % 65536) as real / 65536.0 - 0.5 + (if diagonal then 10.0 else 0.0)
  }

  /** The matrix drawn from an arbitrary stream of words, one word per entry in row order. */
  ghost function Generated(n: int, words: int -> int): Matrix {
    (i: int, j: int) => Element(words(i * n + j), i == j)
  }

  ghost function Stream(seed: int): int -> int {
    (t: int) => Word(seed, t + 1)
  }

  ghost function NoBits(): int -> int {
    (t: int) => 0
  }

  ghost function Ones(): Vector {
    (i: int) => 1.0
  }

  lemma ElementRange(word: int, diagonal: bool)
    ensures diagonal ==> 9.5 <= Element(word, diagonal) < 10.5
    ensures !diagonal ==> -0.5 <= Element(word, diagonal) < 0.5
  {
    var bits := (word / 256) % 65536;
    assert 0.0 <= bits as real < 65536.0;
  }

  /** The value of an entry, bit by bit: it grows by 1/65536 with each step of bits 8 to 23,
      from -1/2 with all of them clear; the other bits do not matter; and the diagonal has ten
      more. */
  lemma ElementValue(low: int, bits: int, high: int)
    requires 0 <= low < 0x100 && 0 <= bits < 0x1_0000 && high >= 0
    ensures var word := low + 0x100 * bits + 0x100_0000 * high;
      && (bits == 0 ==> Element(word, false) == -0.5)
      && (bits < 0xffff ==> Element(word + 0x100, false) == Element(word, false) + 1.0 / 65536.0)
      && (bits == 0xffff ==> Element(word, false) == 0.5 - 1.0 / 65536.0)
      && Element(word, false) == Element(0x100 * bits, false) && Element(word, true) == Element(word, false) + 10.0
  {
    ElementBits(low, bits, high);
    ElementBits(0, bits, 0);
    if bits < 0xffff {
      ElementBits(low, bits + 1, high);
    }
  }

  lemma ElementBits(low: int, bits: int, high: int)
    requires 0 <= low < 0x100 && 0 <= bits < 0x1_0000 && high >= 0
    ensures (low + 0x100 * bits + 0x100_0000 * high) / 256 % 65536 == bits
  {
    var word := low + 0x100 * bits + 0x100_0000 * high;
    assert word / 256 == bits + 0x1_0000 * high;
  }

  // The first two words drawn from the seed.
  lemma FirstWords(k: int)
    requires k == 1
    ensures Word(0x13579bdf, k) == 1489221554 && Word(0x13579bdf, k + 1) == 2851222377
  {
  }

  lemma GeneratedEntry(n: int, words: int -> int, i: int, j: int)
    ensures Generated(n, words)(i, j) == Element(words(i * n + j), i == j)
  {
  }

  // How many words have been drawn before a row.
  ghost predicate Drawn(n: int, row: int, drawn: int) {
    0 <= drawn && drawn == row * n
  }

  // After so many words the generator draws this row of g.
  ghost predicate Draws(n: int, row: int, drawn: int, g: Matrix) {
    0 <= drawn && forall j :: 0 <= j < n ==> g(row, j) == Element(Word(SEED, drawn + j + 1), row == j)
  }

  lemma RowDrawn(n: int, row: int, drawn: int, g: Matrix)
    requires Drawn(n, row, drawn) && 0 <= n && g == Generated(n, Stream(SEED))
    ensures Draws(n, row, drawn, g) && Drawn(n, row + 1, drawn + n)
  {
    forall j | 0 <= j < n ensures g(row, j) == Element(Word(SEED, drawn + j + 1), row == j) {
      GeneratedEntry(n, Stream(SEED), row, j);
    }
    assert (row + 1) * n == row * n + n;
  }

  // At most one half for every row of the column except the diagonal one.
  lemma {:induction false} OffDiagonalAtMost(n: int, words: int -> int, j: int, hi: int)
    requires 0 <= hi
    ensures Sum(OffDiagonal(Generated(n, words), j), 0, hi)
         <= 0.5 * (hi - (if 0 <= j < hi then 1 else 0)) as real
    decreases hi
  {
    if hi > 0 {
      OffDiagonalAtMost(n, words, j, hi - 1);
      GeneratedEntry(n, words, hi - 1, j);
      ElementRange(words((hi - 1) * n + j), false);
    }
  }

  lemma {:induction false} OffDiagonalOfZeroWords(n: int, j: int, hi: int)
    requires 0 <= hi
    ensures Sum(OffDiagonal(Generated(n, NoBits()), j), 0, hi)
         == 0.5 * (hi - (if 0 <= j < hi then 1 else 0)) as real
    decreases hi
  {
    if hi > 0 {
      OffDiagonalOfZeroWords(n, j, hi - 1);
      GeneratedEntry(n, NoBits(), hi - 1, j);
      assert Element(0, false) == -0.5;
    }
  }

  lemma GeneratedDominant(n: int, words: int -> int)
    requires 0 < n <= 19
    ensures Dominant(Generated(n, words), 0, n)
  {
    var g := Generated(n, words);
    forall j | 0 <= j < n ensures Sum(OffDiagonal(g, j), 0, n) < Abs(g(j, j)) {
      OffDiagonalAtMost(n, words, j, n);
      GeneratedEntry(n, words, j, j);
      ElementRange(words(j * n + j), true);
    }
  }

  /** No property of the words is needed up to order 19, and from order 20 on some
      property is: dominance for arbitrary words ends there. */
  lemma DominanceGuaranteedIff(n: int)
    requires 0 < n
    ensures (forall words: int -> int :: Dominant(Generated(n, words), 0, n)) <==> n <= 19
  {
    if n <= 19 {
      forall words: int -> int ensures Dominant(Generated(n, words), 0, n) {
        GeneratedDominant(n, words);
      }
    } else {
      var g := Generated(n, NoBits());
      OffDiagonalOfZeroWords(n, 0, n);
      GeneratedEntry(n, NoBits(), 0, 0);
      assert Element(0, true) == 9.5;
      assert !Dominant(g, 0, n);
    }
  }

  /** All ones solves the generated system: the right-hand side is the row sums. */
  lemma OnesSolve(n: int, a: Matrix, r: int)
    ensures Apply(n, a, Ones())(r) == Sum(Across(a, r), 0, n)
  {
    SumCongruence(RowTerms(a, Ones(), r), Across(a, r), 0, n);
  }
}
