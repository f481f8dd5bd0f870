/** Columns of the generated matrix: moving down a row is one affine step of the generator,
    so a column can be followed and totalled without drawing the rest. */
module LuColumns {
  import opened RealSums
  import opened LuDominance
  import opened LuGenerator

  function Affine(a: int, c: int, x: int): int {
    (a * x + c) % WORD_LIMIT
  }

  // m steps of the generator are one affine step.
  ghost predicate Jumps(seed: int, m: nat, a: int, c: int) {
    forall t :: 0 <= t ==> Word(seed, t + m) == Affine(a, c, Word(seed, t))
  }

  lemma Remainders(x: int, y: int, q: int)
    requires x == y + q * WORD_LIMIT
    ensures x % WORD_LIMIT == y % WORD_LIMIT
  {
  }

  lemma AffineTwice(a: int, c: int, b: int, d: int, x: int)
    ensures Affine(b, d, Affine(a, c, x)) == Affine(a * b % WORD_LIMIT, (b * c + d) % WORD_LIMIT, x)
  {
    var y, p, r := a * x + c, a * b, b * c + d;
    var q := y / WORD_LIMIT;
    var u, v := p / WORD_LIMIT, r / WORD_LIMIT;
    calc {
      b * Affine(a, c, x) + d + (b * q) * WORD_LIMIT;
      b * (Affine(a, c, x) + q * WORD_LIMIT) + d;
      b * y + d;
      p * x + r;
      (u * WORD_LIMIT + p % WORD_LIMIT) * x + v * WORD_LIMIT + r % WORD_LIMIT;
      (p % WORD_LIMIT) * x + r % WORD_LIMIT + (u * x + v) * WORD_LIMIT;
    }
    Remainders(b * Affine(a, c, x) + d, (p % WORD_LIMIT) * x + r % WORD_LIMIT, u * x + v - b * q);
  }

  lemma JumpsAdd(seed: int, m: nat, a: int, c: int, k: nat, b: int, d: int, e: int, f: int)
    requires Jumps(seed, m, a, c) && Jumps(seed, k, b, d)
    requires e == a * b % WORD_LIMIT && f == (b * c + d) % WORD_LIMIT
    ensures Jumps(seed, m + k, e, f)
  {
    forall t | 0 <= t ensures Word(seed, t + (m + k)) == Affine(e, f, Word(seed, t)) {
      assert Word(seed, t + m + k) == Affine(b, d, Word(seed, t + m));
      AffineTwice(a, c, b, d, Word(seed, t));
    }
  }

  // Distance from zero of a word's fraction, in units of 1/65536.
  function Units(word: int): int {
    var u := (word / 256) % 65536 - 32768;
    if u < 0 then -u else u
  }

  lemma UnitsMeaning(word: int)
    ensures Abs(Element(word, false)) == Units(word) as real / 65536.0
  {
    var bits := (word / 256) % 65536;
    assert Element(word, false) == (bits - 32768) as real / 65536.0;
  }

  // The first `rows` entries of a column of order n, in units of 1/65536.
  ghost function Column(seed: int, n: int, column: int, rows: nat): int
    decreases rows, seed
  {
    if rows == 0 then 0
    else Column(seed, n, column, rows - 1) + Units(Word(seed, n * (rows - 1) + column + 1))
  }

  // The entry below `rows` others is drawn as `word`, and they total `units`.
  ghost predicate Reaches(seed: int, n: int, column: int, rows: int, word: int, units: int) {
    0 <= rows && Word(seed, n * rows + column + 1) == word && Column(seed, n, column, rows) == units
  }

  lemma ReachesNext(seed: int, n: nat, column: nat, rows: int, word: int, units: int, a: int, c: int)
    requires Reaches(seed, n, column, rows, word, units) && Jumps(seed, n, a, c)
    ensures Reaches(seed, n, column, rows + 1, Affine(a, c, word), units + Units(word))
  {
    var t := n * rows + column + 1;
    assert n * (rows + 1) + column + 1 == t + n;
    assert n * rows >= 0;
    assert Word(seed, t + n) == Affine(a, c, Word(seed, t));
  }

  // One row further down.
  predicate Below(a: int, c: int, rows: int, word: int, units: int, down: int, next: int, total: int) {
    down == rows + 1 && next == Affine(a, c, word) && total == units + Units(word)
  }

  // What holds of a row, the word drawn there and the total above it, moves down a row.
  ghost predicate MovesDown(reaches: (int, int, int) -> bool, a: int, c: int) {
    forall rows, word, units, down, next, total {:trigger reaches(rows, word, units), reaches(down, next, total)} ::
      0 <= rows && reaches(rows, word, units) && Below(a, c, rows, word, units, down, next, total) ==>
        reaches(down, next, total)
  }

  lemma NextRow(reaches: (int, int, int) -> bool, a: int, c: int, rows: int, word: int, units: int)
    requires MovesDown(reaches, a, c) && 0 <= rows && reaches(rows, word, units)
    ensures reaches(rows + 1, Affine(a, c, word), units + Units(word))
  {
    assert Below(a, c, rows, word, units, rows + 1, Affine(a, c, word), units + Units(word));
  }

  // Four rows at once.
  lemma FourRows(reaches: (int, int, int) -> bool, a: int, c: int, rows: int, units: int,
                 w0: int, w1: int, w2: int, w3: int, total: int)
    requires MovesDown(reaches, a, c) && 0 <= rows && reaches(rows, w0, units)
    requires w1 == Affine(a, c, w0) && w2 == Affine(a, c, w1) && w3 == Affine(a, c, w2)
    requires total == units + Units(w0) + Units(w1) + Units(w2) + Units(w3)
    ensures reaches(rows + 4, Affine(a, c, w3), total)
  {
    NextRow(reaches, a, c, rows, w0, units);
    NextRow(reaches, a, c, rows + 1, w1, units + Units(w0));
    NextRow(reaches, a, c, rows + 2, w2, units + Units(w0) + Units(w1));
    NextRow(reaches, a, c, rows + 3, w3, units + Units(w0) + Units(w1) + Units(w2));
  }

  // Following a column, kept apart from what the words and totals are of.
  ghost function Reaching(seed: int, n: nat, column: nat): (reaches: (int, int, int) -> bool)
    ensures forall rows, word, units :: reaches(rows, word, units) <==> Reaches(seed, n, column, rows, word, units)
  {
    (rows: int, word: int, units: int) => Reaches(seed, n, column, rows, word, units)
  }

  lemma ReachingMoves(seed: int, n: nat, column: nat, a: int, c: int)
    requires Jumps(seed, n, a, c)
    ensures MovesDown(Reaching(seed, n, column), a, c)
  {
    var reaches := Reaching(seed, n, column);
    forall rows, word, units, down, next, total
      | 0 <= rows && reaches(rows, word, units) && Below(a, c, rows, word, units, down, next, total)
      ensures reaches(down, next, total)
    {
      ReachesNext(seed, n, column, rows, word, units, a, c);
    }
  }

  lemma ReachingStarts(seed: int, n: nat, column: nat, word: int)
    requires Word(seed, column + 1) == word
    ensures Reaching(seed, n, column)(0, word, 0)
  {
    assert n * 0 + column + 1 == column + 1;
    assert Reaches(seed, n, column, 0, word, 0);
  }

  // Units of the diagonal entry, once the rows have passed it.
  ghost function Passed(seed: int, n: int, column: int, rows: int): int {
    if column < rows then Units(Word(seed, n * column + column + 1)) else 0
  }

  lemma {:induction false} ColumnIsSum(seed: int, n: int, column: nat, rows: nat)
    ensures Sum(OffDiagonal(Generated(n, Stream(seed)), column), 0, rows)
         == (Column(seed, n, column, rows) - Passed(seed, n, column, rows)) as real / 65536.0
  {
    if rows > 0 {
      ColumnIsSum(seed, n, column, rows - 1);
      NextTerm(seed, n, column, rows - 1);
    }
  }

  lemma NextTerm(seed: int, n: int, column: nat, row: nat)
    ensures OffDiagonal(Generated(n, Stream(seed)), column)(row)
         == (Units(Word(seed, n * row + column + 1))
             - (Passed(seed, n, column, row + 1) - Passed(seed, n, column, row))) as real / 65536.0
  {
    var word := Word(seed, n * row + column + 1);
    GeneratedEntry(n, Stream(seed), row, column);
    assert row * n + column + 1 == n * row + column + 1;
    assert Stream(seed)(row * n + column) == word;
    UnitsMeaning(word);
  }
}
