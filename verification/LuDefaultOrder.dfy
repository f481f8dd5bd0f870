/** The benchmark's own matrix at its default order is not diagonally dominant: the first
    40 entries of column 43 already total more than any diagonal entry. */
module LuDefaultOrder {
  import opened RealSums
  import opened LuFactor
  import opened LuDominance
  import opened LuGenerator
  import opened LuColumns

  const ORDER := 100

  // Moving down a row at this order.
  const FACTOR := 4178364689
  const STEP := 2262755092

  // 10.5 in units of 1/65536.
  const LARGEST_DIAGONAL := 688128

  lemma RowJump(seed: int)
    ensures Jumps(seed, 44, 2390444593, 3503432700)
    ensures Jumps(seed, ORDER, FACTOR, STEP)
  {
    assert Jumps(seed, 1, 1664525, 1013904223);
    JumpsAdd(seed, 1, 1664525, 1013904223, 1, 1664525, 1013904223, 389569705, 1196435762);
    JumpsAdd(seed, 2, 389569705, 1196435762, 2, 389569705, 1196435762, 158984081, 2868466484);
    JumpsAdd(seed, 4, 158984081, 2868466484, 4, 158984081, 2868466484, 3934847009, 2748932008);
    JumpsAdd(seed, 8, 3934847009, 2748932008, 4, 158984081, 2868466484, 2941245873, 3167820124);
    JumpsAdd(seed, 8, 3934847009, 2748932008, 8, 3934847009, 2748932008, 2001863745, 2210837584);
    JumpsAdd(seed, 16, 2001863745, 2210837584, 16, 2001863745, 2210837584, 666245249, 95141024);
    JumpsAdd(seed, 32, 666245249, 95141024, 12, 2941245873, 3167820124, 2390444593, 3503432700);
    JumpsAdd(seed, 32, 666245249, 95141024, 4, 158984081, 2868466484, 3963176977, 2685635028);
    JumpsAdd(seed, 32, 666245249, 95141024, 32, 666245249, 95141024, 667185409, 1956956480);
    JumpsAdd(seed, 64, 667185409, 1956956480, 36, 3963176977, 2685635028, 4178364689, 2262755092);
  }

  function Step(word: int): int {
    (4178364689 * word + 2262755092) % WORD_LIMIT
  }

  // Four rows at once, with the step written out so that it can be computed.
  lemma Rows(reaches: (int, int, int) -> bool, rows: int, u0: int, w0: int, u1: int, w1: int, u2: int, w2: int,
             u3: int, w3: int, u4: int)
    requires MovesDown(reaches, FACTOR, STEP) && 0 <= rows && reaches(rows, w0, u0)
    requires w1 == Step(w0) && w2 == Step(w1) && w3 == Step(w2)
    requires u1 == u0 + Units(w0) && u2 == u1 + Units(w1) && u3 == u2 + Units(w2) && u4 == u3 + Units(w3)
    ensures reaches(rows + 4, Step(w3), u4)
  {
    FourRows(reaches, FACTOR, STEP, rows, u0, w0, w1, w2, w3, u4);
  }

  lemma FortyRows(reaches: (int, int, int) -> bool)
    requires MovesDown(reaches, FACTOR, STEP) && reaches(0, 1841983403, 0)
    ensures reaches(40, 2606960971, 775335)
  {
    Rows(reaches, 0, 0, 1841983403, 19055, 1375835247, 51419, 582543731, 65988, 3503665847, 87926);
    Rows(reaches, 4, 87926, 2381673531, 117994, 2184311295, 137977, 3257217027, 161225, 3375198791, 182359);
    Rows(reaches, 8, 182359, 4226890955, 211347, 4146287503, 235072, 2928065171, 236794, 2687677911, 256581);
    Rows(reaches, 12, 256581, 2685847899, 283516, 4290689311, 299573, 374769955, 310188, 1827568999, 338473);
    Rows(reaches, 16, 338473, 318708203, 371010, 3744277167, 392224, 2689440691, 405125, 2192165111, 415821);
    Rows(reaches, 20, 415821, 763571835, 416635, 1557631039, 439051, 4217696835, 445977, 15571079, 474033);
    Rows(reaches, 24, 474033, 2562459403, 489400, 1416036815, 495799, 1859488979, 517699, 1669524503, 518447);
    Rows(reaches, 28, 518447, 1577231259, 550540, 1170503519, 568067, 1779985251, 594584, 309511079, 597973);
    Rows(reaches, 32, 597973, 1995441195, 626649, 3843617007, 653033, 350653939, 679286, 4060487479, 710487);
    Rows(reaches, 36, 710487, 1566386363, 719407, 2865589887, 739229, 3745051779, 757417, 4073062087, 775335);
  }

  lemma ColumnTotal(seed: int)
    requires Affine(2390444593, 3503432700, seed) == 1841983403
    ensures exists rows: nat :: rows <= 43 && Column(seed, ORDER, 43, rows) >= LARGEST_DIAGONAL
  {
    RowJump(seed);
    assert Word(seed, 0) == seed;
    assert Word(seed, 0 + 44) == 1841983403;
    ReachingMoves(seed, ORDER, 43, FACTOR, STEP);
    ReachingStarts(seed, ORDER, 43, 1841983403);
    FortyRows(Reaching(seed, ORDER, 43));
    assert Reaches(seed, ORDER, 43, 40, 2606960971, 775335);
  }

  lemma TooLarge(g: Matrix, n: int, j: int, rows: int)
    requires 0 <= rows <= n && 0 <= j < n
    requires Sum(OffDiagonal(g, j), 0, rows) >= 10.5 > Abs(g(j, j))
    ensures !Dominant(g, 0, n)
  {
    SumSplit(OffDiagonal(g, j), 0, rows, n);
    forall i ensures OffDiagonal(g, j)(i) >= 0.0 {
      assert Abs(g(i, j)) >= 0.0;
    }
    SumNonNegative(OffDiagonal(g, j), rows, n);
  }

  lemma ColumnTooLarge(seed: int, rows: nat)
    requires rows <= 43 && Column(seed, ORDER, 43, rows) >= LARGEST_DIAGONAL
    ensures !Dominant(Generated(ORDER, Stream(seed)), 0, ORDER)
  {
    var j := 43;
    GeneratedEntry(ORDER, Stream(seed), j, j);
    ElementRange(Stream(seed)(j * ORDER + j), true);
    ColumnIsSum(seed, ORDER, j, rows);
    TooLarge(Generated(ORDER, Stream(seed)), ORDER, j, rows);
  }

  /** Contrary to the comment above `matgen`, the benchmark's own matrix is not
      diagonally dominant at the default order: the first 40 entries of column 43
      already total more than any diagonal entry. */
  lemma DefaultOrderNotDominant()
    ensures !Dominant(Generated(ORDER, Stream(SEED)), 0, ORDER)
  {
    assert Affine(2390444593, 3503432700, SEED) == 1841983403;
    ColumnTotal(SEED);
    var rows: nat :| rows <= 43 && Column(SEED, ORDER, 43, rows) >= LARGEST_DIAGONAL;
    ColumnTooLarge(SEED, rows);
  }
}
