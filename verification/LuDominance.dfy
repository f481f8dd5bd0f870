/** Strict column diagonal dominance: kept by every elimination step, so the
    factorisation interchanges nothing and the solve is exact. */
module LuDominance {
  import opened RealSums
  import opened LuFactor
  import opened LuSingular
  import opened LuSolve

  ghost function OffDiagonal(w: Matrix, j: int): int -> real {
    (i: int) => if i == j then 0.0 else Abs(w(i, j))
  }

  /** Columns k..n-1 of the trailing block each have a diagonal entry larger in
      magnitude than the rest of the column together. */
  ghost predicate Dominant(w: Matrix, k: int, n: int) {
    forall j :: k <= j < n ==> Sum(OffDiagonal(w, j), k, n) < Abs(w(j, j))
  }

  lemma {:induction false} TermAtMostSum(f: int -> real, lo: int, hi: int, i: int)
    requires lo <= i < hi
    requires forall t :: lo <= t < hi ==> f(t) >= 0.0
    ensures f(i) <= Sum(f, lo, hi)
    decreases hi - lo
  {
    if i == hi - 1 {
      SumNonNegative(f, lo, hi - 1);
    } else {
      TermAtMostSum(f, lo, hi - 1, i);
    }
  }

  lemma {:induction false} SumNonNegative(f: int -> real, lo: int, hi: int)
    requires forall t :: lo <= t < hi ==> f(t) >= 0.0
    ensures Sum(f, lo, hi) >= 0.0
    decreases hi - lo
  {
    if lo < hi {
      SumNonNegative(f, lo, hi - 1);
    }
  }

  /** In a dominant block the diagonal entry is the pivot, and it is not zero. */
  lemma DominantPivot(w: Matrix, k: int, n: int)
    requires k < n && Dominant(w, k, n)
    ensures PivotRow(w, k, n) == k && w(k, k) != 0.0
  {
    var c := PivotRow(w, k, n);
    SumNonNegative(OffDiagonal(w, k), k, n);
    assert Abs(w(k, k)) > 0.0;
    if c != k {
      TermAtMostSum(OffDiagonal(w, k), k, n, c);
    }
  }

  ghost function MultiplierSizes(w: Matrix, k: int, j: int): int -> real {
    (i: int) => if i == j then 0.0 else Abs(Multiplier(w, k, i))
  }

  // c is d times s: kept as one fact, away from the sums it is about.
  ghost predicate Scales(c: real, d: real, s: real) {
    c == d * s
  }

  lemma ColumnIsScaledMultipliers(w: Matrix, k: int, n: int)
    requires k < n && w(k, k) != 0.0
    ensures Scales(Sum(OffDiagonal(w, k), k, n), Abs(w(k, k)), Sum(MultiplierSizes(w, k, k), k + 1, n))
  {
    var off, scaled := OffDiagonal(w, k), Scaled(Abs(w(k, k)), MultiplierSizes(w, k, k));
    forall i | k < i < n ensures off(i) == scaled(i) {
      MultiplierSize(w, k, i);
    }
    SumCongruence(off, scaled, k + 1, n);
    SumScaled(Abs(w(k, k)), MultiplierSizes(w, k, k), k + 1, n, Sum(MultiplierSizes(w, k, k), k + 1, n));
    SumSplit(off, k, k + 1, n);
    assert Sum(off, k, k + 1) == Sum(off, k, k) + off(k);
  }

  /** The multipliers of a dominant column total less than one. */
  lemma MultiplierBudget(w: Matrix, k: int, n: int, j: int)
    requires k < j < n && Dominant(w, k, n)
    ensures Sum(MultiplierSizes(w, k, j), k + 1, n) + Abs(Multiplier(w, k, j)) < 1.0
  {
    var all, others := MultiplierSizes(w, k, k), MultiplierSizes(w, k, j);
    assert Sum(all, k + 1, n) < 1.0 by {
      DominantPivot(w, k, n);
      ColumnIsScaledMultipliers(w, k, n);
      BelowOne(Sum(all, k + 1, n), Abs(w(k, k)), Sum(OffDiagonal(w, k), k, n));
    }
    assert all(j) == Abs(Multiplier(w, k, j));
    SumWithout(all, others, k + 1, j, n);
  }

  lemma BelowOne(s: real, d: real, c: real)
    requires d > 0.0 && Scales(c, d, s) && c < d
    ensures s < 1.0
  {
    assert s >= 1.0 ==> d * (s - 1.0) >= 0.0;
  }

  lemma MultiplierSize(w: Matrix, k: int, i: int)
    requires w(k, k) != 0.0 && i != k
    ensures OffDiagonal(w, k)(i) == Scaled(Abs(w(k, k)), MultiplierSizes(w, k, k))(i)
  {
    var q := w(i, k) / w(k, k);
    ProductAbs(q, w(k, k), w(i, k));
    assert MultiplierSizes(w, k, k)(i) == Abs(q);
  }

  /** Leaving one term out of a sum. */
  lemma SumWithout(f: int -> real, g: int -> real, lo: int, j: int, hi: int)
    requires lo <= j < hi
    requires g(j) == 0.0 && forall i :: lo <= i < hi && i != j ==> g(i) == f(i)
    ensures Sum(g, lo, hi) + f(j) == Sum(f, lo, hi)
  {
    SumSplit(f, lo, j, hi);
    SumSplit(f, j, j + 1, hi);
    SumSplit(g, lo, j, hi);
    SumSplit(g, j, j + 1, hi);
    SumCongruence(f, g, lo, j);
    SumCongruence(f, g, j + 1, hi);
    assert Sum(f, j, j + 1) == Sum(f, j, j) + f(j);
    assert Sum(g, j, j + 1) == Sum(g, j, j) + g(j);
  }

  ghost function Bound(w: Matrix, k: int, j: int): int -> real {
    Plus(OffDiagonal(w, j), Scaled(Abs(w(k, j)), MultiplierSizes(w, k, j)))
  }

  lemma EliminatedEntryBound(w: Matrix, k: int, i: int, j: int)
    requires k < i && k < j
    ensures OffDiagonal(Eliminate(w, k), j)(i) <= Bound(w, k, j)(i)
  {
    if i != j {
      var m := Multiplier(w, k, i);
      ProductAbs(w(k, j), m, m * w(k, j));
      assert Eliminate(w, k)(i, j) == w(i, j) - m * w(k, j);
      assert MultiplierSizes(w, k, j)(i) == Abs(m);
    }
  }

  lemma ColumnBound(w: Matrix, k: int, n: int, j: int, top: real, others: real)
    requires k < j < n
    requires top == Abs(w(k, j)) && others == Sum(MultiplierSizes(w, k, j), k + 1, n)
    ensures Sum(OffDiagonal(Eliminate(w, k), j), k + 1, n)
         <= Sum(OffDiagonal(w, j), k + 1, n) + top * others
  {
    forall i | k + 1 <= i < n ensures OffDiagonal(Eliminate(w, k), j)(i) <= Bound(w, k, j)(i) {
      EliminatedEntryBound(w, k, i, j);
    }
    SumMonotone(OffDiagonal(Eliminate(w, k), j), Bound(w, k, j), k + 1, n);
    SumPlus(OffDiagonal(w, j), Scaled(top, MultiplierSizes(w, k, j)), k + 1, n);
    SumScaled(top, MultiplierSizes(w, k, j), k + 1, n, others);
  }

  lemma EliminatedDiagonalBound(w: Matrix, k: int, j: int, top: real, m: real)
    requires k < j
    requires top == Abs(w(k, j)) && m == Abs(Multiplier(w, k, j))
    ensures Abs(Eliminate(w, k)(j, j)) >= Abs(w(j, j)) - top * m
  {
    ProductAbs(Multiplier(w, k, j), w(k, j), Multiplier(w, k, j) * w(k, j));
    assert Eliminate(w, k)(j, j) == w(j, j) - Multiplier(w, k, j) * w(k, j);
  }

  // Column total e, old total c, top entry a, other multipliers s, own multiplier m.
  lemma WithinBudget(e: real, c: real, a: real, s: real, m: real, before: real, after: real)
    requires a >= 0.0 && s + m < 1.0
    requires e <= c + a * s && a + c < before && after >= before - a * m
    ensures e < after
  {
    var slack := 1.0 - s - m;
    assert a * slack >= 0.0;
    assert a * s == a * (1.0 - m - slack);
  }

  lemma TopEntry(w: Matrix, k: int, n: int, j: int)
    requires k < j < n
    ensures Sum(OffDiagonal(w, j), k, n) == Abs(w(k, j)) + Sum(OffDiagonal(w, j), k + 1, n)
  {
    var off := OffDiagonal(w, j);
    SumSplit(off, k, k + 1, n);
    assert Sum(off, k, k + 1) == Sum(off, k, k) + off(k);
  }

  lemma DominanceKeptInColumn(w: Matrix, k: int, n: int, j: int)
    requires k < j < n && Dominant(w, k, n)
    ensures Sum(OffDiagonal(Eliminate(w, k), j), k + 1, n) < Abs(Eliminate(w, k)(j, j))
  {
    var rest, others := Sum(OffDiagonal(w, j), k + 1, n), Sum(MultiplierSizes(w, k, j), k + 1, n);
    var e, after := Sum(OffDiagonal(Eliminate(w, k), j), k + 1, n), Abs(Eliminate(w, k)(j, j));
    var top, m := Abs(w(k, j)), Abs(Multiplier(w, k, j));
    assert e <= rest + top * others by {
      ColumnBound(w, k, n, j, top, others);
    }
    assert others + m < 1.0 by {
      MultiplierBudget(w, k, n, j);
    }
    assert top + rest < Abs(w(j, j)) by {
      TopEntry(w, k, n, j);
    }
    assert after >= Abs(w(j, j)) - top * m by {
      EliminatedDiagonalBound(w, k, j, top, m);
    }
    WithinBudget(e, rest, top, others, m, Abs(w(j, j)), after);
  }

  /** Dominance survives one elimination step, on the block that is left. */
  lemma DominanceKept(w: Matrix, k: int, n: int)
    requires Dominant(w, k, n)
    ensures Dominant(Eliminate(w, k), k + 1, n)
  {
    forall j | k < j < n
      ensures Sum(OffDiagonal(Eliminate(w, k), j), k + 1, n) < Abs(Eliminate(w, k)(j, j))
    {
      DominanceKeptInColumn(w, k, n, j);
    }
  }

  lemma IdleSwapDominant(w: Matrix, k: int, n: int)
    requires Dominant(w, k, n)
    ensures Dominant(SwapRows(w, k, k), k, n)
  {
    forall j | k <= j < n
      ensures Sum(OffDiagonal(SwapRows(w, k, k), j), k, n) < Abs(SwapRows(w, k, k)(j, j))
    {
      SumCongruence(OffDiagonal(SwapRows(w, k, k), j), OffDiagonal(w, j), k, n);
    }
  }

  lemma DominantStep(n: int, w: Matrix, k: int)
    requires k < n && Dominant(w, k, n)
    ensures PivotRow(w, k, n) == k && w(k, k) != 0.0
    ensures Dominant(ColumnStep(n, w, k), k + 1, n)
  {
    DominantPivot(w, k, n);
    IdleSwapDominant(w, k, n);
    DominanceKept(SwapRows(w, k, k), k, n);
  }

  lemma {:induction false} DominantRun(n: int, a: Matrix, k: int)
    requires 0 <= k <= n && Dominant(a, 0, n)
    ensures Dominant(Reduced(n, a, k), k, n)
    decreases k
  {
    if k > 0 {
      DominantRun(n, a, k - 1);
      DominantStep(n, Reduced(n, a, k - 1), k - 1);
    }
  }

  lemma DominantColumn(n: int, a: Matrix, t: int)
    requires 0 <= t < n && Dominant(a, 0, n)
    ensures Pivot(n, a, t) == t && PivotEntry(n, a, t) != 0.0
  {
    DominantRun(n, a, t);
    DominantPivot(Reduced(n, a, t), t, n);
  }

  /** A dominant matrix is factored without interchanges, and is not singular. */
  lemma DominantFactored(n: int, a: Matrix)
    requires 0 <= n && Dominant(a, 0, n)
    ensures PivotsFound(n, a, n) && !Singular(n, a)
    ensures forall t :: 0 <= t < n ==> Pivot(n, a, t) == t
  {
    forall t | 0 <= t < n ensures Pivot(n, a, t) == t && PivotEntry(n, a, t) != 0.0 {
      DominantColumn(n, a, t);
    }
    PivotsFoundIffNonsingular(n, a);
  }

  /** Every right-hand side of a dominant system is solved. */
  lemma DominantSolved(n: int, a: Matrix, b: Vector)
    requires 0 <= n && Dominant(a, 0, n)
    ensures SolvesSystem(n, a, b, Solve(n, Reduced(n, a, n), Pivots(n, a), b))
  {
    DominantFactored(n, a);
    FactorisationCorrect(n, a);
    NoLateInterchangeSolves(n, a, Reduced(n, a, n), Pivots(n, a), b);
  }

  ghost function Minus(x: Vector, y: Vector): Vector {
    (t: int) => x(t) - y(t)
  }

  lemma ApplyMinus(n: int, a: Matrix, x: Vector, y: Vector, r: int)
    ensures Apply(n, a, Minus(x, y))(r) == Apply(n, a, x)(r) - Apply(n, a, y)(r)
  {
    SumAdd(RowTerms(a, Minus(x, y), r), RowTerms(a, y, r), RowTerms(a, x, r), 0, n);
  }

  /** A factored system has one solution. */
  lemma SolutionUnique(n: int, a: Matrix, w: Matrix, p: int -> int, b: Vector, x: Vector, y: Vector, i: int)
    requires 0 <= i < n && Factors(n, a, w, p)
    requires SolvesSystem(n, a, b, x) && SolvesSystem(n, a, b, y)
    ensures x(i) == y(i)
  {
    forall r | 0 <= r < n ensures Apply(n, a, Minus(x, y))(r) == 0.0 {
      ApplyMinus(n, a, x, y, r);
    }
    FactoredInjective(n, a, w, p, Minus(x, y));
    assert Minus(x, y)(i) == 0.0;
  }
}
