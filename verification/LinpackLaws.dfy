/** What the solver's methods rest on: runs of the factorisation, the outcome of a solve,
    and the residual that the benchmark checks. */
module LinpackLaws {
  import opened RealSums
  import opened LuFactor
  import opened LuSingular
  import opened LuSolve
  import opened LuDominance

  lemma SolutionCongruence(n: int, a: Matrix, b: Vector, x: Vector, y: Vector)
    requires forall i :: 0 <= i < n ==> x(i) == y(i)
    ensures SolvesSystem(n, a, b, x) <==> SolvesSystem(n, a, b, y)
  {
    forall r ensures Apply(n, a, x)(r) == Apply(n, a, y)(r) {
      ApplyCongruence(n, a, x, y, r);
    }
  }

  /** What `sgefa` and then `sgesl` make of a system: nothing is said of the result when the
      matrix is singular, and otherwise it is the solve with a factorisation. */
  ghost predicate Outcome(n: int, a: Matrix, b: Vector, status: int, w: Matrix, p: int -> int, x: Vector) {
    && status == (if Singular(n, a) then -1 else 0)
    && (status == 0 ==> Factors(n, a, w, p) && Agree(n, x, Solve(n, w, p, b)))
  }

  lemma SolveOutcome(n: int, a: Matrix, w: Matrix, p: int -> int, b: Vector, x: Vector)
    requires Factors(n, a, w, p) && Agree(n, x, Solve(n, w, p, b))
    ensures SolvesSystem(n, a, b, x) <==> NoDiscrepancy(n, w, p, b)
    ensures MultipliersUnmoved(n, w, p) || (forall k :: 1 <= k < n ==> p(k) == k) ==> SolvesSystem(n, a, b, x)
  {
    SolvedIffNoDiscrepancy(n, a, w, p, b);
    SolutionCongruence(n, a, b, Solve(n, w, p, b), x);
    if forall k :: 1 <= k < n ==> p(k) == k {
      NoLateInterchangeSolves(n, a, w, p, b);
    }
    if MultipliersUnmoved(n, w, p) {
      UnmovedSolves(n, a, w, p, b);
    }
  }

  lemma SameDominant(n: int, g: Matrix, a: Matrix)
    requires SameEntries(n, g, a) && Dominant(g, 0, n)
    ensures Dominant(a, 0, n)
  {
    forall j | 0 <= j < n ensures Sum(OffDiagonal(a, j), 0, n) < Abs(a(j, j)) {
      SumCongruence(OffDiagonal(a, j), OffDiagonal(g, j), 0, n);
      assert Sum(OffDiagonal(g, j), 0, n) < Abs(g(j, j));
    }
  }

  ghost predicate IsRun(n: int, run: int -> Matrix) {
    forall k :: 0 < k <= n ==> run(k) == ColumnStep(n, run(k - 1), k - 1)
  }

  ghost predicate NoPivot(n: int, w: Matrix, k: int)
    requires k < n
  {
    w(PivotRow(w, k, n), k) == 0.0
  }

  // The states of the run on a.
  ghost function States(n: int, a: Matrix): (run: int -> Matrix)
    ensures IsRun(n, run)
    ensures forall k :: 0 <= k <= n ==> run(k) == Reduced(n, a, k)
  {
    (k: int) => if k <= n then Reduced(n, a, k) else a
  }

  /** The last column has only its diagonal entry to choose, and its step changes nothing. */
  lemma LastStepIdle(n: int, w: Matrix)
    requires 1 <= n
    ensures PivotRow(w, n - 1, n) == n - 1
    ensures SameEntries(n, ColumnStep(n, w, n - 1), w)
  {
  }

  lemma SameNull(n: int, g: Matrix, a: Matrix, x: Vector)
    requires SameEntries(n, g, a) && NullVector(n, g, x)
    ensures NullVector(n, a, x)
  {
    forall r | 0 <= r < n ensures Apply(n, a, x)(r) == Apply(n, g, x)(r) {
      SumCongruence(RowTerms(a, x, r), RowTerms(g, x, r), 0, n);
    }
  }

  lemma SameSingular(n: int, g: Matrix, a: Matrix)
    requires SameEntries(n, g, a)
    ensures Singular(n, g) <==> Singular(n, a)
  {
    if Singular(n, g) {
      var x :| NullVector(n, g, x);
      SameNull(n, g, a, x);
    }
    if Singular(n, a) {
      var x :| NullVector(n, a, x);
      SameNull(n, a, g, x);
    }
  }

  lemma SameFactors(n: int, g: Matrix, a: Matrix, w: Matrix, p: int -> int)
    requires SameEntries(n, g, a) && Factors(n, a, w, p)
    ensures Factors(n, g, w, p)
  {
    forall i, j | 0 <= i < n && 0 <= j < n
      ensures Product(Lower(w), Upper(w), n, i, j) == g(Origin(p, 0, n, i), j)
    {
      OriginInRange(p, 0, n, i, n);
    }
  }

  lemma SameOutcome(n: int, g: Matrix, a: Matrix, b: Vector, status: int, w: Matrix, p: int -> int, x: Vector)
    requires SameEntries(n, g, a) && Outcome(n, a, b, status, w, p, x)
    ensures Outcome(n, g, b, status, w, p, x)
  {
    SameSingular(n, g, a);
    if status == 0 {
      SameFactors(n, g, a, w, p);
    }
  }

  /** A system that all ones solves has no other result, where the solve is right. */
  lemma OnesResult(n: int, g: Matrix, b: Vector, w: Matrix, p: int -> int, x: Vector, ones: Vector)
    requires Factors(n, g, w, p) && Agree(n, x, Solve(n, w, p, b)) && MultipliersUnmoved(n, w, p)
    requires SolvesSystem(n, g, b, ones)
    ensures Agree(n, x, ones)
  {
    SolveOutcome(n, g, w, p, b, x);
    forall i | 0 <= i < n ensures x(i) == ones(i) {
      SolutionUnique(n, g, w, p, b, x, ones, i);
    }
  }

  ghost function Totals(n: int, a: Matrix): Vector {
    (r: int) => Sum(Across(a, r), 0, n)
  }

  // How far row r of the system is from being solved.
  ghost function ErrorAt(n: int, a: Matrix, b: Vector, x: Vector, r: int): real {
    Abs(Apply(n, a, x)(r) - b(r))
  }

  ghost predicate Within(n: int, a: Matrix, b: Vector, x: Vector, limit: real) {
    forall r :: 0 <= r < n ==> ErrorAt(n, a, b, x, r) <= limit
  }

  // The largest error of the first rows, and zero for none.
  ghost predicate LargestError(n: int, a: Matrix, b: Vector, x: Vector, rows: int, maximum: real) {
    && (forall r :: 0 <= r < rows ==> ErrorAt(n, a, b, x, r) <= maximum)
    && (maximum == 0.0 || exists r :: 0 <= r < rows && ErrorAt(n, a, b, x, r) == maximum)
  }

  lemma LargestErrorNext(n: int, a: Matrix, b: Vector, x: Vector, rows: int, maximum: real, error: real)
    requires 0 <= rows && LargestError(n, a, b, x, rows, maximum) && error == ErrorAt(n, a, b, x, rows)
    ensures LargestError(n, a, b, x, rows + 1, if error > maximum then error else maximum)
  {
    if error <= maximum && maximum != 0.0 {
      var r :| 0 <= r < rows && ErrorAt(n, a, b, x, r) == maximum;
      assert 0 <= r < rows + 1;
    } else if error > maximum {
      assert ErrorAt(n, a, b, x, rows) == error;
    }
  }

  // The first k columns of a row, totalled and multiplied by x.
  ghost predicate RowSums(a: Matrix, x: Vector, row: int, k: int, total: real, product: real) {
    total == Sum(Across(a, row), 0, k) && product == Sum(RowTerms(a, x, row), 0, k)
  }

  lemma RowSumsNext(a: Matrix, x: Vector, row: int, k: int, total: real, product: real, entry: real, term: real)
    requires 0 <= k && RowSums(a, x, row, k, total, product) && entry == a(row, k) && term == entry * x(k)
    ensures RowSums(a, x, row, k + 1, total + entry, product + term)
  {
  }

  lemma RowSumsError(n: int, a: Matrix, x: Vector, row: int, total: real, product: real)
    requires RowSums(a, x, row, n, total, product)
    ensures Abs(product - total) == ErrorAt(n, a, Totals(n, a), x, row)
  {
  }

  lemma LargestErrorWithin(n: int, a: Matrix, b: Vector, x: Vector, maximum: real, limit: real)
    requires LargestError(n, a, b, x, n, maximum) && limit >= 0.0
    ensures maximum <= limit <==> Within(n, a, b, x, limit)
  {
    if maximum != 0.0 {
      var r :| 0 <= r < n && ErrorAt(n, a, b, x, r) == maximum;
    }
  }

  ghost predicate SmallDiscrepancy(n: int, w: Matrix, p: int -> int, b: Vector, limit: real) {
    forall i :: 0 <= i < n ==> Abs(Discrepancy(n, w, p, b, i)) <= limit
  }

  /** The errors of a solve are its discrepancies, in the order of the interchanges. */
  lemma WithinIffSmall(n: int, a: Matrix, w: Matrix, p: int -> int, b: Vector, limit: real)
    requires Factors(n, a, w, p)
    ensures Within(n, a, b, Solve(n, w, p, b), limit) <==> SmallDiscrepancy(n, w, p, b, limit)
  {
    var x := Solve(n, w, p, b);
    if Within(n, a, b, x, limit) {
      forall i | 0 <= i < n ensures Abs(Discrepancy(n, w, p, b, i)) <= limit {
        Residual(n, a, w, p, b, i);
        OriginInRange(p, 0, n, i, n);
        assert ErrorAt(n, a, b, x, Origin(p, 0, n, i)) <= limit;
      }
    }
    if SmallDiscrepancy(n, w, p, b, limit) {
      forall r | 0 <= r < n ensures ErrorAt(n, a, b, x, r) <= limit {
        PositionInRange(p, 0, n, r, n);
        OriginPosition(p, 0, n, r);
        Residual(n, a, w, p, b, Position(p, 0, n, r));
      }
    }
  }

  ghost predicate Agree(n: int, u: Vector, v: Vector) {
    forall i :: 0 <= i < n ==> u(i) == v(i)
  }

  lemma ForwardStepAgrees(n: int, w: Matrix, c: int, u: Vector, v: Vector, k: int)
    requires Agree(n, u, v) && 0 <= k < n && 0 <= c < n
    ensures Agree(n, ForwardStep(w, c, u, k), ForwardStep(w, c, v, k))
  {
  }

  lemma {:induction false} ForwardAgrees(n: int, w: Matrix, p: int -> int, b: Vector, c: Vector, k: int)
    requires Interchanges(n, p) && k <= n && Agree(n, b, c)
    ensures Agree(n, Forward(w, p, b, k), Forward(w, p, c, k))
    decreases k
  {
    if k > 0 {
      ForwardAgrees(n, w, p, b, c, k - 1);
      ForwardStepAgrees(n, w, p(k - 1), Forward(w, p, b, k - 1), Forward(w, p, c, k - 1), k - 1);
    }
  }

  lemma DiscrepancyAgrees(n: int, w: Matrix, p: int -> int, b: Vector, c: Vector, i: int)
    requires Interchanges(n, p) && 0 < n && Agree(n, b, c)
    ensures Discrepancy(n, w, p, b, i) == Discrepancy(n, w, p, c, i)
  {
    ForwardAgrees(n, w, p, b, c, n - 1);
    ApplyCongruence(n, Difference(Lower(w), Interleaved(n, w, p)), Forward(w, p, b, n - 1), Forward(w, p, c, n - 1), i);
  }

  /** What the benchmark's check of its own result comes to, for a result that equals the
      solve of a right-hand side equal to b. */
  lemma CheckedResult(n: int, a: Matrix, w: Matrix, p: int -> int, b: Vector, c: Vector, x: Vector, limit: real)
    requires 0 < n && Factors(n, a, w, p)
    requires Agree(n, b, c) && Agree(n, x, Solve(n, w, p, c))
    ensures Within(n, a, b, x, limit) <==> SmallDiscrepancy(n, w, p, b, limit)
  {
    WithinIffSmall(n, a, w, p, c, limit);
    forall i ensures Discrepancy(n, w, p, b, i) == Discrepancy(n, w, p, c, i) {
      DiscrepancyAgrees(n, w, p, b, c, i);
    }
    forall r | 0 <= r < n ensures ErrorAt(n, a, b, x, r) == ErrorAt(n, a, c, Solve(n, w, p, c), r) {
      ApplyCongruence(n, a, x, Solve(n, w, p, c), r);
    }
  }

  /** The verdict on a result, in terms of the packed array, the interchanges and the
      right-hand side. */
  lemma Verdict(n: int, a: Matrix, b: Vector, c: Vector, status: int, w: Matrix, p: int -> int, x: Vector,
                maximum: real, limit: real)
    requires 0 < n && limit >= 0.0 && Agree(n, b, c) && Outcome(n, a, c, status, w, p, x)
    requires LargestError(n, a, b, x, n, maximum)
    ensures status == 0 && maximum <= limit <==> !Singular(n, a) && SmallDiscrepancy(n, w, p, b, limit)
    ensures MultipliersUnmoved(n, w, p) && status == 0 ==> maximum <= limit
  {
    if status == 0 {
      LargestErrorWithin(n, a, b, x, maximum, limit);
      CheckedResult(n, a, w, p, b, c, x, limit);
      if MultipliersUnmoved(n, w, p) {
        SolveOutcome(n, a, w, p, c, x);
        assert forall r :: 0 <= r < n ==> ErrorAt(n, a, b, x, r) == 0.0;
      }
    }
  }
}
