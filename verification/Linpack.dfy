/** The benchmark: a matrix, a right-hand side and a pivot record, all overwritten in
    place, and the check of the result. */
module Linpack {
  import opened RealSums
  import opened LuFactor
  import opened LuSingular
  import opened LuSolve
  import opened LuDominance
  import opened LuGenerator
  import opened LinpackLaws
  import opened LuSimulationOrder

  const ERROR_LIMIT := 0.001

  // Orders at which the generated matrix is known to be diagonally dominant.
  predicate KnownOrder(n: int) {
    1 <= n <= 19 || n == LuSimulationOrder.ORDER
  }

  lemma KnownOrderDominant(n: int)
    requires KnownOrder(n)
    ensures Dominant(Generated(n, Stream(SEED)), 0, n)
  {
    if n <= 19 {
      GeneratedDominant(n, Stream(SEED));
    } else {
      SimulationOrderDominant();
    }
  }

  // A division by zero gives no real number; what it gives is left open.
  method Quotient(a: real, b: real) returns (q: real)
    ensures b != 0.0 ==> q == a / b
  {
    if b == 0.0 {
      q := *;
    } else {
      q := a / b;
    }
  }

  // The next word of a row, and the entry it stands for.
  method NextElement(row: int, column: int, state: int, ghost n: int, ghost drawn: int, ghost g: Matrix)
    returns (next: int, element: real)
    requires 0 <= column < n && Draws(n, row, drawn, g) && state == Word(SEED, drawn + column)
    ensures next == Word(SEED, drawn + column + 1) && element == g(row, column)
  {
    next := NextWord(state);
    element := Element(next, row == column);
  }

  class Solver {
    const order: int
    const matrix: array2<real>
    const rhs: array<real>
    const pivot: array<int>

    ghost predicate Valid()
      reads this
    {
      && 1 <= order
      && matrix.Length0 == order && matrix.Length1 == order
      && rhs.Length == order && pivot.Length == order
    }

    constructor (n: int)
      requires 1 <= n
      ensures Valid() && PivotsInRange() && order == n && fresh(matrix) && fresh(rhs) && fresh(pivot)
    {
      order := n;
      matrix := new real[n, n];
      rhs := new real[n];
      pivot := new int[n](k => 0);
    }

    // Zero before the first factorisation; a failed one records some interchanges only.
    ghost predicate PivotsInRange()
      requires Valid()
      reads this, pivot
    {
      forall k :: 0 <= k < order ==> 0 <= pivot[k] < order
    }

    /** The matrix as an entry function; zero outside the array. */
    ghost function Entries(): (m: Matrix)
      requires Valid()
      reads this, matrix
      ensures forall i, j :: 0 <= i < order && 0 <= j < order ==> m(i, j) == matrix[i, j]
    {
      var rows := seq(order, i requires 0 <= i < order reads this, matrix requires Valid() =>
        seq(order, j requires 0 <= j < order reads this, matrix requires Valid() => matrix[i, j]));
      (i: int, j: int) => if 0 <= i < |rows| && 0 <= j < |rows[i]| then rows[i][j] else 0.0
    }

    ghost function RightHandSide(): (v: Vector)
      requires Valid()
      reads this, rhs
      ensures forall i :: 0 <= i < order ==> v(i) == rhs[i]
    {
      var s := rhs[..];
      (i: int) => if 0 <= i < |s| then s[i] else 0.0
    }

    ghost function Interchanged(): (p: int -> int)
      requires Valid()
      reads this, pivot
      ensures forall k :: 0 <= k < order ==> p(k) == pivot[k]
    {
      var s := pivot[..];
      (k: int) => if 0 <= k < |s| then s[k] else k
    }

    ghost predicate Holds(w: Matrix)
      requires Valid()
      reads this, matrix
    {
      forall i, j :: 0 <= i < order && 0 <= j < order ==> matrix[i, j] == w(i, j)
    }

    /** One row of the generated matrix and its total. */
    method MatgenRow(row: int, state: int, ghost drawn: int, ghost g: Matrix) returns (next: int)
      requires Valid() && 0 <= row < order && Draws(order, row, drawn, g) && state == Word(SEED, drawn)
      modifies matrix, rhs
      ensures next == Word(SEED, drawn + order)
      ensures forall i, j :: 0 <= i < order && 0 <= j < order ==>
        matrix[i, j] == if i == row then g(i, j) else old(matrix[i, j])
      ensures forall i :: 0 <= i < order ==>
        rhs[i] == if i == row then Sum(Across(g, row), 0, order) else old(rhs[i])
    {
      next := state;
      var sum := 0.0;
      for column := 0 to order
        modifies matrix
        invariant next == Word(SEED, drawn + column)
        invariant forall i, j :: 0 <= i < order && 0 <= j < order ==>
          matrix[i, j] == if i == row && j < column then g(i, j) else old(matrix[i, j])
        invariant sum == Sum(Across(g, row), 0, column)
      {
        var element;
        next, element := NextElement(row, column, next, order, drawn, g);
        matrix[row, column] := element;
        sum := sum + element;
      }
      rhs[row] := sum;
    }

    method Matgen()
      requires Valid()
      modifies matrix, rhs
      ensures Holds(Generated(order, Stream(SEED)))
      ensures Agree(order, Totals(order, Generated(order, Stream(SEED))), RightHandSide())
      ensures SolvesSystem(order, Generated(order, Stream(SEED)), RightHandSide(), Ones())
    {
      ghost var g := Generated(order, Stream(SEED));
      var state := SEED;
      ghost var drawn := 0;
      for row := 0 to order
        invariant Drawn(order, row, drawn) && state == Word(SEED, drawn)
        invariant forall i, j :: 0 <= i < row && 0 <= j < order ==> matrix[i, j] == g(i, j)
        invariant forall i :: 0 <= i < row ==> rhs[i] == Sum(Across(g, i), 0, order)
      {
        RowDrawn(order, row, drawn, g);
        state := MatgenRow(row, state, drawn, g);
        drawn := drawn + order;
      }
      forall r | 0 <= r < order ensures Apply(order, g, Ones())(r) == RightHandSide()(r) {
        OnesSolve(order, g, r);
      }
    }

    method ExchangeRows(first: int, second: int, ghost w: Matrix)
      requires Valid() && 0 <= first < order && 0 <= second < order && Holds(w)
      modifies matrix
      ensures Holds(SwapRows(w, first, second))
    {
      if first == second {
        return;
      }
      ghost var s := SwapRows(w, first, second);
      for column := 0 to order
        invariant forall i, j :: 0 <= i < order && 0 <= j < order ==>
          matrix[i, j] == if j < column then s(i, j) else w(i, j)
      {
        var temporary := matrix[first, column];
        matrix[first, column] := matrix[second, column];
        matrix[second, column] := temporary;
      }
    }

    method EliminateBelow(column: int, ghost w: Matrix)
      requires Valid() && 0 <= column < order && Holds(w) && w(column, column) != 0.0
      modifies matrix
      ensures Holds(Eliminate(w, column))
    {
      ghost var e := Eliminate(w, column);
      for row := column + 1 to order
        invariant forall i, j :: 0 <= i < order && 0 <= j < order ==>
          matrix[i, j] == if i < row then e(i, j) else w(i, j)
      {
        var multiplier := matrix[row, column] / matrix[column, column];
        assert multiplier == Multiplier(w, column, row);
        matrix[row, column] := multiplier;
        for trailing := column + 1 to order
          invariant forall i, j :: 0 <= i < order && 0 <= j < order ==>
            matrix[i, j] == if i < row || (i == row && j < trailing) then e(i, j) else w(i, j)
        {
          matrix[row, trailing] := matrix[row, trailing] - multiplier * matrix[column, trailing];
        }
      }
    }

    method FindPivot(column: int, ghost w: Matrix) returns (candidate: int, maximum: real)
      requires Valid() && 0 <= column < order && Holds(w)
      ensures candidate == PivotRow(w, column, order) && maximum == Abs(w(candidate, column))
    {
      candidate := column;
      maximum := Abs(matrix[column, column]);
      for row := column + 1 to order
        invariant column <= candidate < order
        invariant candidate == PivotRow(w, column, row) && maximum == Abs(w(candidate, column))
      {
        var magnitude := Abs(matrix[row, column]);
        if magnitude > maximum {
          candidate := row;
          maximum := magnitude;
        }
      }
    }

    /** Column `column` of the factorisation, or a report that it has no pivot. */
    method SgefaColumn(column: int, ghost w: Matrix) returns (found: bool)
      requires Valid() && 0 <= column < order - 1 && Holds(w)
      modifies matrix, pivot
      ensures found <==> w(PivotRow(w, column, order), column) != 0.0
      ensures found ==> Holds(ColumnStep(order, w, column))
      ensures !found ==> Holds(w)
      ensures forall k :: 0 <= k < order ==>
        pivot[k] == if k == column then PivotRow(w, column, order) else old(pivot[k])
    {
      var candidate, maximum := FindPivot(column, w);
      pivot[column] := candidate;
      if maximum == 0.0 {
        return false;
      }
      ExchangeRows(column, candidate, w);
      EliminateBelow(column, SwapRows(w, column, candidate));
      return true;
    }

    method CheckLast(ghost w: Matrix) returns (status: int)
      requires Valid() && Holds(w)
      modifies pivot
      ensures status == if w(order - 1, order - 1) == 0.0 then -1 else 0
      ensures Holds(w)
      ensures forall k :: 0 <= k < order ==> pivot[k] == if k == order - 1 then k else old(pivot[k])
    {
      pivot[order - 1] := order - 1;
      status := if matrix[order - 1, order - 1] == 0.0 then -1 else 0;
    }

    lemma LastColumnHolds(run: int -> Matrix)
      requires Valid() && IsRun(order, run) && Holds(run(order - 1))
      ensures Holds(run(order)) && PivotRow(run(order - 1), order - 1, order) == order - 1
    {
      LastStepIdle(order, run(order - 1));
      assert run(order) == ColumnStep(order, run(order - 1), order - 1);
    }

    // The loop over columns, against any sequence of states that a run goes through.
    method Factorise(ghost run: int -> Matrix) returns (status: int, ghost stop: int)
      requires Valid() && IsRun(order, run) && Holds(run(0))
      modifies matrix, pivot
      ensures 0 <= stop <= order
      ensures forall t :: 0 <= t < stop ==> !NoPivot(order, run(t), t)
      ensures stop < order ==> NoPivot(order, run(stop), stop)
      ensures status == if stop == order then 0 else -1
      ensures Holds(run(stop))
      ensures forall k :: 0 <= k < order ==>
        pivot[k] == if k <= stop then PivotRow(run(k), k, order) else old(pivot[k])
    {
      for column := 0 to order - 1
        invariant forall t :: 0 <= t < column ==> !NoPivot(order, run(t), t)
        invariant Holds(run(column))
        invariant forall k :: 0 <= k < order ==>
          pivot[k] == if k < column then PivotRow(run(k), k, order) else old(pivot[k])
      {
        var found := SgefaColumn(column, run(column));
        if !found {
          return -1, column;
        }
        assert run(column + 1) == ColumnStep(order, run(column), column);
      }
      status := CheckLast(run(order - 1));
      LastColumnHolds(run);
      stop := if status == 0 then order else order - 1;
    }

    /** LU factorisation with partial pivoting, up to the first column, `stop`, that
        has no pivot; the arrays are left as they are there. */
    method Sgefa() returns (status: int, ghost stop: int)
      requires Valid()
      modifies matrix, pivot
      ensures 0 <= stop <= order && PivotsFound(order, old(Entries()), stop)
      ensures stop < order ==> PivotEntry(order, old(Entries()), stop) == 0.0
      ensures status == if stop == order then 0 else -1
      ensures Holds(Reduced(order, old(Entries()), stop))
      ensures forall k :: 0 <= k < order ==>
        pivot[k] == if k <= stop then Pivot(order, old(Entries()), k) else old(pivot[k])
    {
      status, stop := Factorise(States(order, Entries()));
    }

    method ForwardColumn(column: int, ghost w: Matrix, ghost u: Vector)
      requires Valid() && 0 <= column < order && 0 <= pivot[column] < order && Holds(w)
      requires forall i :: 0 <= i < order ==> rhs[i] == u(i)
      modifies rhs
      ensures forall i :: 0 <= i < order ==> rhs[i] == ForwardStep(w, pivot[column], u, column)(i)
    {
      ghost var v := ForwardStep(w, pivot[column], u, column);
      var temporary := rhs[pivot[column]];
      rhs[pivot[column]] := rhs[column];
      rhs[column] := temporary;
      ghost var swapped := rhs[..];
      for row := column + 1 to order
        invariant forall i :: 0 <= i < order ==>
          rhs[i] == if column < i < row then v(i) else swapped[i]
      {
        rhs[row] := rhs[row] - matrix[row, column] * temporary;
      }
    }

    method BackColumn(column: int, ghost w: Matrix, ghost v: Vector)
      requires Valid() && 0 <= column < order && Holds(w)
      requires forall i :: 0 <= i < order ==> rhs[i] == v(i)
      modifies rhs
      ensures w(column, column) != 0.0 ==> forall i :: 0 <= i < order ==> rhs[i] == BackStep(w, v, column)(i)
    {
      ghost var x, regular := BackStep(w, v, column), w(column, column) != 0.0;
      rhs[column] := Quotient(rhs[column], matrix[column, column]);
      var temporary := -rhs[column];
      for row := 0 to column
        invariant rhs[column] == -temporary && (regular ==> rhs[column] == x(column))
        invariant regular ==> forall i :: 0 <= i < order ==>
          rhs[i] == if i < row || i >= column then x(i) else v(i)
      {
        rhs[row] := rhs[row] + temporary * matrix[row, column];
      }
    }

    // Whether the back pass divides by no zero.
    ghost predicate Regular()
      requires Valid()
      reads this, matrix
    {
      forall k :: 0 <= k < order ==> matrix[k, k] != 0.0
    }

    /** Solve with the factors and interchanges in the arrays. After a failed `sgefa`
        there may be zeros on the diagonal, and nothing is said of the result. */
    method Sgesl()
      requires Valid() && PivotsInRange()
      modifies rhs
      ensures Regular() ==> forall i :: 0 <= i < order ==>
        rhs[i] == Solve(order, Entries(), Interchanged(), old(RightHandSide()))(i)
    {
      ghost var w, p, b := Entries(), Interchanged(), RightHandSide();
      for column := 0 to order - 1
        invariant forall i :: 0 <= i < order ==> rhs[i] == Forward(w, p, b, column)(i)
      {
        ForwardColumn(column, w, Forward(w, p, b, column));
      }
      ghost var y := Forward(w, p, b, order - 1);
      for column := order downto 0
        invariant Regular() ==> forall i :: 0 <= i < order ==> rhs[i] == Back(order, w, y, column)(i)
      {
        BackColumn(column, w, if Regular() then Back(order, w, y, column + 1) else RightHandSide());
      }
    }

    /** What success and failure of `sgefa` mean: failure exactly for singular
        matrices, otherwise P*A = L*U with multipliers of magnitude at most one; and
        a dominant matrix is factored without interchanges. */
    method Factor() returns (status: int)
      requires Valid() && PivotsInRange()
      modifies matrix, pivot
      ensures status == if Singular(order, old(Entries())) then -1 else 0
      ensures PivotsInRange()
      ensures status == 0 ==> Factors(order, old(Entries()), Entries(), Interchanged())
      ensures status == 0 ==> forall i, t :: 0 <= t < i < order ==> Abs(matrix[i, t]) <= 1.0
      ensures Dominant(old(Entries()), 0, order) ==>
        status == 0 && forall k :: 0 <= k < order ==> pivot[k] == k
    {
      ghost var a := Entries();
      ghost var stop;
      status, stop := Sgefa();
      PivotsFoundIffNonsingular(order, a);
      if Dominant(a, 0, order) {
        DominantFactored(order, a);
      }
      if status == 0 {
        FinishedRun(order, a, Entries(), Interchanged());
      }
    }

    // `sgesl`, when the arrays hold the factors of a matrix.
    method SolveFactored(ghost a: Matrix)
      requires Valid() && PivotsInRange()
      modifies rhs
      ensures Factors(order, a, Entries(), Interchanged()) ==>
        && Agree(order, RightHandSide(), Solve(order, Entries(), Interchanged(), old(RightHandSide())))
        && (SolvesSystem(order, a, old(RightHandSide()), RightHandSide()) <==>
              NoDiscrepancy(order, Entries(), Interchanged(), old(RightHandSide())))
        && (MultipliersUnmoved(order, Entries(), Interchanged()) ==>
              SolvesSystem(order, a, old(RightHandSide()), RightHandSide()))
        && ((forall k :: 1 <= k < order ==> pivot[k] == k) ==>
              SolvesSystem(order, a, old(RightHandSide()), RightHandSide()))
    {
      ghost var w, p, b := Entries(), Interchanged(), RightHandSide();
      Sgesl();
      if Factors(order, a, w, p) {
        SolveOutcome(order, a, w, p, b, RightHandSide());
      }
    }

    /** `sgefa`, then `sgesl`: when the result is a solution, for every matrix and
        right-hand side. */
    method FactorAndSolve() returns (status: int)
      requires Valid() && PivotsInRange()
      modifies matrix, rhs, pivot
      ensures PivotsInRange()
      ensures Outcome(order, old(Entries()), old(RightHandSide()), status, Entries(), Interchanged(), RightHandSide())
      ensures status == 0 ==>
        (SolvesSystem(order, old(Entries()), old(RightHandSide()), RightHandSide()) <==>
          NoDiscrepancy(order, Entries(), Interchanged(), old(RightHandSide())))
      ensures status == 0 && MultipliersUnmoved(order, Entries(), Interchanged()) ==>
        SolvesSystem(order, old(Entries()), old(RightHandSide()), RightHandSide())
      ensures status == 0 && (forall k :: 1 <= k < order ==> pivot[k] == k) ==>
        SolvesSystem(order, old(Entries()), old(RightHandSide()), RightHandSide())
      ensures Dominant(old(Entries()), 0, order) ==>
        status == 0 && MultipliersUnmoved(order, Entries(), Interchanged())
    {
      ghost var a := Entries();
      status := Factor();
      if Dominant(a, 0, order) {
        IdleMeansUnmoved(order, Entries(), Interchanged());
      }
      SolveFactored(a);
    }

    // The same, on a matrix and a right-hand side given as functions.
    method SolveGenerated(ghost g: Matrix, ghost b: Vector) returns (status: int)
      requires Valid() && PivotsInRange() && Holds(g) && b == RightHandSide()
      modifies matrix, rhs, pivot
      ensures PivotsInRange()
      ensures Outcome(order, g, b, status, Entries(), Interchanged(), RightHandSide())
      ensures Dominant(g, 0, order) ==> status == 0 && MultipliersUnmoved(order, Entries(), Interchanged())
    {
      ghost var a := Entries();
      if Dominant(g, 0, order) {
        SameDominant(order, g, a);
      }
      status := FactorAndSolve();
      SameOutcome(order, g, a, b, status, Entries(), Interchanged(), RightHandSide());
    }

    // What a repetition leaves, for a right-hand side that equals the row totals.
    ghost predicate Measured(status: int, b: Vector)
      requires Valid()
      reads this, matrix, rhs, pivot
    {
      var g := Generated(order, Stream(SEED));
      && Agree(order, Totals(order, g), b)
      && Outcome(order, g, b, status, Entries(), Interchanged(), RightHandSide())
      && (KnownOrder(order) ==> status == 0 && MultipliersUnmoved(order, Entries(), Interchanged()))
    }

    /** One repetition of `main`: generate, factor, solve. Unless a late interchange moves a
        multiplier, which happens at no order up to 19 and not at 32, the answer is exactly
        the all-ones vector the right-hand side was built from. */
    method Measure() returns (status: int, ghost b: Vector)
      requires Valid() && PivotsInRange()
      modifies matrix, rhs, pivot
      ensures PivotsInRange() && Measured(status, b)
      ensures KnownOrder(order) || (status == 0 && MultipliersUnmoved(order, Entries(), Interchanged())) ==>
        Agree(order, RightHandSide(), Ones())
    {
      Matgen();
      ghost var g := Generated(order, Stream(SEED));
      b := RightHandSide();
      if KnownOrder(order) {
        KnownOrderDominant(order);
      }
      status := SolveGenerated(g, b);
      if status == 0 && MultipliersUnmoved(order, Entries(), Interchanged()) {
        OnesResult(order, g, b, Entries(), Interchanged(), RightHandSide(), Ones());
      }
    }

    /** The error of one row of the generated system, which is drawn again. */
    method VerifyRow(row: int, state: int, ghost drawn: int, ghost g: Matrix, ghost x: Vector)
      returns (next: int, error: real)
      requires Valid() && 0 <= row < order && Draws(order, row, drawn, g) && state == Word(SEED, drawn)
      requires forall j :: 0 <= j < order ==> rhs[j] == x(j)
      ensures next == Word(SEED, drawn + order)
      ensures error == ErrorAt(order, g, Totals(order, g), x, row)
    {
      next := state;
      var expectedRhs, solvedRhs := 0.0, 0.0;
      for column := 0 to order
        invariant next == Word(SEED, drawn + column)
        invariant RowSums(g, x, row, column, expectedRhs, solvedRhs)
      {
        var element;
        next, element := NextElement(row, column, next, order, drawn, g);
        var product := element * rhs[column];
        RowSumsNext(g, x, row, column, expectedRhs, solvedRhs, element, product);
        expectedRhs := expectedRhs + element;
        solvedRhs := solvedRhs + product;
      }
      error := Abs(solvedRhs - expectedRhs);
      RowSumsError(order, g, x, row, expectedRhs, solvedRhs);
    }

    method VerifySolution(ghost g: Matrix, ghost x: Vector) returns (maximumError: real)
      requires Valid() && g == Generated(order, Stream(SEED)) && forall j :: 0 <= j < order ==> rhs[j] == x(j)
      ensures LargestError(order, g, Totals(order, g), x, order, maximumError)
    {
      var state := SEED;
      ghost var drawn := 0;
      maximumError := 0.0;
      for row := 0 to order
        invariant Drawn(order, row, drawn) && state == Word(SEED, drawn)
        invariant LargestError(order, g, Totals(order, g), x, row, maximumError)
      {
        RowDrawn(order, row, drawn, g);
        var error;
        state, error := VerifyRow(row, state, drawn, g, x);
        drawn := drawn + order;
        LargestErrorNext(order, g, Totals(order, g), x, row, maximumError, error);
        if error > maximumError {
          maximumError := error;
        }
      }
    }

    // The repetitions, of which the last leaves its system in the arrays.
    method Repeat(repetitions: int) returns (status: int, ghost b: Vector)
      requires Valid() && PivotsInRange() && 0 < repetitions
      modifies matrix, rhs, pivot
      ensures Measured(status, b)
    {
      status, b := 0, RightHandSide();
      for repetition := 0 to repetitions
        invariant PivotsInRange() && (repetition == 0 ==> status == 0)
        invariant repetition > 0 ==> Measured(status, b)
      {
        var outcome;
        outcome, b := Measure();
        status := if status != 0 then status else outcome;
      }
    }

    /** The report of `main`. The benchmark passes if and only if its matrix is not
        singular and no late interchange makes `sgesl` miss a row by more than the limit,
        a condition on the packed array, the interchanges and the row totals; and it
        passes at every order up to 19 and at the simulation order. */
    method Benchmark(repetitions: int) returns (pass: bool)
      requires Valid() && PivotsInRange() && 0 < repetitions
      modifies matrix, rhs, pivot
      ensures var g := Generated(order, Stream(SEED));
        pass <==>
          !Singular(order, g) && SmallDiscrepancy(order, Entries(), Interchanged(), Totals(order, g), ERROR_LIMIT)
      ensures KnownOrder(order) ==> pass
    {
      ghost var g, b := Generated(order, Stream(SEED)), RightHandSide();
      var status;
      status, b := Repeat(repetitions);
      var maximumError := VerifySolution(g, RightHandSide());
      pass := !(status != 0 || maximumError > ERROR_LIMIT);
      Verdict(order, g, Totals(order, g), b, status, Entries(), Interchanged(), RightHandSide(),
              maximumError, ERROR_LIMIT);
    }
  }
}
