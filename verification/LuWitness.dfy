/** A concrete system on which `sgefa` succeeds and `sgesl` returns a wrong answer. */
module LuWitness {
  import opened RealSums
  import opened LuFactor
  import opened LuSingular
  import opened LuSolve

  // Rows (4 0 0), (2 1 0), (1 2 4): the largest entry of column 1 is in the last row.
  ghost function LateInterchange(): Matrix {
    (i: int, j: int) =>
      if i == 0 then (if j == 0 then 4.0 else 0.0)
      else if i == 1 then (if j == 0 then 2.0 else if j == 1 then 1.0 else 0.0)
      else if j == 0 then 1.0 else if j == 1 then 2.0 else 4.0
  }

  // A times the all-ones vector.
  ghost function RowTotals(): Vector {
    (i: int) => if i == 0 then 4.0 else if i == 1 then 3.0 else 7.0
  }

  lemma FirstColumn()
    ensures Pivot(3, LateInterchange(), 0) == 0 && PivotEntry(3, LateInterchange(), 0) == 4.0
    ensures var w := Reduced(3, LateInterchange(), 1);
      && w(0, 0) == 4.0 && w(0, 1) == 0.0 && w(0, 2) == 0.0
      && w(1, 0) == 0.5 && w(1, 1) == 1.0 && w(1, 2) == 0.0
      && w(2, 0) == 0.25 && w(2, 1) == 2.0 && w(2, 2) == 4.0
  {
    var a := LateInterchange();
    var c := PivotRow(a, 0, 3);
    assert Reduced(3, a, 0) == a;
    assert a(0, 0) == 4.0 && a(1, 0) == 2.0 && a(2, 0) == 1.0;
    assert Abs(a(0, 0)) <= Abs(a(c, 0));
    var s := SwapRows(a, 0, 0);
    assert Multiplier(s, 0, 1) == 0.5 && Multiplier(s, 0, 2) == 0.25;
    assert Reduced(3, a, 1) == Eliminate(s, 0);
  }

  lemma SecondColumn()
    ensures Pivot(3, LateInterchange(), 1) == 2 && PivotEntry(3, LateInterchange(), 1) == 2.0
    ensures var w := Reduced(3, LateInterchange(), 2);
      && w(0, 0) == 4.0 && w(0, 1) == 0.0 && w(0, 2) == 0.0
      && w(1, 0) == 0.25 && w(1, 1) == 2.0 && w(1, 2) == 4.0
      && w(2, 0) == 0.5 && w(2, 1) == 0.5 && w(2, 2) == -2.0
  {
    FirstColumn();
    var a := LateInterchange();
    var w := Reduced(3, a, 1);
    var c := PivotRow(w, 1, 3);
    assert Abs(w(2, 1)) <= Abs(w(c, 1));
    var s := SwapRows(w, 1, 2);
    assert s(1, 1) == 2.0 && s(2, 1) == 1.0;
    assert Multiplier(s, 1, 2) == 0.5;
    assert Reduced(3, a, 2) == Eliminate(s, 1);
  }

  lemma AllPivotsFound()
    ensures PivotsFound(3, LateInterchange(), 3)
  {
    FirstColumn();
    SecondColumn();
    ThirdPivot();
  }

  lemma ThirdPivot()
    ensures PivotEntry(3, LateInterchange(), 2) == -2.0
  {
    SecondColumn();
    assert PivotRow(Reduced(3, LateInterchange(), 2), 2, 3) == 2;
  }

  lemma ThirdColumn()
    ensures var w := Reduced(3, LateInterchange(), 3);
      && w(0, 0) == 4.0 && w(0, 1) == 0.0 && w(0, 2) == 0.0
      && w(1, 0) == 0.25 && w(1, 1) == 2.0 && w(1, 2) == 4.0
      && w(2, 0) == 0.5 && w(2, 1) == 0.5 && w(2, 2) == -2.0
  {
    SecondColumn();
    var a := LateInterchange();
    var w := Reduced(3, a, 2);
    assert PivotRow(w, 2, 3) == 2;
    assert Reduced(3, a, 3) == Eliminate(SwapRows(w, 2, 2), 2);
  }

  /** An interchange at column 1 breaks the solve: the right-hand side is the row
      sums, so all ones is the exact solution, and `sgesl` returns something else. */
  lemma LateInterchangeFails()
    ensures var a, b := LateInterchange(), RowTotals();
      var w, p := Reduced(3, a, 3), Pivots(3, a);
      && Factors(3, a, w, p)
      && !SolvesSystem(3, a, b, Solve(3, w, p, b))
      && !SolvesEverything(3, a, w, p)
  {
    AllPivotsFound();
    ThirdColumn();
    SecondColumn();
    FirstColumn();
    var a, b := LateInterchange(), RowTotals();
    var w, p := Reduced(3, a, 3), Pivots(3, a);
    FactorisationCorrect(3, a);
    var y1 := Forward(w, p, b, 1);
    assert y1 == ForwardStep(w, 0, b, 0);
    assert y1(0) == 4.0 && y1(1) == 2.0 && y1(2) == 5.0;
    var y := Forward(w, p, b, 2);
    assert y == ForwardStep(w, 2, y1, 1);
    assert y(0) == 4.0 && y(1) == 5.0 && y(2) == -0.5;
    assert Origin(p, 1, 2, 1) == 2;
    var d := Difference(Lower(w), Interleaved(3, w, p));
    var row := RowTerms(d, y, 1);
    assert row(0) == -1.0 && row(1) == 0.0 && row(2) == 0.0;
    SumSingle(row, 0, 0, 3);
    assert Discrepancy(3, w, p, b, 1) == -1.0;
    SolvedIffNoDiscrepancy(3, a, w, p, b);
  }
}
