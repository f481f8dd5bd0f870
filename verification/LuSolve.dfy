/** What `sgesl` computes from a packed array and its recorded interchanges,
    and exactly when that is a solution of the original system. */
module LuSolve {
  import opened RealSums
  import opened LuFactor
  import opened LuSingular

  ghost function ForwardStep(w: Matrix, c: int, b: Vector, k: int): Vector {
    var t := b(c);
    (i: int) =>
      if i == k then t
      else (if i == c then b(k) else b(i)) - (if i > k then w(i, k) * t else 0.0)
  }

  /** The right-hand side after the forward pass has handled columns 0..k-1. */
  ghost function Forward(w: Matrix, p: int -> int, b: Vector, k: int): Vector
    decreases k
  {
    if k <= 0 then b else ForwardStep(w, p(k - 1), Forward(w, p, b, k - 1), k - 1)
  }

  ghost function BackStep(w: Matrix, y: Vector, d: int): Vector {
    var x := if w(d, d) == 0.0 then 0.0 else y(d) / w(d, d);
    (i: int) => if i == d then x else if i < d then y(i) - x * w(i, d) else y(i)
  }

  /** The right-hand side after the back pass has handled columns n-1 down to c. */
  ghost function Back(n: int, w: Matrix, y: Vector, c: int): Vector
    decreases n - c
  {
    if n <= c then y else BackStep(w, Back(n, w, y, c + 1), c)
  }

  ghost function Solve(n: int, w: Matrix, p: int -> int, b: Vector): Vector {
    Back(n, w, Forward(w, p, b, n - 1), 0)
  }

  /** The lower factor that the interleaved forward pass actually inverts: the
      multiplier it applied to the row now at i was stored where that row stood
      when column t was eliminated from the right-hand side. */
  ghost function Interleaved(n: int, w: Matrix, p: int -> int): Matrix {
    (i: int, t: int) =>
      if i > t then w(Origin(p, t + 1, n - 1, i), t) else if i == t then 1.0 else 0.0
  }

  ghost function ForwardTerms(w: Matrix, p: int -> int, k: int, v: Vector, i: int): int -> real {
    (t: int) => if t < i then w(Origin(p, t + 1, k, i), t) * v(t) else 0.0
  }

  lemma ForwardTermKept(n: int, w: Matrix, p: int -> int, u: Vector, k: int, i: int, t: int)
    requires 0 <= t < k < n && 0 <= i < n && Interchanges(n, p)
    ensures ForwardTerms(w, p, k + 1, ForwardStep(w, p(k), u, k), i)(t)
         == ForwardTerms(w, p, k, u, Exchange(k, p(k), i))(t)
  {
    assert ForwardStep(w, p(k), u, k)(t) == u(t);
    assert Origin(p, t + 1, k + 1, i) == Origin(p, t + 1, k, Exchange(k, p(k), i));
  }

  lemma ForwardNewTerm(n: int, w: Matrix, p: int -> int, u: Vector, k: int, i: int)
    requires 0 <= k < n && 0 <= i < n && Interchanges(n, p)
    ensures var v := ForwardStep(w, p(k), u, k);
      v(i) + ForwardTerms(w, p, k + 1, v, i)(k) == u(Exchange(k, p(k), i))
  {
    assert Origin(p, k + 1, k + 1, i) == i;
  }

  lemma ForwardStepSum(n: int, w: Matrix, p: int -> int, u: Vector, k: int, i: int)
    requires 0 <= k < n && 0 <= i < n && Interchanges(n, p)
    ensures var v, e := ForwardStep(w, p(k), u, k), Exchange(k, p(k), i);
      v(i) + Sum(ForwardTerms(w, p, k + 1, v, i), 0, k + 1)
        == u(e) + Sum(ForwardTerms(w, p, k, u, e), 0, k)
  {
    var v, e := ForwardStep(w, p(k), u, k), Exchange(k, p(k), i);
    var after, before := ForwardTerms(w, p, k + 1, v, i), ForwardTerms(w, p, k, u, e);
    forall t | 0 <= t < k ensures after(t) == before(t) {
      ForwardTermKept(n, w, p, u, k, i, t);
    }
    SumCongruence(after, before, 0, k);
    assert Sum(after, 0, k + 1) == Sum(after, 0, k) + after(k);
    ForwardNewTerm(n, w, p, u, k, i);
  }

  /** Forward pass, read backwards: the right-hand side it started from. */
  lemma {:induction false} ForwardInvariant(n: int, w: Matrix, p: int -> int, b: Vector, k: int, i: int)
    requires 0 <= k <= n && 0 <= i < n && Interchanges(n, p)
    ensures var v := Forward(w, p, b, k);
      b(Origin(p, 0, k, i)) == v(i) + Sum(ForwardTerms(w, p, k, v, i), 0, k)
    decreases k
  {
    if k > 0 {
      ForwardInvariant(n, w, p, b, k - 1, Exchange(k - 1, p(k - 1), i));
      ForwardStepSum(n, w, p, Forward(w, p, b, k - 1), k - 1, i);
    }
  }

  /** With p(n-1) = n-1 the last interchange is the identity, so nothing is lost
      by the forward pass stopping one column early. */
  lemma LastInterchangeIdle(p: int -> int, lo: int, n: int, i: int)
    requires lo < n && 0 <= i < n && 0 <= lo && Interchanges(n, p)
    ensures Origin(p, lo, n, i) == Origin(p, lo, n - 1, i)
  {
  }

  /** One row of a unit lower triangular product. */
  lemma UnitLowerRow(n: int, l: Matrix, v: Vector, i: int)
    requires 0 <= i < n && l(i, i) == 1.0
    requires forall j :: i < j < n ==> l(i, j) == 0.0
    ensures Apply(n, l, v)(i) == v(i) + Sum(RowTerms(l, v, i), 0, i)
  {
    var row := RowTerms(l, v, i);
    SumSplit(row, 0, i, n);
    SumSplit(row, i, i + 1, n);
    SumZero(row, i + 1, n);
    assert Sum(row, i, i + 1) == Sum(row, i, i) + row(i);
  }

  lemma InterleavedRow(n: int, w: Matrix, p: int -> int, v: Vector, i: int)
    requires 0 <= i < n
    ensures Apply(n, Interleaved(n, w, p), v)(i)
         == v(i) + Sum(ForwardTerms(w, p, n - 1, v, i), 0, n - 1)
  {
    var terms := ForwardTerms(w, p, n - 1, v, i);
    UnitLowerRow(n, Interleaved(n, w, p), v, i);
    SumSplit(terms, 0, i, n - 1);
    SumZero(terms, i, n - 1);
    SumCongruence(RowTerms(Interleaved(n, w, p), v, i), terms, 0, i);
  }

  /** The forward pass solves the interleaved triangular system. */
  lemma ForwardSolves(n: int, w: Matrix, p: int -> int, b: Vector, i: int)
    requires 0 <= i < n && Interchanges(n, p)
    ensures Apply(n, Interleaved(n, w, p), Forward(w, p, b, n - 1))(i)
         == b(Origin(p, 0, n - 1, i))
  {
    ForwardInvariant(n, w, p, b, n - 1, i);
    InterleavedRow(n, w, p, Forward(w, p, b, n - 1), i);
  }

  lemma {:induction false} BackInvariant(n: int, w: Matrix, y: Vector, c: int, i: int)
    requires 0 <= c <= n && 0 <= i < n
    requires forall d :: 0 <= d < n ==> w(d, d) != 0.0
    ensures var v := Back(n, w, y, c);
      if i < c then y(i) == v(i) + Sum(RowTerms(w, v, i), c, n)
      else y(i) == Sum(RowTerms(w, v, i), i, n)
    decreases n - c
  {
    if c < n {
      var u := Back(n, w, y, c + 1);
      var v := Back(n, w, y, c);
      BackInvariant(n, w, y, c + 1, i);
      var before, after := RowTerms(w, u, i), RowTerms(w, v, i);
      forall t | c < t < n ensures after(t) == before(t) {
        BackTermKept(n, w, y, c, i, t);
      }
      SumCongruence(after, before, c + 1, n);
      SumSplit(after, c, c + 1, n);
      assert Sum(after, c, c + 1) == Sum(after, c, c) + after(c);
      BackNewTerm(n, w, y, c, i);
      if i > c {
        SumCongruence(after, before, i, n);
      }
    }
  }

  lemma BackTermKept(n: int, w: Matrix, y: Vector, c: int, i: int, t: int)
    requires 0 <= c < t < n
    ensures RowTerms(w, Back(n, w, y, c), i)(t) == RowTerms(w, Back(n, w, y, c + 1), i)(t)
  {
  }

  lemma BackNewTerm(n: int, w: Matrix, y: Vector, c: int, i: int)
    requires 0 <= c < n && w(c, c) != 0.0
    ensures i < c ==> Back(n, w, y, c)(i) + RowTerms(w, Back(n, w, y, c), i)(c) == Back(n, w, y, c + 1)(i)
    ensures i == c ==> RowTerms(w, Back(n, w, y, c), i)(c) == Back(n, w, y, c + 1)(i)
  {
    var q := Back(n, w, y, c + 1)(c) / w(c, c);
    assert q * w(c, c) == Back(n, w, y, c + 1)(c);
  }

  lemma UpperRow(n: int, w: Matrix, x: Vector, i: int)
    requires 0 <= i < n
    ensures Apply(n, Upper(w), x)(i) == Sum(RowTerms(w, x, i), i, n)
  {
    var row := RowTerms(Upper(w), x, i);
    SumSplit(row, 0, i, n);
    SumZero(row, 0, i);
    SumCongruence(row, RowTerms(w, x, i), i, n);
  }

  /** The back pass solves the upper triangular system. */
  lemma BackSolves(n: int, w: Matrix, y: Vector, i: int)
    requires 0 <= i < n
    requires forall d :: 0 <= d < n ==> w(d, d) != 0.0
    ensures Apply(n, Upper(w), Back(n, w, y, 0))(i) == y(i)
  {
    BackInvariant(n, w, y, 0, i);
    UpperRow(n, w, Back(n, w, y, 0), i);
  }

  ghost function Difference(a: Matrix, b: Matrix): Matrix {
    (i: int, j: int) => a(i, j) - b(i, j)
  }

  /** Row i of L minus row i of the factor the forward pass used, against the
      eliminated right-hand side: the error that late interchanges introduce. */
  ghost function Discrepancy(n: int, w: Matrix, p: int -> int, b: Vector, i: int): real {
    Apply(n, Difference(Lower(w), Interleaved(n, w, p)), Forward(w, p, b, n - 1))(i)
  }

  lemma ApplyDifference(n: int, a: Matrix, b: Matrix, x: Vector, i: int)
    ensures Apply(n, Difference(a, b), x)(i) == Apply(n, a, x)(i) - Apply(n, b, x)(i)
  {
    SumAdd(RowTerms(Difference(a, b), x, i), RowTerms(b, x, i), RowTerms(a, x, i), 0, n);
  }

  lemma {:induction false} ApplyCongruence(n: int, a: Matrix, x: Vector, y: Vector, i: int)
    requires forall j :: 0 <= j < n ==> x(j) == y(j)
    ensures Apply(n, a, x)(i) == Apply(n, a, y)(i)
  {
    var f, g := RowTerms(a, x, i), RowTerms(a, y, i);
    forall j | 0 <= j < n ensures f(j) == g(j) {
    }
    SumCongruence(f, g, 0, n);
  }

  /** The residual of the solve in closed form, for every factorisation and every
      right-hand side. */
  lemma Residual(n: int, a: Matrix, w: Matrix, p: int -> int, b: Vector, i: int)
    requires 0 <= i < n && Factors(n, a, w, p)
    ensures var r := Origin(p, 0, n, i);
      Apply(n, a, Solve(n, w, p, b))(r) - b(r) == Discrepancy(n, w, p, b, i)
  {
    var y := Forward(w, p, b, n - 1);
    var x := Solve(n, w, p, b);
    forall j | 0 <= j < n ensures Apply(n, Upper(w), x)(j) == y(j) {
      BackSolves(n, w, y, j);
    }
    FactoredApply(n, a, w, p, x, i);
    ApplyCongruence(n, Lower(w), Apply(n, Upper(w), x), y, i);
    ForwardSolves(n, w, p, b, i);
    LastInterchangeIdle(p, 0, n, i);
    ApplyDifference(n, Lower(w), Interleaved(n, w, p), y, i);
  }

  ghost predicate SolvesSystem(n: int, a: Matrix, b: Vector, x: Vector) {
    forall r :: 0 <= r < n ==> Apply(n, a, x)(r) == b(r)
  }

  ghost predicate NoDiscrepancy(n: int, w: Matrix, p: int -> int, b: Vector) {
    forall i :: 0 <= i < n ==> Discrepancy(n, w, p, b, i) == 0.0
  }

  /** For one right-hand side: the result is a solution exactly when the
      discrepancy vanishes in every row. */
  lemma SolvedIffNoDiscrepancy(n: int, a: Matrix, w: Matrix, p: int -> int, b: Vector)
    requires Factors(n, a, w, p)
    ensures SolvesSystem(n, a, b, Solve(n, w, p, b)) <==> NoDiscrepancy(n, w, p, b)
  {
    var x := Solve(n, w, p, b);
    if SolvesSystem(n, a, b, x) {
      forall i | 0 <= i < n ensures Discrepancy(n, w, p, b, i) == 0.0 {
        Residual(n, a, w, p, b, i);
        OriginInRange(p, 0, n, i, n);
      }
    }
    if NoDiscrepancy(n, w, p, b) {
      forall r | 0 <= r < n ensures Apply(n, a, x)(r) == b(r) {
        PositionInRange(p, 0, n, r, n);
        OriginPosition(p, 0, n, r);
        Residual(n, a, w, p, b, Position(p, 0, n, r));
      }
    }
  }

  /** Later interchanges move no stored multiplier: checkable on the packed array
      and pivot[] before the solve. */
  ghost predicate MultipliersUnmoved(n: int, w: Matrix, p: int -> int) {
    forall i, t :: 0 <= t < i < n ==> w(i, t) == w(Origin(p, t + 1, n - 1, i), t)
  }

  // The right-hand side whose forward pass ends at the unit vector t.
  ghost function Probe(n: int, w: Matrix, p: int -> int, t: int): Vector {
    (r: int) => Interleaved(n, w, p)(Position(p, 0, n - 1, r), t)
  }

  ghost function Unit(t: int): Vector {
    (i: int) => if i == t then 1.0 else 0.0
  }

  lemma ApplyUnit(n: int, a: Matrix, t: int, i: int)
    requires 0 <= t < n
    ensures Apply(n, a, Unit(t))(i) == a(i, t)
  {
    SumSingle(RowTerms(a, Unit(t), i), 0, t, n);
  }

  /** A unit lower triangular system has at most one solution. */
  lemma {:induction false} UnitLowerUnique(n: int, l: Matrix, x: Vector, y: Vector, t: int)
    requires 0 <= t < n
    requires forall i, j :: 0 <= i < n && 0 <= j < n && j >= i ==> l(i, j) == (if i == j then 1.0 else 0.0)
    requires forall i :: 0 <= i < n ==> Apply(n, l, x)(i) == Apply(n, l, y)(i)
    ensures x(t) == y(t)
    decreases t
  {
    var f, g := RowTerms(l, x, t), RowTerms(l, y, t);
    forall j | 0 <= j < t ensures f(j) == g(j) {
      UnitLowerUnique(n, l, x, y, j);
    }
    SumCongruence(f, g, 0, t);
    UnitLowerRow(n, l, x, t);
    UnitLowerRow(n, l, y, t);
  }

  lemma ProbeReachesUnit(n: int, w: Matrix, p: int -> int, t: int, j: int)
    requires 0 <= t < n && 0 <= j < n && Interchanges(n, p)
    ensures Forward(w, p, Probe(n, w, p, t), n - 1)(j) == Unit(t)(j)
  {
    var l := Interleaved(n, w, p);
    var b := Probe(n, w, p, t);
    var y := Forward(w, p, b, n - 1);
    forall i | 0 <= i < n ensures Apply(n, l, y)(i) == Apply(n, l, Unit(t))(i) {
      ForwardSolves(n, w, p, b, i);
      PositionOrigin(p, 0, n - 1, i);
      ApplyUnit(n, l, t, i);
    }
    UnitLowerUnique(n, l, y, Unit(t), j);
  }

  lemma ProbeDiscrepancy(n: int, w: Matrix, p: int -> int, t: int, i: int)
    requires 0 <= t < i < n && Interchanges(n, p)
    ensures Discrepancy(n, w, p, Probe(n, w, p, t), i)
         == w(i, t) - w(Origin(p, t + 1, n - 1, i), t)
  {
    var d := Difference(Lower(w), Interleaved(n, w, p));
    var y := Forward(w, p, Probe(n, w, p, t), n - 1);
    forall j | 0 <= j < n ensures y(j) == Unit(t)(j) {
      ProbeReachesUnit(n, w, p, t, j);
    }
    ApplyCongruence(n, d, y, Unit(t), i);
    ApplyUnit(n, d, t, i);
  }

  lemma UnmovedHasNoDiscrepancy(n: int, w: Matrix, p: int -> int, b: Vector, i: int)
    requires 0 <= i < n && MultipliersUnmoved(n, w, p)
    ensures Discrepancy(n, w, p, b, i) == 0.0
  {
    var d := Difference(Lower(w), Interleaved(n, w, p));
    SumZero(RowTerms(d, Forward(w, p, b, n - 1), i), 0, n);
  }

  ghost predicate SolvesEverything(n: int, a: Matrix, w: Matrix, p: int -> int) {
    forall b: Vector :: SolvesSystem(n, a, b, Solve(n, w, p, b))
  }

  lemma UnmovedSolves(n: int, a: Matrix, w: Matrix, p: int -> int, b: Vector)
    requires Factors(n, a, w, p) && MultipliersUnmoved(n, w, p)
    ensures SolvesSystem(n, a, b, Solve(n, w, p, b))
  {
    forall i | 0 <= i < n ensures Discrepancy(n, w, p, b, i) == 0.0 {
      UnmovedHasNoDiscrepancy(n, w, p, b, i);
    }
    SolvedIffNoDiscrepancy(n, a, w, p, b);
  }

  lemma SolvedProbe(n: int, a: Matrix, w: Matrix, p: int -> int, t: int, i: int)
    requires 0 <= t < i < n && Factors(n, a, w, p)
    requires SolvesSystem(n, a, Probe(n, w, p, t), Solve(n, w, p, Probe(n, w, p, t)))
    ensures w(i, t) == w(Origin(p, t + 1, n - 1, i), t)
  {
    SolvedIffNoDiscrepancy(n, a, w, p, Probe(n, w, p, t));
    ProbeDiscrepancy(n, w, p, t, i);
  }

  /** The exact condition under which a packed factorisation solves A*x = b for
      every right-hand side: no multiplier was moved by a later interchange. */
  lemma SolvesEverythingIffUnmoved(n: int, a: Matrix, w: Matrix, p: int -> int)
    requires Factors(n, a, w, p)
    ensures SolvesEverything(n, a, w, p) <==> MultipliersUnmoved(n, w, p)
  {
    if MultipliersUnmoved(n, w, p) {
      forall b: Vector ensures SolvesSystem(n, a, b, Solve(n, w, p, b)) {
        UnmovedSolves(n, a, w, p, b);
      }
    }
    if SolvesEverything(n, a, w, p) {
      forall i, t | 0 <= t < i < n ensures w(i, t) == w(Origin(p, t + 1, n - 1, i), t) {
        SolvedProbe(n, a, w, p, t, i);
      }
    }
  }

  lemma {:induction false} IdleInterchanges(p: int -> int, lo: int, hi: int, i: int)
    requires forall k :: lo <= k < hi ==> p(k) == k
    ensures Origin(p, lo, hi, i) == i
    decreases hi - lo
  {
    if lo < hi {
      IdleInterchanges(p, lo, hi - 1, i);
    }
  }

  lemma IdleMeansUnmoved(n: int, w: Matrix, p: int -> int)
    requires forall k :: 1 <= k < n ==> p(k) == k
    ensures MultipliersUnmoved(n, w, p)
  {
    forall i, t | 0 <= t < i < n ensures w(i, t) == w(Origin(p, t + 1, n - 1, i), t) {
      IdleInterchanges(p, t + 1, n - 1, i);
    }
  }

  /** No interchange after column 0 is enough. */
  lemma NoLateInterchangeSolves(n: int, a: Matrix, w: Matrix, p: int -> int, b: Vector)
    requires Factors(n, a, w, p)
    requires forall k :: 1 <= k < n ==> p(k) == k
    ensures SolvesSystem(n, a, b, Solve(n, w, p, b))
  {
    IdleMeansUnmoved(n, w, p);
    UnmovedSolves(n, a, w, p, b);
  }
}
