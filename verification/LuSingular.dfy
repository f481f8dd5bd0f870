/** `sgefa` reports failure exactly for singular matrices. */
module LuSingular {
  import opened RealSums
  import opened LuFactor

  type Vector = int -> real

  ghost function RowTerms(a: Matrix, x: Vector, i: int): int -> real {
    (j: int) => a(i, j) * x(j)
  }

  ghost function Apply(n: int, a: Matrix, x: Vector): Vector {
    (i: int) => Sum(RowTerms(a, x, i), 0, n)
  }

  ghost predicate NullVector(n: int, a: Matrix, x: Vector) {
    && (exists i :: 0 <= i < n && x(i) != 0.0)
    && (forall i :: 0 <= i < n ==> Apply(n, a, x)(i) == 0.0)
  }

  ghost predicate Singular(n: int, a: Matrix) {
    exists x: Vector :: NullVector(n, a, x)
  }

  /** Where the row r of the original matrix stands after interchanges lo..hi-1. */
  ghost function Position(p: int -> int, lo: int, hi: int, r: int): int
    decreases hi - lo
  {
    if hi <= lo then r else Exchange(hi - 1, p(hi - 1), Position(p, lo, hi - 1, r))
  }

  lemma {:induction false} PositionInRange(p: int -> int, lo: int, hi: int, r: int, n: int)
    requires 0 <= lo && hi <= n && lo <= r < n
    requires forall t :: lo <= t < hi ==> t <= p(t) < n
    ensures lo <= Position(p, lo, hi, r) < n
    decreases hi - lo
  {
    if lo < hi {
      PositionInRange(p, lo, hi - 1, r, n);
    }
  }

  /** The composed interchange is a bijection of the rows. */
  lemma {:induction false} OriginPosition(p: int -> int, lo: int, hi: int, r: int)
    ensures Origin(p, lo, hi, Position(p, lo, hi, r)) == r
    decreases hi - lo
  {
    if lo < hi {
      var q := Position(p, lo, hi - 1, r);
      assert Exchange(hi - 1, p(hi - 1), Exchange(hi - 1, p(hi - 1), q)) == q;
      OriginPosition(p, lo, hi - 1, r);
    }
  }

  lemma {:induction false} PositionOrigin(p: int -> int, lo: int, hi: int, i: int)
    ensures Position(p, lo, hi, Origin(p, lo, hi, i)) == i
    decreases hi - lo
  {
    if lo < hi {
      var e := Exchange(hi - 1, p(hi - 1), i);
      assert Exchange(hi - 1, p(hi - 1), e) == i;
      PositionOrigin(p, lo, hi - 1, e);
    }
  }

  ghost function ScaledProductTerms(l: Matrix, u: Matrix, k: int, x: Vector, i: int): int -> real {
    (j: int) => Product(l, u, k, i, j) * x(j)
  }

  /** (L*U)x = L(Ux), restricted to the first k columns of L. */
  lemma ProductApply(l: Matrix, u: Matrix, k: int, n: int, x: Vector, i: int)
    ensures Sum(ScaledProductTerms(l, u, k, x, i), 0, n)
         == Sum(RowTerms(l, Apply(n, u, x), i), 0, k)
  {
    var f := (j: int, t: int) => l(i, t) * u(t, j) * x(j);
    forall j ensures ScaledProductTerms(l, u, k, x, i)(j) == Sum(Across(f, j), 0, k) {
      assert Product(l, u, k, i, j) == Sum(ProductTerms(l, u, i, j), 0, k);
      SumScale(x(j), ProductTerms(l, u, i, j), Across(f, j), 0, k);
    }
    forall t ensures RowTerms(l, Apply(n, u, x), i)(t) == Sum(Down(f, t), 0, n) {
      assert Apply(n, u, x)(t) == Sum(RowTerms(u, x, t), 0, n);
      SumScale(l(i, t), RowTerms(u, x, t), Down(f, t), 0, n);
    }
    SumExchange(f, ScaledProductTerms(l, u, k, x, i), RowTerms(l, Apply(n, u, x), i), n, k);
  }

  /** A unit lower triangular system with zero right-hand side has only the zero solution. */
  lemma {:induction false} UnitLowerInjective(n: int, w: Matrix, y: Vector, t: int)
    requires 0 <= t < n
    requires forall i :: 0 <= i < n ==> Apply(n, Lower(w), y)(i) == 0.0
    ensures y(t) == 0.0
    decreases t
  {
    var f := RowTerms(Lower(w), y, t);
    forall j | 0 <= j < n && j != t ensures f(j) == 0.0 {
      if j < t {
        UnitLowerInjective(n, w, y, j);
      }
    }
    SumSingle(f, 0, t, n);
    assert Apply(n, Lower(w), y)(t) == f(t);
  }

  lemma {:induction false} UpperInjective(n: int, w: Matrix, x: Vector, t: int)
    requires 0 <= t < n
    requires forall i :: 0 <= i < n ==> w(i, i) != 0.0
    requires forall i :: 0 <= i < n ==> Apply(n, Upper(w), x)(i) == 0.0
    ensures x(t) == 0.0
    decreases n - t
  {
    var f := RowTerms(Upper(w), x, t);
    forall j | 0 <= j < n && j != t ensures f(j) == 0.0 {
      if j > t {
        UpperInjective(n, w, x, j);
      }
    }
    SumSingle(f, 0, t, n);
    assert Apply(n, Upper(w), x)(t) == f(t);
  }

  /** A*x, row by row, through a factorisation of A. */
  lemma FactoredApply(n: int, a: Matrix, w: Matrix, p: int -> int, x: Vector, i: int)
    requires 0 <= i < n && Factors(n, a, w, p)
    ensures Apply(n, a, x)(Origin(p, 0, n, i)) == Apply(n, Lower(w), Apply(n, Upper(w), x))(i)
  {
    var terms := RowTerms(a, x, Origin(p, 0, n, i));
    var scaled := ScaledProductTerms(Lower(w), Upper(w), n, x, i);
    forall j | 0 <= j < n ensures terms(j) == scaled(j) {
      assert Product(Lower(w), Upper(w), n, i, j) == a(Origin(p, 0, n, i), j);
    }
    SumCongruence(terms, scaled, 0, n);
    ProductApply(Lower(w), Upper(w), n, n, x, i);
  }

  /** Only the zero vector is annihilated by a matrix with a factorisation. */
  lemma FactoredInjective(n: int, a: Matrix, w: Matrix, p: int -> int, x: Vector)
    requires Factors(n, a, w, p)
    requires forall r :: 0 <= r < n ==> Apply(n, a, x)(r) == 0.0
    ensures forall i :: 0 <= i < n ==> x(i) == 0.0
  {
    var y := Apply(n, Upper(w), x);
    forall i | 0 <= i < n ensures Apply(n, Lower(w), y)(i) == 0.0 {
      FactoredApply(n, a, w, p, x, i);
      OriginInRange(p, 0, n, i, n);
    }
    forall i | 0 <= i < n ensures y(i) == 0.0 {
      UnitLowerInjective(n, w, y, i);
    }
    forall i | 0 <= i < n ensures x(i) == 0.0 {
      UpperInjective(n, w, x, i);
    }
  }

  /** Back substitution that makes column k a combination of the columns before it. */
  ghost function Kernel(w: Matrix, k: int, t: int): Vector
    decreases k - t
  {
    if k <= t then (j: int) => if j == k then 1.0 else 0.0
    else
      var v := Kernel(w, k, t + 1);
      var s := Sum(RowTerms(w, v, t), t + 1, k + 1);
      var x := if w(t, t) == 0.0 then 0.0 else -s / w(t, t);
      (j: int) => if j == t then x else v(j)
  }

  lemma {:induction false} KernelOutside(w: Matrix, k: int, t: int, j: int)
    requires t <= k
    ensures j < t || k < j ==> Kernel(w, k, t)(j) == 0.0
    ensures Kernel(w, k, t)(k) == 1.0
    decreases k - t
  {
    if t < k {
      KernelOutside(w, k, t + 1, j);
    }
  }

  lemma CancelDiagonal(d: real, s: real)
    requires d != 0.0
    ensures d * (-s / d) + s == 0.0
  {
    var q := -s / d;
    assert q * d == -s;
  }

  lemma KernelUnchanged(w: Matrix, k: int, t: int, i: int, j: int)
    requires t < k && j != t
    ensures RowTerms(w, Kernel(w, k, t), i)(j) == RowTerms(w, Kernel(w, k, t + 1), i)(j)
  {
  }

  lemma KernelDiagonalTerm(w: Matrix, k: int, t: int)
    requires t < k && w(t, t) != 0.0
    ensures RowTerms(w, Kernel(w, k, t), t)(t)
         == -Sum(RowTerms(w, Kernel(w, k, t + 1), t), t + 1, k + 1)
  {
    CancelDiagonal(w(t, t), Sum(RowTerms(w, Kernel(w, k, t + 1), t), t + 1, k + 1));
  }

  lemma {:induction false} KernelSolves(w: Matrix, k: int, t: int, i: int)
    requires 0 <= t <= i < k
    requires forall d :: 0 <= d < k ==> w(d, d) != 0.0
    ensures Sum(RowTerms(w, Kernel(w, k, t), i), i, k + 1) == 0.0
    decreases k - t
  {
    var f := RowTerms(w, Kernel(w, k, t), i);
    var g := RowTerms(w, Kernel(w, k, t + 1), i);
    forall j | t < j ensures f(j) == g(j) {
      KernelUnchanged(w, k, t, i, j);
    }
    if t < i {
      KernelSolves(w, k, t + 1, i);
      SumCongruence(f, g, i, k + 1);
    } else {
      SumSplit(f, t, t + 1, k + 1);
      SumCongruence(f, g, t + 1, k + 1);
      assert Sum(f, t, t + 1) == Sum(f, t, t) + f(t);
      KernelDiagonalTerm(w, k, t);
    }
  }

  lemma KernelAnnihilated(n: int, w: Matrix, k: int, t: int)
    requires 0 <= t < k < n
    requires forall d :: 0 <= d < k ==> w(d, d) != 0.0
    ensures Apply(n, Upper(w), Kernel(w, k, 0))(t) == 0.0
  {
    var x := Kernel(w, k, 0);
    var f := RowTerms(Upper(w), x, t);
    forall j | k < j ensures x(j) == 0.0 {
      KernelOutside(w, k, 0, j);
    }
    SumSplit(f, 0, t, n);
    SumSplit(f, t, k + 1, n);
    SumZero(f, 0, t);
    SumZero(f, k + 1, n);
    KernelSolves(w, k, 0, t);
    SumCongruence(f, RowTerms(w, x, t), t, k + 1);
  }

  ghost function PartialTerms(w: Matrix, k: int, x: Vector, i: int): int -> real {
    (j: int) => PartialProduct(w, k, i, j) * x(j)
  }

  // Column k has no pivot: every entry from row k down is zero.
  ghost predicate NoPivotIn(n: int, w: Matrix, k: int) {
    && (forall d :: 0 <= d < k ==> w(d, d) != 0.0)
    && (forall i :: k <= i < n ==> w(i, k) == 0.0)
  }

  lemma NoPivotFound(n: int, a: Matrix, k: int)
    requires 0 <= k < n
    requires PivotsFound(n, a, k) && PivotEntry(n, a, k) == 0.0
    ensures NoPivotIn(n, Reduced(n, a, k), k)
  {
    var w := Reduced(n, a, k);
    forall d | 0 <= d < k ensures w(d, d) != 0.0 {
      DiagonalIsPivot(n, a, d, k);
    }
    forall i | k <= i < n ensures w(i, k) == 0.0 {
      assert Abs(w(i, k)) <= Abs(w(Pivot(n, a, k), k));
    }
  }

  /** A column with no pivot: the array so far annihilates the kernel vector. */
  lemma MissingPivotAnnihilates(n: int, w: Matrix, k: int, i: int)
    requires 0 <= k < n && 0 <= i < n && NoPivotIn(n, w, k)
    ensures Sum(PartialTerms(w, k, Kernel(w, k, 0), i), 0, n) == 0.0
  {
    var x := Kernel(w, k, 0);
    var terms := RowTerms(Lower(w), Apply(n, Upper(w), x), i);
    forall t | 0 <= t < k ensures terms(t) == 0.0 {
      KernelAnnihilated(n, w, k, t);
    }
    SumZero(terms, 0, k);
    ProductApply(Lower(w), Upper(w), k, n, x, i);
    var partial, done := PartialTerms(w, k, x, i), ScaledProductTerms(Lower(w), Upper(w), k, x, i);
    forall j | 0 <= j < n ensures partial(j) == done(j) {
      RemainderTerm(n, w, k, i, j);
    }
    SumCongruence(partial, done, 0, n);
  }

  lemma RemainderTerm(n: int, w: Matrix, k: int, i: int, j: int)
    requires 0 <= k < n && 0 <= i < n && 0 <= j < n && NoPivotIn(n, w, k)
    ensures PartialTerms(w, k, Kernel(w, k, 0), i)(j)
         == ScaledProductTerms(Lower(w), Upper(w), k, Kernel(w, k, 0), i)(j)
  {
    if j > k {
      KernelOutside(w, k, 0, j);
    } else {
      assert j == k && i >= k ==> w(i, j) == 0.0;
      assert PartialProduct(w, k, i, j) == Product(Lower(w), Upper(w), k, i, j);
    }
  }

  lemma EqualFactors(a: Matrix, r: int, w: Matrix, k: int, x: Vector, i: int, j: int)
    requires a(r, j) == PartialProduct(w, k, i, j)
    ensures RowTerms(a, x, r)(j) == PartialTerms(w, k, x, i)(j)
  {
  }

  lemma KernelRow(n: int, a: Matrix, k: int, i: int)
    requires 0 <= k < n && 0 <= i < n
    requires PivotsFound(n, a, k) && PivotEntry(n, a, k) == 0.0
    ensures Apply(n, a, Kernel(Reduced(n, a, k), k, 0))(Origin(Pivots(n, a), 0, k, i)) == 0.0
  {
    var w := Reduced(n, a, k);
    var x, r := Kernel(w, k, 0), Origin(Pivots(n, a), 0, k, i);
    assert Sum(PartialTerms(w, k, x, i), 0, n) == 0.0 by {
      NoPivotFound(n, a, k);
      MissingPivotAnnihilates(n, w, k, i);
    }
    forall j | 0 <= j < n ensures RowTerms(a, x, r)(j) == PartialTerms(w, k, x, i)(j) {
      FactorInvariant(n, a, k, i, j);
      EqualFactors(a, r, w, k, x, i, j);
    }
    SumCongruence(RowTerms(a, x, r), PartialTerms(w, k, x, i), 0, n);
  }

  lemma FailureMeansSingular(n: int, a: Matrix, k: int)
    requires 0 <= k < n
    requires PivotsFound(n, a, k) && PivotEntry(n, a, k) == 0.0
    ensures Singular(n, a)
  {
    var x, p := Kernel(Reduced(n, a, k), k, 0), Pivots(n, a);
    forall r | 0 <= r < n ensures Apply(n, a, x)(r) == 0.0 {
      PositionInRange(p, 0, k, r, n);
      OriginPosition(p, 0, k, r);
      KernelRow(n, a, k, Position(p, 0, k, r));
    }
    KernelOutside(Reduced(n, a, k), k, 0, k);
    assert x(k) != 0.0;
    assert NullVector(n, a, x);
  }

  lemma {:induction false} FirstMissingPivot(n: int, a: Matrix, k: int) returns (f: int)
    requires 0 <= k <= n
    requires !PivotsFound(n, a, k)
    ensures 0 <= f < k && PivotsFound(n, a, f) && PivotEntry(n, a, f) == 0.0
    decreases k
  {
    if PivotsFound(n, a, k - 1) {
      f := k - 1;
    } else {
      f := FirstMissingPivot(n, a, k - 1);
    }
  }

  /** Every column has a pivot exactly when no non-zero vector is annihilated. */
  lemma PivotsFoundIffNonsingular(n: int, a: Matrix)
    requires 0 <= n
    ensures PivotsFound(n, a, n) <==> !Singular(n, a)
  {
    if PivotsFound(n, a, n) {
      FactorisationCorrect(n, a);
      forall x: Vector | NullVector(n, a, x) ensures false {
        FactoredInjective(n, a, Reduced(n, a, n), Pivots(n, a), x);
      }
    } else {
      var k := FirstMissingPivot(n, a, n);
      FailureMeansSingular(n, a, k);
    }
  }
}
