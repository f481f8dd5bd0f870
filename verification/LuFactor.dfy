/** What `sgefa` computes, as a function of the matrix: one column step at a
    time, on the packed array that holds both triangular factors. */
module LuFactor {
  import opened RealSums

  // An n-by-n matrix is its entry function; only indices in [0, n) matter.
  type Matrix = (int, int) -> real

  ghost predicate SameEntries(n: int, a: Matrix, b: Matrix) {
    forall i, j :: 0 <= i < n && 0 <= j < n ==> a(i, j) == b(i, j)
  }

  function Exchange(first: int, second: int, i: int): int {
    if i == first then second else if i == second then first else i
  }

  ghost function SwapRows(a: Matrix, first: int, second: int): Matrix {
    (i: int, j: int) => a(if i == first then second else if i == second then first else i, j)
  }

  /** The first row among k..limit-1 whose entry in column k is largest in magnitude. */
  ghost function PivotRow(a: Matrix, k: int, limit: int): (c: int)
    requires k < limit
    ensures k <= c < limit
    ensures forall i :: k <= i < limit ==> Abs(a(i, k)) <= Abs(a(c, k))
    ensures forall i :: k <= i < c ==> Abs(a(i, k)) < Abs(a(c, k))
    decreases limit - k
  {
    if limit == k + 1 then k else
    var c := PivotRow(a, k, limit - 1);
    if Abs(a(limit - 1, k)) > Abs(a(c, k)) then limit - 1 else c
  }

  ghost function Multiplier(a: Matrix, k: int, i: int): real {
    if a(k, k) == 0.0 then 0.0 else a(i, k) / a(k, k)
  }

  ghost function Eliminate(a: Matrix, k: int): Matrix {
    (i: int, j: int) =>
      if i <= k || j < k then a(i, j)
      else if j == k then Multiplier(a, k, i)
      else a(i, j) - Multiplier(a, k, i) * a(k, j)
  }

  ghost function ColumnStep(n: int, a: Matrix, k: int): Matrix
    requires k < n
  {
    Eliminate(SwapRows(a, k, PivotRow(a, k, n)), k)
  }

  /** The packed array after columns 0..k-1. */
  ghost function Reduced(n: int, a: Matrix, k: int): Matrix
    requires k <= n
    decreases k
  {
    if k <= 0 then a else ColumnStep(n, Reduced(n, a, k - 1), k - 1)
  }

  ghost function Pivot(n: int, a: Matrix, k: int): (c: int)
    requires k < n
    ensures k <= c < n
  {
    PivotRow(Reduced(n, a, k), k, n)
  }

  ghost function PivotEntry(n: int, a: Matrix, k: int): real
    requires k < n
  {
    Reduced(n, a, k)(Pivot(n, a, k), k)
  }

  ghost predicate PivotsFound(n: int, a: Matrix, k: int)
    requires k <= n
  {
    forall t :: 0 <= t < k ==> PivotEntry(n, a, t) != 0.0
  }

  // The interchanges as a total function of the column.
  ghost function Pivots(n: int, a: Matrix): int -> int {
    (k: int) => if k < n then Pivot(n, a, k) else k
  }

  /** The row found at position i after interchanges lo..hi-1 stood here before them. */
  ghost function Origin(p: int -> int, lo: int, hi: int, i: int): int
    decreases hi - lo
  {
    if hi <= lo then i else Origin(p, lo, hi - 1, Exchange(hi - 1, p(hi - 1), i))
  }

  // The two factors held in a packed array.
  ghost function Lower(w: Matrix): Matrix {
    (i: int, t: int) => if i > t then w(i, t) else if i == t then 1.0 else 0.0
  }

  ghost function Upper(w: Matrix): Matrix {
    (t: int, j: int) => if j >= t then w(t, j) else 0.0
  }

  ghost function ProductTerms(a: Matrix, b: Matrix, i: int, j: int): int -> real {
    (t: int) => a(i, t) * b(t, j)
  }

  /** Entry (i, j) of the product of the first k columns of a and rows of b. */
  ghost function Product(a: Matrix, b: Matrix, k: int, i: int, j: int): real {
    Sum(ProductTerms(a, b, i, j), 0, k)
  }

  /** Entry (i, j) of L*U when only the first k columns are done; what is left
      of the matrix is added back. */
  ghost function PartialProduct(w: Matrix, k: int, i: int, j: int): real {
    Product(Lower(w), Upper(w), k, i, j) + (if i >= k && j >= k then w(i, j) else 0.0)
  }

  lemma {:induction false} OriginInRange(p: int -> int, lo: int, hi: int, i: int, n: int)
    requires 0 <= lo && hi <= n && lo <= i < n
    requires forall t :: lo <= t < hi ==> t <= p(t) < n
    ensures lo <= Origin(p, lo, hi, i) < n
    decreases hi - lo
  {
    if lo < hi {
      OriginInRange(p, lo, hi - 1, Exchange(hi - 1, p(hi - 1), i), n);
    }
  }

  /** An interchange of two unfinished rows exchanges the corresponding product rows. */
  lemma SwapKeepsProduct(w: Matrix, k: int, c: int, i: int, j: int)
    requires 0 <= k <= c
    ensures PartialProduct(SwapRows(w, k, c), k, i, j)
         == PartialProduct(w, k, Exchange(k, c, i), j)
  {
    var s := SwapRows(w, k, c);
    var e := Exchange(k, c, i);
    forall t | 0 <= t < k
      ensures ProductTerms(Lower(s), Upper(s), i, j)(t) == ProductTerms(Lower(w), Upper(w), e, j)(t)
    {
      assert Lower(s)(i, t) == Lower(w)(e, t);
      assert Upper(s)(t, j) == Upper(w)(t, j);
    }
    SumCongruence(ProductTerms(Lower(s), Upper(s), i, j), ProductTerms(Lower(w), Upper(w), e, j), 0, k);
  }

  /** One elimination step moves column k from the remainder into the factors. */
  lemma EliminateKeepsProduct(w: Matrix, k: int, i: int, j: int)
    requires 0 <= k
    requires w(k, k) != 0.0
    ensures PartialProduct(Eliminate(w, k), k + 1, i, j) == PartialProduct(w, k, i, j)
  {
    var e := Eliminate(w, k);
    var after := ProductTerms(Lower(e), Upper(e), i, j);
    var before := ProductTerms(Lower(w), Upper(w), i, j);
    forall t | 0 <= t < k ensures after(t) == before(t) {
      assert Lower(e)(i, t) == Lower(w)(i, t);
      assert Upper(e)(t, j) == Upper(w)(t, j);
    }
    SumCongruence(after, before, 0, k);
    assert Sum(after, 0, k + 1) == Sum(after, 0, k) + after(k);
    assert Multiplier(w, k, i) * w(k, k) == w(i, k);
  }

  lemma StepKeepsProduct(n: int, w: Matrix, k: int, i: int, j: int)
    requires 0 <= k < n
    requires w(PivotRow(w, k, n), k) != 0.0
    ensures PartialProduct(ColumnStep(n, w, k), k + 1, i, j)
         == PartialProduct(w, k, Exchange(k, PivotRow(w, k, n), i), j)
  {
    var c := PivotRow(w, k, n);
    var s := SwapRows(w, k, c);
    assert s(k, k) == w(c, k);
    EliminateKeepsProduct(s, k, i, j);
    SwapKeepsProduct(w, k, c, i, j);
  }

  /** The factorisation identity after k columns, for every entry. */
  lemma {:induction false} FactorInvariant(n: int, a: Matrix, k: int, i: int, j: int)
    requires 0 <= k <= n && 0 <= i < n && 0 <= j < n
    requires PivotsFound(n, a, k)
    ensures PartialProduct(Reduced(n, a, k), k, i, j)
         == a(Origin(Pivots(n, a), 0, k, i), j)
    decreases k
  {
    if k > 0 {
      assert PivotEntry(n, a, k - 1) != 0.0;
      StepKeepsProduct(n, Reduced(n, a, k - 1), k - 1, i, j);
      FactorInvariant(n, a, k - 1, Exchange(k - 1, Pivot(n, a, k - 1), i), j);
    } else {
      assert Product(Lower(a), Upper(a), 0, i, j) == 0.0;
    }
  }

  /** Finished rows are never touched again. */
  lemma {:induction false} FinishedRow(n: int, a: Matrix, t: int, k: int, j: int)
    requires 0 <= t < k <= n
    ensures Reduced(n, a, k)(t, j) == Reduced(n, a, t + 1)(t, j)
    decreases k
  {
    if t + 1 < k {
      FinishedRow(n, a, t, k - 1, j);
    }
  }

  lemma DiagonalIsPivot(n: int, a: Matrix, t: int, k: int)
    requires 0 <= t < k <= n
    ensures Reduced(n, a, k)(t, t) == PivotEntry(n, a, t)
  {
    FinishedRow(n, a, t, k, t);
  }

  /** Partial pivoting keeps every stored multiplier at magnitude at most one. */
  lemma {:induction false} MultipliersBounded(n: int, a: Matrix, k: int, i: int, t: int)
    requires 0 <= t < k <= n && t < i < n
    requires PivotsFound(n, a, k)
    ensures Abs(Reduced(n, a, k)(i, t)) <= 1.0
    decreases k
  {
    var w := Reduced(n, a, k - 1);
    var c := Pivot(n, a, k - 1);
    var e := Exchange(k - 1, c, i);
    var s := SwapRows(w, k - 1, c);
    if t < k - 1 {
      MultipliersBounded(n, a, k - 1, e, t);
      assert Reduced(n, a, k)(i, t) == w(e, t);
    } else {
      assert s(t, t) == PivotEntry(n, a, t);
      QuotientBounded(s(i, t), s(t, t));
      assert Reduced(n, a, k)(i, t) == Multiplier(s, t, i);
    }
  }

  lemma QuotientBounded(x: real, y: real)
    requires y != 0.0 && Abs(x) <= Abs(y)
    ensures Abs(x / y) <= 1.0
  {
    var q := x / y;
    ProductAbs(q, y, x);
    BoundedFactor(Abs(q), Abs(y), Abs(x));
  }

  lemma BoundedFactor(m: real, d: real, e: real)
    requires d > 0.0 && m * d == e && e <= d
    ensures m <= 1.0
  {
    assert m > 1.0 ==> (m - 1.0) * d > 0.0;
  }

  lemma ProductAbs(x: real, y: real, z: real)
    requires z == x * y
    ensures Abs(z) == Abs(x) * Abs(y)
  {
    var ax, ay := Abs(x), Abs(y);
    if x < 0.0 {
      assert x * y == -(ax * y);
    }
    if y < 0.0 {
      assert ax * y == -(ax * ay);
    }
    assert ax * ay >= 0.0;
  }

  ghost predicate Interchanges(n: int, p: int -> int) {
    forall k :: 0 <= k < n ==> k <= p(k) < n
  }

  /** P*A = L*U: the packed array w and the interchanges p are a factorisation of
      a. The rows of A are those the interchanges selected, L is unit lower
      triangular by construction, and U has no zero on its diagonal. */
  ghost predicate Factors(n: int, a: Matrix, w: Matrix, p: int -> int) {
    && Interchanges(n, p)
    && (forall i, j :: 0 <= i < n && 0 <= j < n ==>
          Product(Lower(w), Upper(w), n, i, j) == a(Origin(p, 0, n, i), j))
    && (forall t :: 0 <= t < n ==> w(t, t) != 0.0)
  }

  /** What `sgefa` promises whenever it reports success; partial pivoting also
      keeps every multiplier at magnitude at most one. */
  lemma FactorisationCorrect(n: int, a: Matrix)
    requires 0 <= n
    requires PivotsFound(n, a, n)
    ensures Factors(n, a, Reduced(n, a, n), Pivots(n, a))
    ensures forall i, t :: 0 <= t < i < n ==> Abs(Lower(Reduced(n, a, n))(i, t)) <= 1.0
  {
    var w, p := Reduced(n, a, n), Pivots(n, a);
    forall i, j | 0 <= i < n && 0 <= j < n
      ensures Product(Lower(w), Upper(w), n, i, j) == a(Origin(p, 0, n, i), j)
    {
      FactorInvariant(n, a, n, i, j);
    }
    forall i, t | 0 <= t < i < n ensures Abs(Lower(w)(i, t)) <= 1.0 {
      MultipliersBounded(n, a, n, i, t);
    }
    forall t | 0 <= t < n ensures w(t, t) != 0.0 {
      DiagonalIsPivot(n, a, t, n);
    }
  }

  lemma {:induction false} OriginCongruence(n: int, p: int -> int, q: int -> int, lo: int, hi: int, i: int)
    requires 0 <= lo && hi <= n && forall k :: 0 <= k < n ==> p(k) == q(k)
    ensures Origin(p, lo, hi, i) == Origin(q, lo, hi, i)
    decreases hi - lo
  {
    if lo < hi {
      OriginCongruence(n, p, q, lo, hi - 1, Exchange(hi - 1, p(hi - 1), i));
    }
  }

  lemma ProductCongruence(n: int, w: Matrix, v: Matrix, i: int, j: int)
    requires SameEntries(n, w, v) && 0 <= i < n && 0 <= j < n
    ensures Product(Lower(w), Upper(w), n, i, j) == Product(Lower(v), Upper(v), n, i, j)
  {
    var f, g := ProductTerms(Lower(w), Upper(w), i, j), ProductTerms(Lower(v), Upper(v), i, j);
    forall t | 0 <= t < n ensures f(t) == g(t) {
      assert Lower(w)(i, t) == Lower(v)(i, t);
      assert Upper(w)(t, j) == Upper(v)(t, j);
    }
    SumCongruence(f, g, 0, n);
  }

  /** Being a factorisation depends on the stored entries only. */
  lemma FactorsCongruence(n: int, a: Matrix, w: Matrix, v: Matrix, p: int -> int, q: int -> int)
    requires Factors(n, a, w, p) && SameEntries(n, w, v)
    requires forall k :: 0 <= k < n ==> p(k) == q(k)
    ensures Factors(n, a, v, q)
  {
    forall i, j | 0 <= i < n && 0 <= j < n
      ensures Product(Lower(v), Upper(v), n, i, j) == a(Origin(q, 0, n, i), j)
    {
      ProductCongruence(n, w, v, i, j);
      OriginCongruence(n, p, q, 0, n, i);
    }
  }

  /** The arrays at the end of a complete run are a factorisation. */
  lemma FinishedRun(n: int, a: Matrix, w: Matrix, p: int -> int)
    requires 0 <= n && PivotsFound(n, a, n)
    requires SameEntries(n, w, Reduced(n, a, n)) && forall k :: 0 <= k < n ==> p(k) == Pivot(n, a, k)
    ensures Factors(n, a, w, p)
    ensures forall i, t :: 0 <= t < i < n ==> Abs(w(i, t)) <= 1.0
  {
    FactorisationCorrect(n, a);
    FactorsCongruence(n, a, Reduced(n, a, n), w, Pivots(n, a), p);
    forall i, t | 0 <= t < i < n ensures Abs(w(i, t)) <= 1.0 {
      MultipliersBounded(n, a, n, i, t);
    }
  }
}
