/** Finite sums of reals, and the laws the proofs use. */
module RealSums {

  ghost function Sum(f: int -> real, lo: int, hi: int): real
    decreases hi - lo
  {
    if hi <= lo then 0.0 else Sum(f, lo, hi - 1) + f(hi - 1)
  }

  function Abs(x: real): (r: real)
    ensures r >= 0.0 && (r == x || r == -x)
  {
    if x < 0.0 then -x else x
  }

  // A table of terms read along one row, or along one column.
  ghost function Across(f: (int, int) -> real, i: int): int -> real {
    (j: int) => f(i, j)
  }

  ghost function Down(f: (int, int) -> real, j: int): int -> real {
    (i: int) => f(i, j)
  }

  lemma {:induction false} SumCongruence(f: int -> real, g: int -> real, lo: int, hi: int)
    requires forall i :: lo <= i < hi ==> f(i) == g(i)
    ensures Sum(f, lo, hi) == Sum(g, lo, hi)
    decreases hi - lo
  {
    if lo < hi {
      SumCongruence(f, g, lo, hi - 1);
    }
  }

  lemma {:induction false} SumZero(f: int -> real, lo: int, hi: int)
    requires forall i :: lo <= i < hi ==> f(i) == 0.0
    ensures Sum(f, lo, hi) == 0.0
    decreases hi - lo
  {
    if lo < hi {
      SumZero(f, lo, hi - 1);
    }
  }

  lemma {:induction false} SumSplit(f: int -> real, lo: int, mid: int, hi: int)
    requires lo <= mid <= hi
    ensures Sum(f, lo, hi) == Sum(f, lo, mid) + Sum(f, mid, hi)
    decreases hi - mid
  {
    if mid < hi {
      SumSplit(f, lo, mid, hi - 1);
    }
  }

  /** A sum with at most one non-zero term. */
  lemma SumSingle(f: int -> real, lo: int, k: int, hi: int)
    requires lo <= k < hi
    requires forall i :: lo <= i < hi && i != k ==> f(i) == 0.0
    ensures Sum(f, lo, hi) == f(k)
  {
    SumSplit(f, lo, k, hi);
    SumSplit(f, k, k + 1, hi);
    SumZero(f, lo, k);
    SumZero(f, k + 1, hi);
    assert Sum(f, k, k + 1) == Sum(f, k, k) + f(k);
  }

  lemma {:induction false} SumAdd(f: int -> real, g: int -> real, h: int -> real, lo: int, hi: int)
    requires forall i :: lo <= i < hi ==> h(i) == f(i) + g(i)
    ensures Sum(h, lo, hi) == Sum(f, lo, hi) + Sum(g, lo, hi)
    decreases hi - lo
  {
    if lo < hi {
      SumAdd(f, g, h, lo, hi - 1);
    }
  }

  ghost function Plus(f: int -> real, g: int -> real): int -> real {
    (i: int) => f(i) + g(i)
  }

  lemma SumPlus(f: int -> real, g: int -> real, lo: int, hi: int)
    ensures Sum(Plus(f, g), lo, hi) == Sum(f, lo, hi) + Sum(g, lo, hi)
  {
    SumAdd(f, g, Plus(f, g), lo, hi);
  }

  lemma {:induction false} SumScale(c: real, f: int -> real, h: int -> real, lo: int, hi: int)
    requires forall i :: lo <= i < hi ==> h(i) == c * f(i)
    ensures Sum(h, lo, hi) == c * Sum(f, lo, hi)
    decreases hi - lo
  {
    if lo < hi {
      SumScale(c, f, h, lo, hi - 1);
    }
  }

  ghost function Scaled(c: real, f: int -> real): int -> real {
    (i: int) => c * f(i)
  }

  lemma SumScaled(c: real, f: int -> real, lo: int, hi: int, total: real)
    requires total == Sum(f, lo, hi)
    ensures Sum(Scaled(c, f), lo, hi) == c * total
  {
    SumScale(c, f, Scaled(c, f), lo, hi);
  }

  /** Exchange of the order of summation over a rectangular table. */
  lemma {:induction false} SumExchange(f: (int, int) -> real, rows: int -> real, columns: int -> real,
                                       m: int, n: int)
    requires forall i :: 0 <= i < m ==> rows(i) == Sum(Across(f, i), 0, n)
    requires forall j :: 0 <= j < n ==> columns(j) == Sum(Down(f, j), 0, m)
    ensures Sum(rows, 0, m) == Sum(columns, 0, n)
    decreases m
  {
    if m <= 0 {
      SumZero(columns, 0, n);
    } else {
      var shorter := (j: int) => Sum(Down(f, j), 0, m - 1);
      SumExchange(f, rows, shorter, m - 1, n);
      forall j | 0 <= j < n ensures columns(j) == shorter(j) + Across(f, m - 1)(j) {
        assert Down(f, j)(m - 1) == f(m - 1, j);
      }
      SumAdd(shorter, Across(f, m - 1), columns, 0, n);
    }
  }

  lemma {:induction false} SumMonotone(f: int -> real, g: int -> real, lo: int, hi: int)
    requires forall i :: lo <= i < hi ==> f(i) <= g(i)
    ensures Sum(f, lo, hi) <= Sum(g, lo, hi)
    decreases hi - lo
  {
    if lo < hi {
      SumMonotone(f, g, lo, hi - 1);
    }
  }
}
