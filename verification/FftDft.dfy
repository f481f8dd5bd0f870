/** In exact arithmetic the transform is the discrete Fourier sum. */
module FftDft {
  import opened FftSpec
  import opened FftLoops

  // A commutative ring of complex values.
  datatype Ring<!C> = Ring(add: (C, C) -> C, mul: (C, C) -> C, neg: C -> C, zero: C, one: C)

  // Names the elements a law is wanted for.
  ghost predicate Use<C>(a: C, b: C, c: C) {
    true
  }

  ghost predicate LawsFor<C>(g: Ring<C>, a: C, b: C, c: C) {
    && g.add(g.add(a, b), c) == g.add(a, g.add(b, c)) && g.add(a, b) == g.add(b, a)
    && g.add(a, g.zero) == a && g.add(a, g.neg(a)) == g.zero
    && g.mul(g.mul(a, b), c) == g.mul(a, g.mul(b, c)) && g.mul(a, b) == g.mul(b, a)
    && g.mul(a, g.one) == a && g.mul(a, g.zero) == g.zero
    && g.mul(a, g.add(b, c)) == g.add(g.mul(a, b), g.mul(a, c))
    && g.mul(a, g.neg(b)) == g.neg(g.mul(a, b)) && g.neg(g.neg(a)) == a
  }

  ghost predicate Laws<C(!new)>(g: Ring<C>) {
    forall a, b, c {:trigger Use(a, b, c)} :: LawsFor(g, a, b, c)
  }

  /** The arithmetic on parts carries out the ring's addition and multiplication in a butterfly. */
  ghost predicate Computes<T(!new)>(ar: Arith<T>, g: Ring<Complex<T>>) {
    && Laws(g)
    && (forall e, a, o :: Sum(ar, e, a, o) == g.add(e, g.mul(a, o)))
    && (forall e, a, o :: Difference(ar, e, a, o) == g.add(e, g.mul(g.neg(a), o)))
  }

  ghost function Power<C>(g: Ring<C>, w: C, e: int): C
    decreases e
  {
    if e <= 0 then g.one else g.mul(w, Power(g, w, e - 1))
  }

  /** Sum over j < count of x(r + j*d) * z^j. */
  ghost function Poly<C>(g: Ring<C>, z: C, x: int -> C, r: int, d: int, count: int): C
    decreases count
  {
    if count <= 0 then g.zero
    else g.add(Poly(g, z, x, r, d, count - 1), g.mul(x(r + (count - 1) * d), Power(g, z, count - 1)))
  }

  /** The Fourier sum: x(j) * w^(j*k) over j < count. */
  ghost function Dft<C>(g: Ring<C>, w: C, x: int -> C, count: int, k: int): C
    decreases count
  {
    if count <= 0 then g.zero
    else g.add(Dft(g, w, x, count - 1, k), g.mul(x(count - 1), Power(g, w, (count - 1) * k)))
  }

  lemma {:induction false} PowerAdd<C(!new)>(g: Ring<C>, w: C, a: int, b: int, e: int)
    requires Laws(g) && 0 <= a && 0 <= b && e == a + b
    ensures Power(g, w, e) == g.mul(Power(g, w, a), Power(g, w, b))
    decreases a
  {
    if a > 0 {
      PowerAdd(g, w, a - 1, b, e - 1);
      assert Use(w, Power(g, w, a - 1), Power(g, w, b));
    } else {
      assert Use(g.one, Power(g, w, b), g.one) && Use(Power(g, w, b), g.one, g.one);
    }
  }

  lemma {:induction false} PowerSquare<C(!new)>(g: Ring<C>, z: C, zz: C, j: int, twice: int)
    requires Laws(g) && j >= 0 && zz == g.mul(z, z) && twice == 2 * j
    ensures Power(g, zz, j) == Power(g, z, twice)
    decreases j
  {
    if j > 0 {
      PowerSquare(g, z, zz, j - 1, twice - 2);
      assert Use(z, z, Power(g, z, twice - 2));
      assert Power(g, z, twice) == g.mul(z, Power(g, z, twice - 1));
    }
  }

  lemma ExponentStep(j: int, k: int, e: int)
    requires k >= 0 && j > 0 && e == j * k
    ensures e - k == (j - 1) * k && e >= k
  {
    assert (j - 1) * k >= 0;
  }

  lemma {:induction false} PowerOfPower<C(!new)>(g: Ring<C>, w: C, k: int, j: int, e: int)
    requires Laws(g) && k >= 0 && j >= 0 && e == j * k
    ensures Power(g, Power(g, w, k), j) == Power(g, w, e)
    decreases j
  {
    if j > 0 {
      ExponentStep(j, k, e);
      PowerOfPower(g, w, k, j - 1, e - k);
      PowerAdd(g, w, k, e - k, e);
    }
  }

  /** The Fourier sum is a polynomial in w^k. */
  lemma {:induction false} PolyIsDft<C(!new)>(g: Ring<C>, w: C, x: int -> C, count: int, k: int)
    requires Laws(g) && k >= 0
    ensures Poly(g, Power(g, w, k), x, 0, 1, count) == Dft(g, w, x, count, k)
    decreases count
  {
    if count > 0 {
      PolyIsDft(g, w, x, count - 1, k);
      PowerOfPower(g, w, k, count - 1, (count - 1) * k);
      assert 0 + (count - 1) * 1 == count - 1;
    }
  }

  // The even and the odd index of a pair.
  lemma PairIndices(c: int, d: int, r: int, next: int, wide: int, n: int)
    requires wide == 2 * d && n == 2 * c && next == r + d
    ensures r + n * d == r + c * wide
    ensures r + (n + 1) * d == next + c * wide
  {
  }

  lemma Regroup<C(!new)>(g: Ring<C>, e: C, z: C, o: C, s: C, t: C)
    requires Laws(g)
    ensures g.add(g.add(g.add(e, g.mul(z, o)), s), g.mul(z, t)) == g.add(g.add(e, s), g.mul(z, g.add(o, t)))
  {
    var zo, zt := g.mul(z, o), g.mul(z, t);
    assert Use(e, zo, s) && Use(zo, s, s);
    assert Use(e, s, zo);
    assert Use(g.add(e, s), zo, zt);
    assert Use(z, o, t);
  }

  lemma SwapFactors<C(!new)>(g: Ring<C>, y: C, z: C, p: C)
    requires Laws(g)
    ensures g.mul(y, g.mul(z, p)) == g.mul(z, g.mul(y, p))
  {
    assert Use(y, z, p);
    assert Use(z, y, p);
  }

  lemma PolyStep<C>(g: Ring<C>, z: C, x: int -> C, r: int, d: int, n: int, y: C, p: C)
    requires n >= 0 && y == x(r + n * d) && p == Power(g, z, n)
    ensures Poly(g, z, x, r, d, n + 1) == g.add(Poly(g, z, x, r, d, n), g.mul(y, p))
  {
  }

  // The two terms that one more pair adds.
  lemma PairTerms<C(!new)>(g: Ring<C>, z: C, zz: C, x: int -> C, r: int, next: int, d: int, wide: int, b: int, n: int,
                           y: C, v: C, p: C)
    requires Laws(g) && 0 <= b && n == 2 * b && wide == 2 * d && next == r + d && zz == g.mul(z, z)
    requires y == x(r + b * wide) && v == x(next + b * wide) && p == Power(g, zz, b)
    ensures Poly(g, z, x, r, d, n + 2) == g.add(g.add(Poly(g, z, x, r, d, n), g.mul(y, p)), g.mul(z, g.mul(v, p)))
  {
    PairIndices(b, d, r, next, wide, n);
    PowerSquare(g, z, zz, b, n);
    SwapFactors(g, v, z, p);
    PolyStep(g, z, x, r, d, n, y, p);
    PolyStep(g, z, x, r, d, n + 1, v, g.mul(z, p));
  }

  /** A sum over 2c points is the sum over the even ones plus z times the sum over
      the odd ones, both at z squared. */
  lemma {:induction false} SumOfPairs<C(!new)>(g: Ring<C>, z: C, zz: C, x: int -> C, r: int, next: int, d: int,
                                        wide: int,
                                               c: int, n: int)
    requires Laws(g) && 0 <= c && n == 2 * c && wide == 2 * d && next == r + d && zz == g.mul(z, z)
    ensures Poly(g, z, x, r, d, n) == g.add(Poly(g, zz, x, r, wide, c), g.mul(z, Poly(g, zz, x, next, wide, c)))
    decreases c
  {
    if c > 0 {
      var b := c - 1;
      SumOfPairs(g, z, zz, x, r, next, d, wide, b, n - 2);
      var y, v, p := x(r + b * wide), x(next + b * wide), Power(g, zz, b);
      PairTerms(g, z, zz, x, r, next, d, wide, b, n - 2, y, v, p);
      PolyStep(g, zz, x, r, wide, b, y, p);
      PolyStep(g, zz, x, next, wide, b, v, p);
      Regroup(g, Poly(g, zz, x, r, wide, b), z, Poly(g, zz, x, next, wide, b), g.mul(y, p), g.mul(v, p));
    } else {
      assert Use(z, z, z) && Use(g.zero, z, z);
    }
  }

  // Twiddle t is w^t for every t below half the period.
  ghost predicate Twiddles<C>(g: Ring<C>, tw: int -> C, w: C, h: int) {
    forall t :: 0 <= t < h ==> tw(t) == Power(g, w, t)
  }

  // One level's exponents: of the twiddle, of its square, and of the evaluation point.
  lemma LevelExponents(d: int, wide: int, half: int, count: int, h: int, k: int, j: int, e: int, doubled: int,
                       exponent: int)
    requires 0 < d && wide == 2 * d && count == 2 * half && 2 * h == d * count && 0 <= j < half
    requires k == j || k == j + half
    requires e == j * d && doubled == j * wide && exponent == k * d
    ensures 0 <= e < h && doubled == e + e && exponent == (if k == j then e else e + h)
    ensures 2 * h == wide * half
  {
    assert h == d * half;
    assert (half - j) * d > 0;
    assert (j + half) * d == j * d + half * d;
  }

  /** Half a period on, the power changes sign. */
  lemma HalfTurn<C(!new)>(g: Ring<C>, w: C, e: int, h: int, turned: int)
    requires Laws(g) && 0 <= e && 0 <= h && turned == e + h && Power(g, w, h) == g.neg(g.one)
    ensures Power(g, w, turned) == g.neg(Power(g, w, e))
  {
    PowerAdd(g, w, e, h, turned);
    assert Use(Power(g, w, e), g.one, g.one);
  }

  lemma SquareOfNegative<C(!new)>(g: Ring<C>, z: C)
    requires Laws(g)
    ensures g.mul(g.neg(z), g.neg(z)) == g.mul(z, z)
  {
    assert Use(g.neg(z), z, z);
    assert Use(z, z, z);
    assert Use(g.mul(z, z), z, z);
  }

  // The evaluation point of output k and its square, from those of output j below half.
  lemma EvaluationPoint<C(!new)>(g: Ring<C>, w: C, h: int, e: int, turned: bool, a: C, z: C, exponent: int,
                          doubled: int)
    requires Laws(g) && 0 <= e && 0 <= h && a == Power(g, w, e) && doubled == e + e
    requires turned ==> Power(g, w, h) == g.neg(g.one)
    requires exponent == (if turned then e + h else e) && z == Power(g, w, exponent)
    ensures z == if turned then g.neg(a) else a
    ensures g.mul(z, z) == Power(g, w, doubled)
  {
    PowerAdd(g, w, e, e, doubled);
    SquareOfNegative(g, a);
    if turned {
      HalfTurn(g, w, e, h, exponent);
    }
  }

  lemma ExactStep<T(!new)>(ar: Arith<T>, g: Ring<Complex<T>>, tw: int -> Complex<T>, x: int -> Complex<T>,
                           r: int, next: int, d: int, m: int, k: int, half: int, wide: int,
                           j: int, a: Complex<T>, e: Complex<T>, o: Complex<T>)
    requires Computes(ar, g) && 0 < m && half == Pow2(m - 1) && wide == 2 * d && next == r + d
    requires j == (if k < half then k else k - half) && a == tw(j * d)
    requires e == Transform(ar, tw, x, r, wide, m - 1, j)
    requires o == Transform(ar, tw, x, next, wide, m - 1, j)
    ensures Transform(ar, tw, x, r, d, m, k) == g.add(e, g.mul(if k < half then a else g.neg(a), o))
  {
    assert Sum(ar, e, a, o) == g.add(e, g.mul(a, o));
    assert Difference(ar, e, a, o) == g.add(e, g.mul(g.neg(a), o));
  }

  lemma SinglePoint<C(!new)>(g: Ring<C>, z: C, x: int -> C, r: int, d: int)
    requires Laws(g)
    ensures Poly(g, z, x, r, d, 1) == x(r)
  {
    assert Use(x(r), g.zero, g.zero) && Use(g.zero, x(r), x(r));
    assert Poly(g, z, x, r, d, 1) == g.add(g.zero, g.mul(x(r + 0 * d), Power(g, z, 0)));
  }

  /** Point k of the recursive transform is the sum at z = w^(k*d), for every number
      of levels: tw(t) = w^t, and w^h = -1 at half the number of points. */
  lemma {:induction false} TransformIsPoly<T(!new)>(ar: Arith<T>, g: Ring<Complex<T>>, tw: int -> Complex<T>,
                                             w: Complex<T>,
                                                    x: int -> Complex<T>, r: int, d: int, m: int, k: int, h: int,
                                                    count: int, z: Complex<T>, exponent: int)
    requires Computes(ar, g)
    requires 0 < d && 0 <= m && count == Pow2(m) && 0 <= k < count && 0 <= h
    requires exponent == k * d && z == Power(g, w, exponent)
    requires m > 0 ==> 2 * h == d * count && Power(g, w, h) == g.neg(g.one)
    requires Twiddles(g, tw, w, h)
    ensures Transform(ar, tw, x, r, d, m, k) == Poly(g, z, x, r, d, count)
    decreases m
  {
    if m == 0 {
      SinglePoint(g, z, x, r, d);
    } else {
      var half, wide, next := Pow2(m - 1), 2 * d, r + d;
      var j := if k < half then k else k - half;
      var e, doubled := j * d, j * wide;
      LevelExponents(d, wide, half, count, h, k, j, e, doubled, exponent);
      var a, zz := Power(g, w, e), Power(g, w, doubled);
      TransformIsPoly(ar, g, tw, w, x, r, wide, m - 1, j, h, half, zz, doubled);
      TransformIsPoly(ar, g, tw, w, x, next, wide, m - 1, j, h, half, zz, doubled);
      JoinHalves(ar, g, tw, w, x, r, next, d, m, k, half, wide, j, h, e, doubled, exponent, a, zz, z);
    }
  }

  lemma JoinHalves<T(!new)>(ar: Arith<T>, g: Ring<Complex<T>>, tw: int -> Complex<T>, w: Complex<T>,
                     x: int -> Complex<T>,
                            r: int, next: int, d: int, m: int, k: int, half: int, wide: int, j: int, h: int,
                            e: int, doubled: int, exponent: int, a: Complex<T>, zz: Complex<T>, z: Complex<T>)
    requires Computes(ar, g) && Twiddles(g, tw, w, h) && Power(g, w, h) == g.neg(g.one)
    requires 0 < m && half == Pow2(m - 1) && wide == 2 * d && next == r + d
    requires j == (if k < half then k else k - half) && e == j * d && 0 <= e < h && doubled == e + e
    requires exponent == if k < half then e else e + h
    requires a == Power(g, w, e) && zz == Power(g, w, doubled) && z == Power(g, w, exponent)
    requires Transform(ar, tw, x, r, wide, m - 1, j) == Poly(g, zz, x, r, wide, half)
    requires Transform(ar, tw, x, next, wide, m - 1, j) == Poly(g, zz, x, next, wide, half)
    ensures Transform(ar, tw, x, r, d, m, k) == Poly(g, z, x, r, d, 2 * half)
  {
    assert tw(e) == a;
    ExactStep(ar, g, tw, x, r, next, d, m, k, half, wide, j, a,
              Poly(g, zz, x, r, wide, half), Poly(g, zz, x, next, wide, half));
    EvaluationPoint(g, w, h, e, k >= half, a, z, exponent, doubled);
    SumOfPairs(g, z, zz, x, r, next, d, wide, half, 2 * half);
  }

  /** The recursive transform of 2^m points is their Fourier transform, in every
      commutative ring that has a root w of order 2^m with w^(2^(m-1)) = -1. */
  lemma TransformIsDft<T(!new)>(ar: Arith<T>, g: Ring<Complex<T>>, tw: int -> Complex<T>, w: Complex<T>,
                                x: int -> Complex<T>, m: int, k: int, h: int)
    requires Computes(ar, g) && 0 <= m && 0 <= k < Pow2(m) && 0 <= h
    requires m > 0 ==> h == Pow2(m - 1) && Power(g, w, h) == g.neg(g.one)
    requires Twiddles(g, tw, w, h)
    ensures Transform(ar, tw, x, 0, 1, m, k) == Dft(g, w, x, Pow2(m), k)
  {
    TransformIsPoly(ar, g, tw, w, x, 0, 1, m, k, h, Pow2(m), Power(g, w, k), k);
    PolyIsDft(g, w, x, Pow2(m), k);
  }

  // Pairs of reals with the usual operations.
  function RealParts(): Arith<real> {
    Arith((a: real, b: real) => a + b, (a: real, b: real) => a - b, (a: real, b: real) => a * b)
  }

  function ComplexNumbers(): Ring<Complex<real>> {
    Ring((a: Complex<real>, b: Complex<real>) => Complex(a.re + b.re, a.im + b.im),
         (a: Complex<real>, b: Complex<real>) => Complex(a.re * b.re - a.im * b.im, a.re * b.im + a.im * b.re),
         (a: Complex<real>) => Complex(-a.re, -a.im),
         Complex(0.0, 0.0), Complex(1.0, 0.0))
  }

  lemma TimesSum(a: real, b: real, c: real)
    ensures a * (b + c) == a * b + a * c && (b + c) * a == b * a + c * a
    ensures a * (b - c) == a * b - a * c && (b - c) * a == b * a - c * a
  {
  }

  lemma ProductAssociates(a: Complex<real>, b: Complex<real>, c: Complex<real>)
    ensures var g := ComplexNumbers(); g.mul(g.mul(a, b), c) == g.mul(a, g.mul(b, c))
  {
    var g := ComplexNumbers();
    var l, r := g.mul(g.mul(a, b), c), g.mul(a, g.mul(b, c));
    assert l.re == r.re by {
      TimesSum(c.re, a.re * b.re, a.im * b.im);
      TimesSum(c.im, a.re * b.im, a.im * b.re);
      TimesSum(a.re, b.re * c.re, b.im * c.im);
      TimesSum(a.im, b.re * c.im, b.im * c.re);
    }
    assert l.im == r.im by {
      TimesSum(c.im, a.re * b.re, a.im * b.im);
      TimesSum(c.re, a.re * b.im, a.im * b.re);
      TimesSum(a.re, b.re * c.im, b.im * c.re);
      TimesSum(a.im, b.re * c.re, b.im * c.im);
    }
  }

  lemma ProductDistributes(a: Complex<real>, b: Complex<real>, c: Complex<real>)
    ensures var g := ComplexNumbers(); g.mul(a, g.add(b, c)) == g.add(g.mul(a, b), g.mul(a, c))
  {
    var g := ComplexNumbers();
    var l, r := g.mul(a, g.add(b, c)), g.add(g.mul(a, b), g.mul(a, c));
    assert l.re == r.re;
    assert l.im == r.im;
  }

  lemma ProductUnits(a: Complex<real>, b: Complex<real>)
    ensures var g := ComplexNumbers();
      && g.mul(a, b) == g.mul(b, a) && g.mul(a, g.one) == a && g.mul(a, g.zero) == g.zero
      && g.mul(a, g.neg(b)) == g.neg(g.mul(a, b))
  {
    var g := ComplexNumbers();
    assert g.mul(a, b).re == g.mul(b, a).re && g.mul(a, b).im == g.mul(b, a).im;
    assert g.mul(a, g.one).re == a.re && g.mul(a, g.one).im == a.im;
    assert g.mul(a, g.zero).re == 0.0 && g.mul(a, g.zero).im == 0.0;
    assert g.mul(a, g.neg(b)).re == -g.mul(a, b).re && g.mul(a, g.neg(b)).im == -g.mul(a, b).im;
  }

  lemma SumLaws(a: Complex<real>, b: Complex<real>, c: Complex<real>)
    ensures var g := ComplexNumbers();
      && g.add(g.add(a, b), c) == g.add(a, g.add(b, c)) && g.add(a, b) == g.add(b, a)
      && g.add(a, g.zero) == a && g.add(a, g.neg(a)) == g.zero && g.neg(g.neg(a)) == a
  {
  }

  lemma ComplexLaws(a: Complex<real>, b: Complex<real>, c: Complex<real>)
    ensures LawsFor(ComplexNumbers(), a, b, c)
  {
    SumLaws(a, b, c);
    ProductAssociates(a, b, c);
    ProductDistributes(a, b, c);
    ProductUnits(a, b);
  }

  lemma ButterflyParts(e: Complex<real>, a: Complex<real>, o: Complex<real>)
    ensures Sum(RealParts(), e, a, o) == ComplexNumbers().add(e, ComplexNumbers().mul(a, o))
    ensures Difference(RealParts(), e, a, o)
         == ComplexNumbers().add(e, ComplexNumbers().mul(ComplexNumbers().neg(a), o))
  {
    var g, ar := ComplexNumbers(), RealParts();
    var t, p, q := Times(ar, a, o), g.mul(a, o), g.mul(g.neg(a), o);
    assert t.re == p.re && t.im == p.im;
    assert q.re == -t.re && q.im == -t.im;
    var s, f := Sum(ar, e, a, o), Difference(ar, e, a, o);
    assert s.re == g.add(e, p).re && s.im == g.add(e, p).im;
    assert f.re == g.add(e, q).re && f.im == g.add(e, q).im;
  }

  /** Exact real arithmetic on the two parts is such a ring. */
  lemma RealPartsCompute()
    ensures Computes(RealParts(), ComplexNumbers())
  {
    forall a, b, c | Use(a, b, c) ensures LawsFor(ComplexNumbers(), a, b, c) {
      ComplexLaws(a, b, c);
    }
    forall e, a, o
      ensures Sum(RealParts(), e, a, o) == ComplexNumbers().add(e, ComplexNumbers().mul(a, o))
      ensures Difference(RealParts(), e, a, o)
           == ComplexNumbers().add(e, ComplexNumbers().mul(ComplexNumbers().neg(a), o))
    {
      ButterflyParts(e, a, o);
    }
  }

  /** The in-place loops, in exact arithmetic, leave the Fourier sums of their input. */
  method ExactFft<T(!new)>(ar: Arith<T>, re: array<T>, im: array<T>, twRe: seq<T>, twIm: seq<T>,
                     ghost g: Ring<Complex<T>>, ghost w: Complex<T>)
    requires re != im && re.Length == im.Length && PowerOfTwo(re.Length)
    requires re.Length / 2 <= |twRe| && re.Length / 2 <= |twIm|
    requires Computes(ar, g)
    requires forall t :: 0 <= t < re.Length / 2 ==> Complex(twRe[t], twIm[t]) == Power(g, w, t)
    requires re.Length > 1 ==> Power(g, w, re.Length / 2) == g.neg(g.one)
    modifies re, im
    ensures forall k :: 0 <= k < re.Length ==>
      Values(re, im)[k] == Dft(g, w, Points(old(Values(re, im))), re.Length, k)
  {
    ghost var x := Points(Values(re, im));
    ghost var tw := (t: int) => Power(g, w, t);
    ghost var width, h := BitLength(re.Length) - 1, re.Length / 2;
    Fft(ar, re, im, twRe, twIm, tw);
    forall k | 0 <= k < re.Length ensures Values(re, im)[k] == Dft(g, w, x, re.Length, k) {
      TransformIsDft(ar, g, tw, w, x, width, k, h);
    }
  }
}
