/** The transform over arithmetic in which every operation is kept: which operations are
    carried out, on what and in which order, down to the last rounding. */
module FftTerms {
  import opened FftSpec
  import opened FftLoops

  // An expression that has not been evaluated; leaves are the inputs and the twiddles.
  datatype Term = Leaf(name: int) | Plus(left: Term, right: Term) | Minus(left: Term, right: Term)
                | Product(left: Term, right: Term)

  // Arithmetic that evaluates nothing.
  ghost predicate Keeps(free: Arith<Term>) {
    forall a, b ::
      free.add(a, b) == Plus(a, b) && free.sub(a, b) == Minus(a, b) && free.mul(a, b) == Product(a, b)
  }

  function Free(): (free: Arith<Term>)
    ensures Keeps(free)
  {
    Arith((a: Term, b: Term) => Plus(a, b), (a: Term, b: Term) => Minus(a, b), (a: Term, b: Term) => Product(a, b))
  }

  // The two parts of the twiddle times the odd value.
  function ReOf(a: Complex<Term>, o: Complex<Term>): Term {
    Minus(Product(a.re, o.re), Product(a.im, o.im))
  }

  function ImOf(a: Complex<Term>, o: Complex<Term>): Term {
    Plus(Product(a.re, o.im), Product(a.im, o.re))
  }

  lemma FreeButterfly(free: Arith<Term>, e: Complex<Term>, a: Complex<Term>, o: Complex<Term>)
    requires Keeps(free)
    ensures Sum(free, e, a, o) == Complex(Plus(e.re, ReOf(a, o)), Plus(e.im, ImOf(a, o)))
    ensures Difference(free, e, a, o) == Complex(Minus(e.re, ReOf(a, o)), Minus(e.im, ImOf(a, o)))
  {
    assert Times(free, a, o) == Complex(ReOf(a, o), ImOf(a, o));
  }

  /** Each butterfly multiplies first, subtracts and adds the products, and only then adds
      the result to the even value or subtracts it; the products have the twiddle on the left. */
  lemma Joined(free: Arith<Term>, tw: int -> Complex<Term>, x: int -> Complex<Term>,
               r: int, d: int, m: nat, k: int, half: int)
    requires Keeps(free) && half == Pow2(m) && 0 <= k < half
    ensures var e, o := Transform(free, tw, x, r, 2 * d, m, k), Transform(free, tw, x, r + d, 2 * d, m, k);
      var a := tw(k * d);
      var re := Minus(Product(a.re, o.re), Product(a.im, o.im));
      var im := Plus(Product(a.re, o.im), Product(a.im, o.re));
      && Transform(free, tw, x, r, d, m + 1, k) == Complex(Plus(e.re, re), Plus(e.im, im))
      && Transform(free, tw, x, r, d, m + 1, k + half) == Complex(Minus(e.re, re), Minus(e.im, im))
  {
    var e, o := Transform(free, tw, x, r, 2 * d, m, k), Transform(free, tw, x, r + d, 2 * d, m, k);
    TransformStep(free, tw, x, r, d, m, k, half, 2 * d);
    FreeButterfly(free, e, tw(k * d), o);
  }

  lemma TwoPointTransform(free: Arith<Term>, tw: int -> Complex<Term>, x: int -> Complex<Term>, m: nat, one: nat)
    requires Keeps(free) && m == 0 && one == m + 1
    ensures Transform(free, tw, x, 0, 1, one, 0)
         == Complex(Plus(x(0).re, ReOf(tw(0), x(1))), Plus(x(0).im, ImOf(tw(0), x(1))))
    ensures Transform(free, tw, x, 0, 1, one, 1)
         == Complex(Minus(x(0).re, ReOf(tw(0), x(1))), Minus(x(0).im, ImOf(tw(0), x(1))))
  {
    PointTransform(free, tw, x, 0, m);
    PointTransform(free, tw, x, 1, m);
    Joined(free, tw, x, 0, 1, m, 0, 1);
  }

  lemma PointTransform(free: Arith<Term>, tw: int -> Complex<Term>, x: int -> Complex<Term>, r: int, m: nat)
    requires m == 0
    ensures Transform(free, tw, x, r, 2, m, 0) == x(r)
  {
  }

  // The last butterfly of point k of 2^(m + 1), with the operations written out.
  ghost predicate LastButterfly(free: Arith<Term>, tw: int -> Complex<Term>, x: int -> Complex<Term>, m: int,
                                k: int, low: Complex<Term>, high: Complex<Term>)
  {
    var e, o, a := Transform(free, tw, x, 0, 2, m, k), Transform(free, tw, x, 1, 2, m, k), tw(k);
    && low.re == Plus(e.re, Minus(Product(a.re, o.re), Product(a.im, o.im)))
    && low.im == Plus(e.im, Plus(Product(a.re, o.im), Product(a.im, o.re)))
    && high.re == Minus(e.re, Minus(Product(a.re, o.re), Product(a.im, o.im)))
    && high.im == Minus(e.im, Plus(Product(a.re, o.im), Product(a.im, o.re)))
  }

  lemma LastIs(free: Arith<Term>, tw: int -> Complex<Term>, x: int -> Complex<Term>, m: nat, k: int, half: int,
               next: int, low: Complex<Term>, high: Complex<Term>)
    requires Keeps(free) && half == Pow2(m) && 0 <= k < half && next == m + 1
    requires low == Transform(free, tw, x, 0, 1, next, k) && high == Transform(free, tw, x, 0, 1, next, k + half)
    ensures LastButterfly(free, tw, x, m, k, low, high)
  {
    Joined(free, tw, x, 0, 1, m, k, half);
    assert k * 1 == k && 0 + 1 == 1;
  }

  lemma HalfOf(length: nat, n: int)
    requires PowerOfTwo(length) && length > 1 && n == BitLength(length) - 1
    ensures n >= 1 && length / 2 == Pow2(n - 1) && length == 2 * Pow2(n - 1)
  {
    assert n <= 0 ==> Pow2(n) == 1;
  }

  // Every output is made by the last butterfly of its two half transforms.
  ghost predicate Made(free: Arith<Term>, tw: int -> Complex<Term>, x: int -> Complex<Term>, m: int, half: int,
                       v: seq<Complex<Term>>)
  {
    && |v| == 2 * half
    && forall k {:trigger v[k]} :: 0 <= k < half ==> LastButterfly(free, tw, x, m, k, v[k], v[k + half])
  }

  lemma MadeIs(free: Arith<Term>, tw: int -> Complex<Term>, x: int -> Complex<Term>, m: nat, half: int, next: int,
               v: seq<Complex<Term>>)
    requires Keeps(free) && half == Pow2(m) && next == m + 1 && |v| == 2 * half
    requires forall k :: 0 <= k < |v| ==> v[k] == Transform(free, tw, x, 0, 1, next, k)
    ensures Made(free, tw, x, m, half, v)
  {
    forall k | 0 <= k < half ensures LastButterfly(free, tw, x, m, k, v[k], v[k + half]) {
      LastIs(free, tw, x, m, k, half, next, v[k], v[k + half]);
    }
  }

  /** The code over terms, for any power of two of points: every output is made of the two
      half transforms by the operations of one butterfly, in the order of the source. */
  method FftOfTerms(free: Arith<Term>, re: array<Term>, im: array<Term>, twRe: seq<Term>, twIm: seq<Term>,
                    ghost tw: int -> Complex<Term>)
    requires Keeps(free) && re != im && re.Length == im.Length && PowerOfTwo(re.Length) && re.Length > 1
    requires re.Length / 2 <= |twRe| && re.Length / 2 <= |twIm|
    requires forall t :: 0 <= t < re.Length / 2 ==> tw(t) == Complex(twRe[t], twIm[t])
    modifies re, im
    ensures Made(free, tw, Points(old(Values(re, im))), BitLength(re.Length) - 2, re.Length / 2, Values(re, im))
  {
    ghost var x, n := Points(Values(re, im)), BitLength(re.Length) - 1;
    Fft(free, re, im, twRe, twIm, tw);
    HalfOf(re.Length, n);
    MadeIs(free, tw, x, n - 1, re.Length / 2, n, Values(re, im));
  }

  // What the ten operations of one butterfly make of two values.
  ghost predicate Paired(a: Complex<Term>, b: Complex<Term>, w: Complex<Term>, low: Complex<Term>, high: Complex<Term>)
  {
    && low.re == Plus(a.re, Minus(Product(w.re, b.re), Product(w.im, b.im)))
    && low.im == Plus(a.im, Plus(Product(w.re, b.im), Product(w.im, b.re)))
    && high.re == Minus(a.re, Minus(Product(w.re, b.re), Product(w.im, b.im)))
    && high.im == Minus(a.im, Plus(Product(w.re, b.im), Product(w.im, b.re)))
  }

  lemma PairIs(free: Arith<Term>, tw: int -> Complex<Term>, x: int -> Complex<Term>, m: nat, one: nat,
               v: seq<Complex<Term>>)
    requires Keeps(free) && m == 0 && one == m + 1 && |v| == 2
    requires forall k :: 0 <= k < |v| ==> v[k] == Transform(free, tw, x, 0, 1, one, k)
    ensures Paired(x(0), x(1), tw(0), v[0], v[1])
  {
    TwoPointTransform(free, tw, x, m, one);
  }

  lemma TwoIsPower(length: nat)
    requires length == 2
    ensures PowerOfTwo(length) && BitLength(length) == 2
  {
    assert Pow2(1) == 2;
  }

  /** Two points, in place: the ten operations of one butterfly as they stand. */
  method TwoPoints(free: Arith<Term>, re: array<Term>, im: array<Term>, twRe: seq<Term>, twIm: seq<Term>)
    requires Keeps(free) && re != im && re.Length == im.Length == 2 && |twRe| == |twIm| == 1
    modifies re, im
    ensures var a, b, c, d := old(re[0]), old(im[0]), old(re[1]), old(im[1]);
      && re[0] == Plus(a, Minus(Product(twRe[0], c), Product(twIm[0], d)))
      && im[0] == Plus(b, Plus(Product(twRe[0], d), Product(twIm[0], c)))
      && re[1] == Minus(a, Minus(Product(twRe[0], c), Product(twIm[0], d)))
      && im[1] == Minus(b, Plus(Product(twRe[0], d), Product(twIm[0], c)))
  {
    ghost var start, zero, one := Values(re, im), 0, BitLength(re.Length) - 1;
    ghost var x, tw := Points(start), (t: int) => Complex(twRe[0], twIm[0]);
    TwoIsPower(re.Length);
    Fft(free, re, im, twRe, twIm, tw);
    PairIs(free, tw, x, zero, one, Values(re, im));
    assert Paired(start[0], start[1], tw(0), Values(re, im)[0], Values(re, im)[1]);
  }
}
