/** The transform the vector generator refers to: bit reversal, and the recursive
    even/odd transform over any arithmetic whatever. */
module FftSpec {

  // Addition, subtraction and multiplication, with no law assumed of them:
  // binary32 with rounding is one instance, the reals another.
  datatype Arith<!T> = Arith(add: (T, T) -> T, sub: (T, T) -> T, mul: (T, T) -> T)

  datatype Complex<T> = Complex(re: T, im: T)

  function Pow2(k: int): (p: int)
    ensures p >= 1
    decreases k
  {
    if k <= 0 then 1 else 2 * Pow2(k - 1)
  }

  /** The lowest `width` bits of index in opposite order. */
  function Reverse(index: int, width: int): (r: int)
    ensures 0 <= r < Pow2(width)
    decreases width
  {
    if width <= 0 then 0
    else (if index % 2 == 1 then Pow2(width - 1) else 0) + Reverse(index / 2, width - 1)
  }

  // Reversal moves the top bit to the bottom.
  lemma {:induction false} ReverseTop(low: int, top: bool, width: int)
    requires width >= 1 && 0 <= low < Pow2(width - 1)
    ensures Reverse(low + (if top then Pow2(width - 1) else 0), width)
         == 2 * Reverse(low, width - 1) + (if top then 1 else 0)
    decreases width
  {
    var index := low + (if top then Pow2(width - 1) else 0);
    if width > 1 {
      assert Pow2(width - 1) == 2 * Pow2(width - 2);
      assert index % 2 == low % 2;
      assert index / 2 == low / 2 + (if top then Pow2(width - 2) else 0);
      ReverseTop(low / 2, top, width - 1);
    } else {
      assert low == 0;
      assert Reverse(index / 2, 0) == 0;
    }
  }

  /** `reverse_bits` undoes itself. */
  lemma {:induction false} ReverseInvolution(index: int, width: int)
    requires 0 <= index < Pow2(width)
    ensures Reverse(Reverse(index, width), width) == index
    decreases width
  {
    if width > 0 {
      ReverseInvolution(index / 2, width - 1);
      ReverseTop(Reverse(index / 2, width - 1), index % 2 == 1, width);
    }
  }

  lemma ReverseSteps(b: int, c: int)
    requires c >= 0
    ensures Reverse(2 * b, c + 1) == Reverse(b, c)
    ensures Reverse(2 * b + 1, c + 1) == Reverse(b, c) + Pow2(c)
  {
    assert (2 * b) / 2 == b && (2 * b + 1) / 2 == b;
  }

  function Times<T>(ar: Arith<T>, a: Complex<T>, z: Complex<T>): Complex<T> {
    Complex(ar.sub(ar.mul(a.re, z.re), ar.mul(a.im, z.im)),
            ar.add(ar.mul(a.re, z.im), ar.mul(a.im, z.re)))
  }

  // The two outputs of a butterfly with inputs e and o and twiddle a.
  function Sum<T>(ar: Arith<T>, e: Complex<T>, a: Complex<T>, o: Complex<T>): Complex<T> {
    var t := Times(ar, a, o);
    Complex(ar.add(e.re, t.re), ar.add(e.im, t.im))
  }

  function Difference<T>(ar: Arith<T>, e: Complex<T>, a: Complex<T>, o: Complex<T>): Complex<T> {
    var t := Times(ar, a, o);
    Complex(ar.sub(e.re, t.re), ar.sub(e.im, t.im))
  }

  /** Point k of the recursive transform of the 2^m points x(r), x(r+d), x(r+2d), ...:
      the transforms of the even and of the odd points, joined by one butterfly. */
  function Transform<T>(ar: Arith<T>, tw: int -> Complex<T>, x: int -> Complex<T>, r: int, d: int, m: int, k: int)
    : Complex<T>
    decreases m
  {
    if m <= 0 then x(r)
    else
      var half := Pow2(m - 1);
      var j := if k < half then k else k - half;
      var e := Transform(ar, tw, x, r, 2 * d, m - 1, j);
      var o := Transform(ar, tw, x, r + d, 2 * d, m - 1, j);
      if k < half then Sum(ar, e, tw(j * d), o) else Difference(ar, e, tw(j * d), o)
  }

  /** What position i holds after m stages, when 2^c blocks remain: its block number,
      reversed, says which points the block transforms. */
  function Target<T>(ar: Arith<T>, tw: int -> Complex<T>, x: int -> Complex<T>, c: int, m: int, i: int): Complex<T> {
    Transform(ar, tw, x, Reverse(i / Pow2(m), c), Pow2(c), m, i % Pow2(m))
  }

  lemma DivisionIs(i: int, q: int, rest: int, d: int)
    requires d > 0 && i == q * d + rest && 0 <= rest < d
    ensures i / d == q && i % d == rest
  {
    var gap := i / d - q;
    assert gap * d + i % d == rest;
    assert gap >= 1 ==> (gap - 1) * d >= 0;
    assert gap <= -1 ==> (-1 - gap) * d >= 0;
  }

  lemma TargetIs<T>(ar: Arith<T>, tw: int -> Complex<T>, x: int -> Complex<T>, c: int, m: int, i: int,
                    b: int, k: int, size: int)
    requires size == Pow2(m) && i == b * size + k && 0 <= k < size
    ensures Target(ar, tw, x, c, m, i) == Transform(ar, tw, x, Reverse(b, c), Pow2(c), m, k)
  {
    DivisionIs(i, b, k, size);
  }

  lemma TransformStep<T>(ar: Arith<T>, tw: int -> Complex<T>, x: int -> Complex<T>, r: int, d: int, m: int,
                         k: int, half: int, wide: int)
    requires m >= 0 && half == Pow2(m) && 0 <= k < half && wide == 2 * d
    ensures var e, o := Transform(ar, tw, x, r, wide, m, k), Transform(ar, tw, x, r + d, wide, m, k);
      && Transform(ar, tw, x, r, d, m + 1, k) == Sum(ar, e, tw(k * d), o)
      && Transform(ar, tw, x, r, d, m + 1, k + half) == Difference(ar, e, tw(k * d), o)
  {
  }

  // Positions of block b among blocks of half and of full size.
  lemma BlockPositions(b: int, k: int, half: int, even: int, size: int)
    requires size == 2 * half && even == b * size + k
    ensures even == (2 * b) * half + k
    ensures even + half == (2 * b + 1) * half + k
    ensures even + half == b * size + (k + half)
  {
  }

  /** One butterfly takes two positions of block b from one stage to the next. */
  lemma TargetStep<T>(ar: Arith<T>, tw: int -> Complex<T>, x: int -> Complex<T>, c: int, m: int,
                      b: int, k: int, half: int, size: int, step: int, even: int, odd: int)
    requires c >= 0 && m >= 0 && half == Pow2(m) && size == 2 * half && step == Pow2(c)
    requires 0 <= k < half && even == b * size + k && odd == even + half
    ensures var e, o := Target(ar, tw, x, c + 1, m, even), Target(ar, tw, x, c + 1, m, odd);
      && Target(ar, tw, x, c, m + 1, even) == Sum(ar, e, tw(k * step), o)
      && Target(ar, tw, x, c, m + 1, odd) == Difference(ar, e, tw(k * step), o)
  {
    BlockPositions(b, k, half, even, size);
    var r := Reverse(b, c);
    var e, o := Transform(ar, tw, x, r, 2 * step, m, k), Transform(ar, tw, x, r + step, 2 * step, m, k);
    ReverseSteps(b, c);
    assert Target(ar, tw, x, c + 1, m, even) == e by {
      TargetIs(ar, tw, x, c + 1, m, even, 2 * b, k, half);
    }
    assert Target(ar, tw, x, c + 1, m, odd) == o by {
      TargetIs(ar, tw, x, c + 1, m, odd, 2 * b + 1, k, half);
    }
    TransformStep(ar, tw, x, r, step, m, k, half, 2 * step);
    assert Target(ar, tw, x, c, m + 1, even) == Sum(ar, e, tw(k * step), o) by {
      TargetIs(ar, tw, x, c, m + 1, even, b, k, size);
    }
    assert Target(ar, tw, x, c, m + 1, odd) == Difference(ar, e, tw(k * step), o) by {
      TargetIs(ar, tw, x, c, m + 1, odd, b, k + half, size);
    }
  }

  /** Before the first stage a position holds the point with the reversed index. */
  lemma FirstTarget<T>(ar: Arith<T>, tw: int -> Complex<T>, x: int -> Complex<T>, c: int, i: int)
    ensures Target(ar, tw, x, c, 0, i) == x(Reverse(i, c))
  {
    TargetIs(ar, tw, x, c, 0, i, i, 0, 1);
  }

  /** After the last stage it holds that point of the whole transform. */
  lemma LastTarget<T>(ar: Arith<T>, tw: int -> Complex<T>, x: int -> Complex<T>, m: int, i: int)
    requires 0 <= i < Pow2(m)
    ensures Target(ar, tw, x, 0, m, i) == Transform(ar, tw, x, 0, 1, m, i)
  {
    TargetIs(ar, tw, x, 0, m, i, 0, i, Pow2(m));
  }
}
