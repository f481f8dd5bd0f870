/** The in-place transform over separate real and imaginary arrays. */
module FftLoops {
  import opened FftSpec

  method ReverseBits(index: int, log2Points: int) returns (result: int)
    requires 0 <= log2Points
    ensures result == Reverse(index, log2Points)
  {
    result := 0;
    var rest := index;
    for done := 0 to log2Points
      invariant result * Pow2(log2Points - done) + Reverse(rest, log2Points - done) == Reverse(index, log2Points)
    {
      ReverseDigit(result, rest, log2Points - done - 1, Pow2(log2Points - done - 1));
      result := 2 * result + rest % 2;
      rest := rest / 2;
    }
  }

  lemma ReverseDigit(result: int, rest: int, width: int, p: int)
    requires width >= 0 && p == Pow2(width)
    ensures result * Pow2(width + 1) + Reverse(rest, width + 1)
         == (2 * result + rest % 2) * p + Reverse(rest / 2, width)
  {
    assert Pow2(width + 1) == 2 * p;
    assert (2 * result + rest % 2) * p == result * (2 * p) + (rest % 2) * p;
  }

  /** The two arrays read as one sequence of complex values. */
  ghost function Values<T>(re: array<T>, im: array<T>): (v: seq<Complex<T>>)
    requires re.Length == im.Length
    reads re, im
    ensures |v| == re.Length
    ensures forall i :: 0 <= i < |v| ==> v[i] == Complex(re[i], im[i])
  {
    seq(re.Length, i requires 0 <= i < re.Length reads re, im requires re.Length == im.Length =>
      Complex(re[i], im[i]))
  }

  ghost predicate Holds<T>(re: array<T>, im: array<T>, f: int -> Complex<T>)
    requires re.Length == im.Length
    reads re, im
  {
    forall i :: 0 <= i < re.Length ==> re[i] == f(i).re && im[i] == f(i).im
  }

  /** Every element moves to the index with its bits reversed. */
  method Permute<T>(re: array<T>, im: array<T>, log2Points: int, ghost x: int -> Complex<T>)
    requires re != im && re.Length == im.Length == Pow2(log2Points) && 0 <= log2Points && Holds(re, im, x)
    modifies re, im
    ensures forall i :: 0 <= i < re.Length ==>
      re[i] == x(Reverse(i, log2Points)).re && im[i] == x(Reverse(i, log2Points)).im
  {
    for index := 0 to re.Length
      invariant forall j :: 0 <= j < re.Length ==>
        var source := if j < index || Reverse(j, log2Points) < index then Reverse(j, log2Points) else j;
        re[j] == x(source).re && im[j] == x(source).im
    {
      var reversed := ReverseBits(index, log2Points);
      forall j | 0 <= j < re.Length
        ensures Reverse(Reverse(j, log2Points), log2Points) == j
      {
        ReverseInvolution(j, log2Points);
      }
      if reversed > index {
        re[index], re[reversed] := re[reversed], re[index];
        im[index], im[reversed] := im[reversed], im[index];
      }
    }
  }

  /** One butterfly, in place. */
  method Butterfly<T>(ar: Arith<T>, re: array<T>, im: array<T>, twRe: T, twIm: T, even: int, odd: int)
    requires re != im && re.Length == im.Length && 0 <= even < odd < re.Length
    modifies re, im
    ensures forall i :: 0 <= i < re.Length && i != even && i != odd ==>
      re[i] == old(re[i]) && im[i] == old(im[i])
    ensures var e, o := old(Complex(re[even], im[even])), old(Complex(re[odd], im[odd]));
      && Complex(re[even], im[even]) == Sum(ar, e, Complex(twRe, twIm), o)
      && Complex(re[odd], im[odd]) == Difference(ar, e, Complex(twRe, twIm), o)
  {
    var productRr := ar.mul(twRe, re[odd]);
    var productIi := ar.mul(twIm, im[odd]);
    var productRi := ar.mul(twRe, im[odd]);
    var productIr := ar.mul(twIm, re[odd]);
    var tempRe := ar.sub(productRr, productIi);
    var tempIm := ar.add(productRi, productIr);
    var oldRe := re[even];
    var oldIm := im[even];
    re[even] := ar.add(oldRe, tempRe);
    im[even] := ar.add(oldIm, tempIm);
    re[odd] := ar.sub(oldRe, tempRe);
    im[odd] := ar.sub(oldIm, tempIm);
  }

  // One butterfly takes two positions from one table to the next.
  ghost predicate Linked<T>(ar: Arith<T>, from: int -> Complex<T>, to: int -> Complex<T>,
                            even: int, odd: int, a: Complex<T>)
  {
    to(even) == Sum(ar, from(even), a, from(odd)) && to(odd) == Difference(ar, from(even), a, from(odd))
  }

  ghost predicate BlockLinked<T>(ar: Arith<T>, a: int -> Complex<T>, from: int -> Complex<T>, to: int -> Complex<T>,
                                 base: int, half: int)
  {
    forall k, even, odd :: 0 <= k < half && even == base + k && odd == even + half ==>
      Linked(ar, from, to, even, odd, a(k))
  }

  // The twiddles of one stage: a(k), stored `step` apart.
  ghost predicate Stored<T>(a: int -> Complex<T>, twRe: seq<T>, twIm: seq<T>, half: int, step: int) {
    forall k :: 0 <= k < half ==>
      0 <= k * step < |twRe| && k * step < |twIm| && a(k) == Complex(twRe[k * step], twIm[k * step])
  }

  // Position i has been through its butterfly when the loop stands at base and offset.
  predicate Passed(i: int, base: int, half: int, offset: int) {
    i < base + offset || base + half <= i < base + half + offset
  }

  /** The butterflies of one block, in place. */
  method Butterflies<T>(ar: Arith<T>, re: array<T>, im: array<T>, twRe: seq<T>, twIm: seq<T>,
                        base: int, half: int, step: int, ghost a: int -> Complex<T>,
                        ghost from: int -> Complex<T>, ghost to: int -> Complex<T>)
    requires re != im && re.Length == im.Length && 0 <= base && 0 <= half && base + 2 * half <= re.Length
    requires Stored(a, twRe, twIm, half, step) && BlockLinked(ar, a, from, to, base, half)
    requires forall i :: 0 <= i < re.Length ==> Complex(re[i], im[i]) == if i < base then to(i) else from(i)
    modifies re, im
    ensures forall i :: 0 <= i < re.Length ==>
      Complex(re[i], im[i]) == if i < base + 2 * half then to(i) else from(i)
  {
    for offset := 0 to half
      invariant forall i :: 0 <= i < re.Length ==>
        Complex(re[i], im[i]) == if Passed(i, base, half, offset) then to(i) else from(i)
    {
      var twiddle := offset * step;
      assert a(offset) == Complex(twRe[twiddle], twIm[twiddle]);
      assert Linked(ar, from, to, base + offset, base + offset + half, a(offset));
      Butterfly(ar, re, im, twRe[twiddle], twIm[twiddle], base + offset, base + offset + half);
    }
  }

  /** Where block b starts. */
  ghost function Start(b: int, size: int): int
    decreases b
  {
    if b <= 0 then 0 else Start(b - 1, size) + size
  }

  lemma {:induction false} StartIs(b: int, size: int)
    requires b >= 0
    ensures Start(b, size) == b * size
    decreases b
  {
    if b > 0 {
      StartIs(b - 1, size);
    }
  }

  /** One pass of butterflies over all `count` blocks. */
  method Stage<T>(ar: Arith<T>, re: array<T>, im: array<T>, twRe: seq<T>, twIm: seq<T>,
                  size: int, step: int, ghost a: int -> Complex<T>, ghost count: int,
                  ghost from: int -> Complex<T>, ghost to: int -> Complex<T>)
    requires re != im && re.Length == im.Length == count * size
    requires size >= 2 && size % 2 == 0 && count >= 0 && Stored(a, twRe, twIm, size / 2, step)
    requires forall b :: 0 <= b < count ==> BlockLinked(ar, a, from, to, Start(b, size), size / 2)
    requires forall i :: 0 <= i < re.Length ==> Complex(re[i], im[i]) == from(i)
    modifies re, im
    ensures forall i :: 0 <= i < re.Length ==> Complex(re[i], im[i]) == to(i)
  {
    var half := size / 2;
    var base := 0;
    ghost var b := 0;
    while base < re.Length
      invariant 0 <= b <= count && base == Start(b, size) && 0 <= base
      invariant forall i :: 0 <= i < re.Length ==> Complex(re[i], im[i]) == if i < base then to(i) else from(i)
      decreases re.Length - base
    {
      StartIs(b, size);
      BlockFits(b, count, size, re.Length);
      Butterflies(ar, re, im, twRe, twIm, base, half, step, a, from, to);
      base := base + size;
      b := b + 1;
    }
  }

  lemma TimesMonotone(b: int, count: int, size: int)
    requires size >= 0
    ensures b <= count ==> b * size <= count * size
  {
    assert b <= count ==> (count - b) * size >= 0;
  }

  lemma BlockFits(b: int, count: int, size: int, length: int)
    requires size >= 0 && length == count * size && b * size < length
    ensures b < count && b * size + size <= length
  {
    TimesMonotone(count, b, size);
    TimesMonotone(b + 1, count, size);
  }

  // Python's int.bit_length.
  function BitLength(p: nat): nat {
    if p == 0 then 0 else 1 + BitLength(p / 2)
  }

  predicate PowerOfTwo(p: nat) {
    p >= 1 && p == Pow2(BitLength(p) - 1)
  }

  lemma {:induction false} Pow2Monotone(a: int, b: int)
    ensures 0 <= a < b ==> Pow2(a) < Pow2(b)
    decreases b
  {
    if 0 <= a < b {
      Pow2Monotone(a, b - 1);
    }
  }

  lemma {:induction false} Pow2Product(a: int, b: int)
    requires 0 <= a && 0 <= b
    ensures Pow2(a) * Pow2(b) == Pow2(a + b)
    decreases a
  {
    if a > 0 {
      Pow2Product(a - 1, b);
      assert Pow2(a) * Pow2(b) == 2 * (Pow2(a - 1) * Pow2(b));
    }
  }

  // The table f lists what every position holds after m stages, when 2^c blocks remain.
  ghost predicate Tabulates<T>(f: int -> Complex<T>, ar: Arith<T>, tw: int -> Complex<T>, x: int -> Complex<T>,
                               c: int, m: int) {
    forall i {:trigger Target(ar, tw, x, c, m, i)} :: f(i) == Target(ar, tw, x, c, m, i)
  }

  ghost function Targets<T>(ar: Arith<T>, tw: int -> Complex<T>, x: int -> Complex<T>, c: int, m: int)
    : (f: int -> Complex<T>)
    ensures Tabulates(f, ar, tw, x, c, m)
  {
    (i: int) => Target(ar, tw, x, c, m, i)
  }

  lemma PositionsLinked<T>(ar: Arith<T>, tw: int -> Complex<T>, x: int -> Complex<T>, c: int, m: int,
                           from: int -> Complex<T>, to: int -> Complex<T>, a: Complex<T>,
                           b: int, k: int, half: int, step: int, even: int, odd: int)
    requires Tabulates(from, ar, tw, x, c + 1, m) && Tabulates(to, ar, tw, x, c, m + 1)
    requires c >= 0 && m >= 0 && half == Pow2(m) && step == Pow2(c) && a == tw(k * step)
    requires 0 <= b && 0 <= k < half && even == Start(b, 2 * half) + k && odd == even + half
    ensures Linked(ar, from, to, even, odd, a)
  {
    StartIs(b, 2 * half);
    TargetStep(ar, tw, x, c, m, b, k, half, 2 * half, step, even, odd);
  }

  lemma StageLinked<T>(ar: Arith<T>, tw: int -> Complex<T>, x: int -> Complex<T>, c: int, m: int,
                       from: int -> Complex<T>, to: int -> Complex<T>, a: int -> Complex<T>,
                       b: int, half: int, step: int, base: int)
    requires Tabulates(from, ar, tw, x, c + 1, m) && Tabulates(to, ar, tw, x, c, m + 1)
    requires c >= 0 && m >= 0 && half == Pow2(m) && step == Pow2(c) && 0 <= b && base == Start(b, 2 * half)
    requires forall k :: 0 <= k < half ==> a(k) == tw(k * step)
    ensures BlockLinked(ar, a, from, to, base, half)
  {
    forall k, even, odd | 0 <= k < half && even == base + k && odd == even + half
      ensures Linked(ar, from, to, even, odd, a(k))
    {
      PositionsLinked(ar, tw, x, c, m, from, to, a(k), b, k, half, step, even, odd);
    }
  }

  // The numbers of one stage: `count` blocks of `size`, and a twiddle spacing of `count`.
  lemma StageNumbers(c: int, m: int, points: int, size: int)
    requires c >= 0 && m >= 0 && points == Pow2(c + m + 1) && size == Pow2(m + 1)
    ensures points / size == Pow2(c) && points == Pow2(c) * size && Pow2(m) * Pow2(c) == points / 2
  {
    Pow2Product(c, m + 1);
    DivisionIs(points, Pow2(c), 0, size);
    Pow2Product(m, c);
  }

  /** One stage of the transform of x. */
  method TransformStage<T>(ar: Arith<T>, re: array<T>, im: array<T>, twRe: seq<T>, twIm: seq<T>,
                           size: int, ghost tw: int -> Complex<T>, ghost x: int -> Complex<T>,
                           ghost c: int, ghost m: int)
    requires re != im && c >= 0 && m >= 0
    requires re.Length == im.Length == Pow2(c + m + 1) && size == Pow2(m + 1)
    requires re.Length / 2 <= |twRe| && re.Length / 2 <= |twIm|
    requires forall t :: 0 <= t < re.Length / 2 ==> tw(t) == Complex(twRe[t], twIm[t])
    requires forall i :: 0 <= i < re.Length ==> Complex(re[i], im[i]) == Targets(ar, tw, x, c + 1, m)(i)
    modifies re, im
    ensures forall i :: 0 <= i < re.Length ==> Complex(re[i], im[i]) == Targets(ar, tw, x, c, m + 1)(i)
  {
    StageNumbers(c, m, re.Length, size);
    ghost var step := Pow2(c);
    ghost var from, to := Targets(ar, tw, x, c + 1, m), Targets(ar, tw, x, c, m + 1);
    ghost var a := (k: int) => tw(k * step);
    StageStored(a, tw, twRe, twIm, size / 2, step, re.Length / 2);
    forall b | 0 <= b < step ensures BlockLinked(ar, a, from, to, Start(b, size), size / 2) {
      StageLinked(ar, tw, x, c, m, from, to, a, b, Pow2(m), step, Start(b, size));
    }
    Stage(ar, re, im, twRe, twIm, size, re.Length / size, a, step, from, to);
  }

  lemma StageStored<T>(a: int -> Complex<T>, tw: int -> Complex<T>, twRe: seq<T>, twIm: seq<T>,
                       half: int, step: int, limit: int)
    requires step >= 1 && half * step == limit <= |twRe| && limit <= |twIm|
    requires forall t :: 0 <= t < limit ==> tw(t) == Complex(twRe[t], twIm[t])
    requires forall k :: 0 <= k < half ==> a(k) == tw(k * step)
    ensures Stored(a, twRe, twIm, half, step)
  {
    forall k | 0 <= k < half
      ensures 0 <= k * step < limit && a(k) == Complex(twRe[k * step], twIm[k * step])
    {
      TwiddleInRange(k, half, step);
    }
  }

  lemma TwiddleInRange(offset: int, half: int, step: int)
    requires 0 <= offset < half && step >= 1
    ensures 0 <= offset * step < half * step
  {
  }

  /** All stages, from single points to the whole transform. */
  method Stages<T>(ar: Arith<T>, re: array<T>, im: array<T>, twRe: seq<T>, twIm: seq<T>,
                   ghost tw: int -> Complex<T>, ghost x: int -> Complex<T>, ghost width: int)
    requires re != im && width >= 0 && re.Length == im.Length == Pow2(width)
    requires re.Length / 2 <= |twRe| && re.Length / 2 <= |twIm|
    requires forall t :: 0 <= t < re.Length / 2 ==> tw(t) == Complex(twRe[t], twIm[t])
    requires forall i :: 0 <= i < re.Length ==> Complex(re[i], im[i]) == Targets(ar, tw, x, width, 0)(i)
    modifies re, im
    ensures forall i :: 0 <= i < re.Length ==> Complex(re[i], im[i]) == Targets(ar, tw, x, 0, width)(i)
  {
    var size := 2;
    ghost var c, m := width, 0;
    while size <= re.Length
      invariant c >= 0 && m >= 0 && c + m == width && size == Pow2(m + 1)
      invariant forall i :: 0 <= i < re.Length ==> Complex(re[i], im[i]) == Targets(ar, tw, x, c, m)(i)
      decreases re.Length - size
    {
      Pow2Monotone(width, m + 1);
      TransformStage(ar, re, im, twRe, twIm, size, tw, x, c - 1, m);
      size := size * 2;
      c, m := c - 1, m + 1;
    }
    Pow2Monotone(m + 1, width);
    assert c == 0;
  }

  ghost function Points<T>(v: seq<Complex<T>>): int -> Complex<T>
    requires |v| > 0
  {
    (i: int) => if 0 <= i < |v| then v[i] else v[0]
  }

  method FftOfWidth<T>(ar: Arith<T>, re: array<T>, im: array<T>, twRe: seq<T>, twIm: seq<T>,
                       ghost tw: int -> Complex<T>, log2Points: int)
    requires re != im && log2Points >= 0 && re.Length == im.Length == Pow2(log2Points)
    requires re.Length / 2 <= |twRe| && re.Length / 2 <= |twIm|
    requires forall t :: 0 <= t < re.Length / 2 ==> tw(t) == Complex(twRe[t], twIm[t])
    modifies re, im
    ensures forall k :: 0 <= k < re.Length ==>
      Values(re, im)[k] == Transform(ar, tw, Points(old(Values(re, im))), 0, 1, log2Points, k)
  {
    ghost var x := Points(Values(re, im));
    Permute(re, im, log2Points, x);
    forall i | 0 <= i < re.Length ensures Complex(re[i], im[i]) == Targets(ar, tw, x, log2Points, 0)(i) {
      FirstTarget(ar, tw, x, log2Points, i);
    }
    Stages(ar, re, im, twRe, twIm, tw, x, log2Points);
    forall k | 0 <= k < re.Length ensures Values(re, im)[k] == Transform(ar, tw, x, 0, 1, log2Points, k) {
      LastTarget(ar, tw, x, log2Points, k);
    }
  }

  /** Swaps and butterflies together compute the recursive transform, value for
      value, whatever the three operations are. */
  method Fft<T>(ar: Arith<T>, re: array<T>, im: array<T>, twRe: seq<T>, twIm: seq<T>,
                ghost tw: int -> Complex<T>)
    requires re != im && re.Length == im.Length && PowerOfTwo(re.Length)
    requires re.Length / 2 <= |twRe| && re.Length / 2 <= |twIm|
    requires forall t :: 0 <= t < re.Length / 2 ==> tw(t) == Complex(twRe[t], twIm[t])
    modifies re, im
    ensures forall k :: 0 <= k < re.Length ==>
      Values(re, im)[k] == Transform(ar, tw, Points(old(Values(re, im))), 0, 1, BitLength(re.Length) - 1, k)
  {
    FftOfWidth(ar, re, im, twRe, twIm, tw, BitLength(re.Length) - 1);
  }
}
