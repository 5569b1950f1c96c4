/** Finite sums of products over `real`, on vectors given as total functions of an index.
    Every inner loop of the numeric code accumulates one of these from the low index up. */
module Sums {

  /** f(lo)*g(lo) + ... + f(hi-1)*g(hi-1), associated the way an accumulating loop does. */
  function Dot(lo: int, hi: int, f: int -> real, g: int -> real): real
    decreases hi - lo
  {
    if hi <= lo then 0.0 else Dot(lo, hi - 1, f, g) + f(hi - 1) * g(hi - 1)
  }

  function One(): int -> real { _ => 1.0 }

  function Scaled(c: real, f: int -> real): int -> real { i => f(i) * c }

  /** c*f + d*g, the shape of every state update. */
  function Blend(c: real, f: int -> real, d: real, g: int -> real): int -> real {
    i => c * f(i) + d * g(i)
  }

  ghost predicate Agree(lo: int, hi: int, f: int -> real, g: int -> real) {
    forall i | lo <= i < hi :: f(i) == g(i)
  }

  lemma {:induction false} DotAgree(lo: int, hi: int, f: int -> real, f': int -> real, g: int -> real, g': int -> real)
    requires Agree(lo, hi, f, f') && Agree(lo, hi, g, g')
    ensures Dot(lo, hi, f, g) == Dot(lo, hi, f', g')
    decreases hi - lo
  {
    if lo < hi { DotAgree(lo, hi - 1, f, f', g, g'); }
  }

  /** The last term of the sum, and the empty sum. */
  lemma DotPeel(lo: int, hi: int, f: int -> real, g: int -> real)
    ensures lo <= hi ==> Dot(lo, hi + 1, f, g) == Dot(lo, hi, f, g) + f(hi) * g(hi)
    ensures hi <= lo ==> Dot(lo, hi, f, g) == 0.0
  {
  }

  /** One product of the sum, for callers that must not see the multiplication. */
  function Term(a: real, b: real): real { a * b }

  lemma PeelTerm(lo: int, hi: int, f: int -> real, g: int -> real)
    requires lo <= hi
    ensures Dot(lo, hi + 1, f, g) == Dot(lo, hi, f, g) + Term(f(hi), g(hi))
  {
  }

  lemma {:induction false} DotCommutes(lo: int, hi: int, f: int -> real, g: int -> real)
    ensures Dot(lo, hi, f, g) == Dot(lo, hi, g, f)
    decreases hi - lo
  {
    if lo < hi { DotCommutes(lo, hi - 1, f, g); }
  }

  /** Linearity in the left argument. */
  lemma {:induction false} DotBlend(lo: int, hi: int, c: real, f: int -> real, d: real, g: int -> real, y: int -> real)
    ensures Dot(lo, hi, Blend(c, f, d, g), y) == c * Dot(lo, hi, f, y) + d * Dot(lo, hi, g, y)
    decreases hi - lo
  {
    if lo < hi {
      DotBlend(lo, hi - 1, c, f, d, g, y);
      var a, b, p, q, z := Dot(lo, hi - 1, f, y), Dot(lo, hi - 1, g, y), f(hi - 1), g(hi - 1), y(hi - 1);
      BlendStep(c, d, a, b, p, q, z);
    }
  }

  lemma BlendStep(c: real, d: real, a: real, b: real, p: real, q: real, z: real)
    ensures c * a + d * b + (c * p + d * q) * z == c * (a + p * z) + d * (b + q * z)
  {
    assert (c * p + d * q) * z == c * (p * z) + d * (q * z);
  }

  lemma {:induction false} DotScaled(lo: int, hi: int, c: real, f: int -> real, y: int -> real)
    ensures Dot(lo, hi, Scaled(c, f), y) == c * Dot(lo, hi, f, y)
    decreases hi - lo
  {
    if lo < hi {
      DotScaled(lo, hi - 1, c, f, y);
      ScaledStep(c, Dot(lo, hi - 1, f, y), f(hi - 1), y(hi - 1));
    }
  }

  lemma ScaledStep(c: real, a: real, p: real, z: real)
    ensures c * a + (p * c) * z == c * (a + p * z)
  {
    assert (p * c) * z == c * (p * z);
  }

  lemma {:induction false} DotZero(lo: int, hi: int, f: int -> real, g: int -> real)
    requires forall i | lo <= i < hi :: f(i) == 0.0 || g(i) == 0.0
    ensures Dot(lo, hi, f, g) == 0.0
    decreases hi - lo
  {
    if lo < hi { DotZero(lo, hi - 1, f, g); }
  }

  lemma {:induction false} DotSplit(lo: int, mid: int, hi: int, f: int -> real, g: int -> real)
    requires lo <= mid <= hi
    ensures Dot(lo, hi, f, g) == Dot(lo, mid, f, g) + Dot(mid, hi, f, g)
    decreases hi - mid
  {
    if mid < hi { DotSplit(lo, mid, hi - 1, f, g); }
  }

  /** y(p) = sum_m rows(p)(m)*r(m): a matrix applied to a vector. */
  function Apply(lo: int, hi: int, rows: int -> int -> real, r: int -> real): int -> real {
    p => Dot(lo, hi, rows(p), r)
  }

  /** (alpha^T rows)(m) = sum_p alpha(p)*rows(p)(m). */
  function Transposed(rows: int -> int -> real, m: int): int -> real { p => rows(p)(m) }

  function Mix(n: int, alpha: int -> real, rows: int -> int -> real): int -> real {
    m => Dot(0, n, alpha, Transposed(rows, m))
  }

  /** One more row in the mix. */
  lemma MixStep(n: nat, alpha: int -> real, rows: int -> int -> real, m: int)
    ensures Mix(n + 1, alpha, rows)(m) == Blend(1.0, Mix(n, alpha, rows), alpha(n), rows(n))(m)
  {
    hide Dot;
    DotPeel(0, n, alpha, Transposed(rows, m));
  }

  /** Exchange of summation: alpha . (rows r) == (alpha^T rows) . r */
  lemma {:induction false} DotSwap(n: nat, lo: int, hi: int, alpha: int -> real, rows: int -> int -> real,
                                   r: int -> real)
    ensures Dot(0, n, alpha, Apply(lo, hi, rows, r)) == Dot(lo, hi, Mix(n, alpha, rows), r)
  {
    if n == 0 {
      DotZero(lo, hi, Mix(0, alpha, rows), r);
    } else {
      hide Dot, Mix, Blend;
      var blend := Blend(1.0, Mix(n - 1, alpha, rows), alpha(n - 1), rows(n - 1));
      DotSwap(n - 1, lo, hi, alpha, rows, r);
      DotPeel(0, n - 1, alpha, Apply(lo, hi, rows, r));
      DotBlend(lo, hi, 1.0, Mix(n - 1, alpha, rows), alpha(n - 1), rows(n - 1), r);
      forall m | lo <= m < hi ensures Mix(n, alpha, rows)(m) == blend(m) { MixStep(n - 1, alpha, rows, m); }
      DotAgree(lo, hi, Mix(n, alpha, rows), blend, r, r);
    }
  }
}
