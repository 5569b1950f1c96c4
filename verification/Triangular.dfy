/** Unit lower-triangular systems I + L, where only the entries L(a)(m) with 0 <= m < a are used:
    the inverse, the solve, and what a diagonal similarity does to both. */
module Triangular {
  import opened Sums

  /** Entry (a,m) of (I + L)^-1, by the row recurrence the code runs. */
  function Inv(L: int -> int -> real, a: int, m: int): real
    decreases a, 0
  {
    if m < 0 || a < m then 0.0 else if a == m then 1.0 else -Dot(m, a, L(a), InvAbove(L, a, m))
  }

  /** Column m of the inverse above row a. */
  function InvAbove(L: int -> int -> real, a: int, m: int): int -> real
    requires 0 <= m < a
    decreases a - 1, 1
  {
    p => if p < a then Inv(L, p, m) else 0.0
  }

  function InvRow(L: int -> int -> real, a: int): int -> real { m => Inv(L, a, m) }

  function InvRows(L: int -> int -> real): int -> int -> real { a => InvRow(L, a) }

  function InvCol(L: int -> int -> real, m: int): int -> real { p => Inv(L, p, m) }

  function Unit(a: int, m: int): real { if a == m then 1.0 else 0.0 }

  /** X(a,m) = [a == m] - sum_{p<a} L(a,p) X(p,m). */
  lemma InvRecurrence(L: int -> int -> real, a: nat, m: nat)
    ensures Inv(L, a, m) == Unit(a, m) - Dot(0, a, L(a), InvCol(L, m))
  {
    if a <= m {
      DotZero(0, a, L(a), InvCol(L, m));
    } else {
      hide Dot;
      DotSplit(0, m, a, L(a), InvCol(L, m));
      DotZero(0, m, L(a), InvCol(L, m));
      DotAgree(m, a, L(a), L(a), InvCol(L, m), InvAbove(L, a, m));
    }
  }

  /** d solves (I + L) d = r at row a. */
  ghost predicate Solves(L: int -> int -> real, r: int -> real, d: int -> real, a: int) {
    d(a) == r(a) - Dot(0, a, L(a), d)
  }

  /** (I + L)^-1 r. */
  function InvTimes(L: int -> int -> real, r: int -> real): int -> real { a => Dot(0, a + 1, InvRow(L, a), r) }

  lemma InverseSolves(L: int -> int -> real, r: int -> real, a: nat)
    ensures Solves(L, r, InvTimes(L, r), a)
  {
    hide Dot, Inv, Mix;
    var mix := Mix(a, L(a), InvRows(L));
    InverseRow(L, r, a);
    DotSwap(a, 0, a, L(a), InvRows(L), r);
    forall p | 0 <= p < a ensures Apply(0, a, InvRows(L), r)(p) == InvTimes(L, r)(p) {
      InverseTail(L, r, p, a);
    }
    DotAgree(0, a, L(a), L(a), Apply(0, a, InvRows(L), r), InvTimes(L, r));
  }

  lemma InverseRow(L: int -> int -> real, r: int -> real, a: nat)
    ensures InvTimes(L, r)(a) == r(a) - Dot(0, a, Mix(a, L(a), InvRows(L)), r)
  {
    hide Dot, Inv;
    var mix := Mix(a, L(a), InvRows(L));
    forall m | 0 <= m < a ensures InvRow(L, a)(m) == Scaled(-1.0, mix)(m) {
      InvRecurrence(L, a, m);
      DotAgree(0, a, L(a), L(a), InvCol(L, m), Transposed(InvRows(L), m));
    }
    DotAgree(0, a, InvRow(L, a), Scaled(-1.0, mix), r, r);
    DotScaled(0, a, -1.0, mix, r);
    DotPeel(0, a, InvRow(L, a), r);
    InvDiagonal(L, a);
  }

  lemma InvDiagonal(L: int -> int -> real, a: nat)
    ensures Inv(L, a, a) == 1.0
  {
  }

  lemma InverseTail(L: int -> int -> real, r: int -> real, p: nat, a: nat)
    requires p < a
    ensures Dot(0, a, InvRow(L, p), r) == Dot(0, p + 1, InvRow(L, p), r)
  {
    hide Dot;
    DotSplit(0, p + 1, a, InvRow(L, p), r);
    DotZero(p + 1, a, InvRow(L, p), r);
  }

  /** Forward substitution has one solution. */
  lemma {:induction false} SolutionUnique(L: int -> int -> real, r: int -> real, d: int -> real, d': int -> real,
                                          a: nat)
    requires forall p | 0 <= p <= a :: Solves(L, r, d, p) && Solves(L, r, d', p)
    ensures d(a) == d'(a)
  {
    hide Dot;
    forall p | 0 <= p < a ensures d(p) == d'(p) { SolutionUnique(L, r, d, d', p); }
    DotAgree(0, a, L(a), L(a), d, d');
    assert Solves(L, r, d, a) && Solves(L, r, d', a);
  }

  /** w(a)(m) behaves like exp(G_a - G_m). */
  ghost predicate Cocycle(w: int -> int -> real, n: int) {
    && (forall a | 0 <= a < n :: w(a)(a) == 1.0)
    && (forall a, p, m | 0 <= m <= p <= a < n :: Chains(w, a, p, m))
  }

  ghost predicate Chains(w: int -> int -> real, a: int, p: int, m: int) { w(a)(p) * w(p)(m) == w(a)(m) }

  ghost predicate SimilarAt(L: int -> int -> real, A: int -> int -> real, w: int -> int -> real, a: int, p: int) {
    A(a)(p) == L(a)(p) * w(a)(p)
  }

  /** Scaling the entries of I + L by w scales the entries of its inverse by w. */
  lemma {:induction false} InverseSimilar(L: int -> int -> real, A: int -> int -> real, w: int -> int -> real, n: nat,
                                          a: nat, m: nat)
    requires Cocycle(w, n) && m <= a < n
    requires forall a', p | 0 <= p < a' < n :: SimilarAt(L, A, w, a', p)
    ensures Inv(A, a, m) == Inv(L, a, m) * w(a)(m)
    decreases a
  {
    if m < a {
      var c := w(a)(m);
      assert Dot(m, a, A(a), InvAbove(A, a, m)) == c * Dot(m, a, L(a), InvAbove(L, a, m)) by {
        hide Dot;
        forall p | m <= p < a ensures A(a)(p) * InvAbove(A, a, m)(p) == (L(a)(p) * InvAbove(L, a, m)(p)) * c {
          hide Inv;
          InverseSimilar(L, A, w, n, p, m);
          assert SimilarAt(L, A, w, a, p) && Chains(w, a, p, m);
          Rescale(L(a)(p), w(a)(p), Inv(L, p, m), w(p)(m), c);
        }
        DotRescale(m, a, A(a), InvAbove(A, a, m), L(a), InvAbove(L, a, m), c);
      }
    }
  }

  lemma Rescale(l: real, u: real, x: real, v: real, c: real)
    requires u * v == c
    ensures (l * u) * (x * v) == (l * x) * c
  {
    assert (l * u) * (x * v) == (l * x) * (u * v);
  }

  lemma {:induction false} DotRescale(lo: int, hi: int, f: int -> real, g: int -> real, f': int -> real,
                                      g': int -> real, c: real)
    requires forall p | lo <= p < hi :: f(p) * g(p) == (f'(p) * g'(p)) * c
    ensures Dot(lo, hi, f, g) == c * Dot(lo, hi, f', g')
    decreases hi - lo
  {
    if lo < hi { DotRescale(lo, hi - 1, f, g, f', g', c); }
  }

  /** Row a of I + L as an n-wide row. */
  function Full(L: int -> int -> real): int -> int -> real {
    a => p => if p == a then 1.0 else if p < a then L(a)(p) else 0.0
  }

  function FullCol(L: int -> int -> real, m: int): int -> real { p => Full(L)(p)(m) }

  /** (I + L) (I + L)^-1 = I. */
  lemma RightInverse(L: int -> int -> real, n: nat, a: nat, m: nat)
    requires a < n && m < n
    ensures Dot(0, n, Full(L)(a), InvCol(L, m)) == Unit(a, m)
  {
    hide Dot;
    FullTimes(L, n, a, InvCol(L, m));
    InvRecurrence(L, a, m);
  }

  /** A full row against any vector. */
  lemma FullTimes(L: int -> int -> real, n: nat, a: nat, y: int -> real)
    requires a < n
    ensures Dot(0, n, Full(L)(a), y) == y(a) + Dot(0, a, L(a), y)
  {
    hide Dot;
    DotSplit(0, a + 1, n, Full(L)(a), y);
    DotZero(a + 1, n, Full(L)(a), y);
    DotPeel(0, a, Full(L)(a), y);
    DotAgree(0, a, Full(L)(a), L(a), y, y);
  }

  function UnitRow(a: int): int -> real { m => Unit(a, m) }

  function UnitCol(m: int): int -> real { a => Unit(a, m) }

  lemma {:induction false} DotUnit(n: int, a: int, y: int -> real)
    ensures Dot(0, n, UnitRow(a), y) == if 0 <= a < n then y(a) else 0.0
    decreases n
  {
    if 0 < n { DotUnit(n - 1, a, y); }
  }

  /** (I + L)^-1 (I + L), entry by entry. */
  function LeftProduct(L: int -> int -> real, n: int): int -> int -> real {
    a => m => Dot(0, n, InvRow(L, a), FullCol(L, m))
  }

  /** (I + L)^-1 (I + L) = I. */
  lemma {:induction false} LeftInverse(L: int -> int -> real, n: nat, a: nat, m: nat)
    requires a < n && m < n
    ensures Dot(0, n, InvRow(L, a), FullCol(L, m)) == Unit(a, m)
    decreases a
  {
    hide Dot, Inv;
    var y := Transposed(LeftProduct(L, n), m);
    forall p | 0 <= p < a ensures y(p) == UnitCol(m)(p) { LeftInverse(L, n, p, m); }
    DotAgree(0, a, L(a), L(a), y, UnitCol(m));
    DotCommutes(0, a, L(a), UnitCol(m));
    DotAgree(0, a, UnitCol(m), UnitRow(m), L(a), L(a));
    DotUnit(a, m, L(a));
    FullTimes(L, n, a, y);
    Associate(L, n, a, m);
  }

  /** (I + L) ((I + L)^-1 (I + L)) = I + L. */
  lemma Associate(L: int -> int -> real, n: nat, a: nat, m: nat)
    requires a < n && m < n
    ensures Dot(0, n, Full(L)(a), Transposed(LeftProduct(L, n), m)) == Full(L)(a)(m)
  {
    hide Dot, Inv;
    var rows, r := InvRows(L), FullCol(L, m);
    DotSwap(n, 0, n, Full(L)(a), rows, r);
    DotAgree(0, n, Full(L)(a), Full(L)(a), Transposed(LeftProduct(L, n), m), Apply(0, n, rows, r));
    forall q | 0 <= q < n ensures Mix(n, Full(L)(a), rows)(q) == UnitRow(a)(q) {
      RightInverse(L, n, a, q);
      DotAgree(0, n, Full(L)(a), Full(L)(a), Transposed(rows, q), InvCol(L, q));
    }
    DotAgree(0, n, Mix(n, Full(L)(a), rows), UnitRow(a), r, r);
    DotUnit(n, a, r);
  }
}
