/** Why the chunked forms compute the recurrence: unrolling a chunk, the triangular system its
    deltas solve, and the gated inverse of that system. */
module ChunkAlgebra {
  import opened Sums
  import opened Exponential
  import opened DeltaSpec
  import opened Triangular

  /** m |-> exp(top - C(m+1)) * w(m), for any prefix sum C. */
  function Weighted(exp: real -> real, C: int -> real, top: real, w: int -> real): int -> real {
    m => exp(top - C(m + 1)) * w(m)
  }

  /** A gated scalar recurrence z(m+1) = exp(g(m)) z(m) + d(m) w(m), g the differences of C. */
  ghost predicate Gated(exp: real -> real, C: int -> real, z: int -> real, w: int -> real, d: int -> real, m: int) {
    z(m + 1) == exp(C(m + 1) - C(m)) * z(m) + d(m) * w(m)
  }

  /** Moving the reference level from `low` to `top` multiplies every weight by exp(top - low). */
  lemma WeightedShift(exp: real -> real, C: int -> real, low: real, top: real, w: int -> real, d: int -> real, n: nat)
    requires IsExp(exp)
    ensures Dot(0, n, Weighted(exp, C, top, w), d) == exp(top - low) * Dot(0, n, Weighted(exp, C, low, w), d)
  {
    hide Dot;
    var before, after, g := Weighted(exp, C, low, w), Weighted(exp, C, top, w), exp(top - low);
    forall m | 0 <= m < n ensures after(m) == Scaled(g, before)(m) {
      ExpChain(exp, top, low, C(m + 1));
      Regroup(g, exp(low - C(m + 1)), w(m));
    }
    DotAgree(0, n, after, Scaled(g, before), d, d);
    DotScaled(0, n, g, before, d);
  }

  lemma Regroup(g: real, e: real, w: real)
    ensures (g * e) * w == (e * w) * g
  {
  }

  /** Closed form of a gated recurrence after n steps. */
  lemma {:induction false} Unroll(exp: real -> real, C: int -> real, z: int -> real, w: int -> real, d: int -> real,
                                  n: nat)
    requires IsExp(exp) && C(0) == 0.0
    requires forall m | 0 <= m < n :: Gated(exp, C, z, w, d, m)
    ensures Unrolled(exp, C, z, w, d, n)
  {
    hide Dot, Weighted, Gated;
    if n == 0 {
      DotPeel(0, 0, Weighted(exp, C, C(0), w), d);
    } else {
      Unroll(exp, C, z, w, d, n - 1);
      UnrollStep(exp, C, z, w, d, n - 1);
    }
  }

  ghost predicate Unrolled(exp: real -> real, C: int -> real, z: int -> real, w: int -> real, d: int -> real, n: int) {
    z(n) == exp(C(n)) * z(0) + Dot(0, n, Weighted(exp, C, C(n), w), d)
  }

  lemma UnrollStep(exp: real -> real, C: int -> real, z: int -> real, w: int -> real, d: int -> real, n: nat)
    requires IsExp(exp) && Gated(exp, C, z, w, d, n) && Unrolled(exp, C, z, w, d, n)
    ensures Unrolled(exp, C, z, w, d, n + 1)
  {
    hide Dot, Weighted;
    var low, top := C(n), C(n + 1);
    var g, before := exp(top - low), Dot(0, n, Weighted(exp, C, low, w), d);
    PeelWeighted(exp, C, low, w, d, n);
    assert exp(top) == g * exp(low) by { ExpSum(exp, top - low, low); assert top - low + low == top; }
    Distribute(g, exp(low), exp(top), z(0), before, d(n) * w(n));
  }

  lemma PeelWeighted(exp: real -> real, C: int -> real, low: real, w: int -> real, d: int -> real, n: nat)
    requires IsExp(exp)
    ensures Dot(0, n + 1, Weighted(exp, C, C(n + 1), w), d)
         == exp(C(n + 1) - low) * Dot(0, n, Weighted(exp, C, low, w), d) + d(n) * w(n)
  {
    hide Dot;
    var top := C(n + 1);
    DotPeel(0, n, Weighted(exp, C, top, w), d);
    WeightedShift(exp, C, low, top, w, d, n);
    assert top - C(n + 1) == 0.0;
  }

  lemma Distribute(g: real, e: real, eg: real, z: real, s: real, t: real)
    requires eg == g * e
    ensures g * (e * z + s) + t == eg * z + (g * s + t)
  {
    assert g * (e * z) == eg * z;
  }

  /** Sum of the first n log-decays of the chunk starting at token c0. */
  function Cum(x: Head, c0: int, n: int): real {
    if n <= 0 then 0.0 else Cum(x, c0, n - 1) + x.g(c0 + n - 1)
  }

  function CumFn(x: Head, c0: int): int -> real { n => Cum(x, c0, n) }

  /** The recurrence's delta for the m-th token of the chunk. */
  function Deltas(x: Head, j: int, s0: int -> real, c0: int): int -> real {
    m => if m < 0 then 0.0 else Delta(x, j, Col(x, j, s0, c0, m), c0 + m)
  }

  /** w_m = k_m[i]. */
  function KAt(x: Head, c0: int, i: int): int -> real { m => x.k(c0 + m)(i) }

  /** w_m = k_m . y. */
  function KDot(x: Head, c0: int, y: int -> real): int -> real { m => Dot(0, x.S, x.k(c0 + m), y) }

  /** Component i of the column after each number of tokens. */
  function ColAt(x: Head, j: int, s0: int -> real, c0: int, i: int): int -> real {
    m => if m < 0 then 0.0 else Col(x, j, s0, c0, m)(i)
  }

  /** The column after each number of tokens, read against y. */
  function ColDot(x: Head, j: int, s0: int -> real, c0: int, y: int -> real): int -> real {
    m => if m < 0 then 0.0 else Dot(0, x.S, Col(x, j, s0, c0, m), y)
  }

  lemma ColStep(x: Head, j: int, s0: int -> real, c0: int, m: nat)
    ensures Col(x, j, s0, c0, m + 1) == Blend(x.exp(x.g(c0 + m)), Col(x, j, s0, c0, m), Deltas(x, j, s0, c0)(m),
            x.k(c0 + m))
    ensures CumFn(x, c0)(m + 1) - CumFn(x, c0)(m) == x.g(c0 + m)
  {
    hide Delta, Blend;
  }

  lemma ColAtGated(x: Head, j: int, s0: int -> real, c0: int, i: int, m: nat)
    ensures Gated(x.exp, CumFn(x, c0), ColAt(x, j, s0, c0, i), KAt(x, c0, i), Deltas(x, j, s0, c0), m)
  {
    hide Deltas, Col, CumFn;
    ColStep(x, j, s0, c0, m);
  }

  lemma ColDotGated(x: Head, j: int, s0: int -> real, c0: int, y: int -> real, m: nat)
    ensures Gated(x.exp, CumFn(x, c0), ColDot(x, j, s0, c0, y), KDot(x, c0, y), Deltas(x, j, s0, c0), m)
  {
    hide Deltas, Col, CumFn, Dot, Blend;
    ColStep(x, j, s0, c0, m);
    DotBlend(0, x.S, x.exp(x.g(c0 + m)), Col(x, j, s0, c0, m), Deltas(x, j, s0, c0)(m), x.k(c0 + m), y);
  }

  /** The state after n tokens, read against any vector y. */
  lemma UnrollDot(x: Head, j: int, s0: int -> real, c0: int, n: nat, y: int -> real)
    requires IsExp(x.exp)
    ensures Dot(0, x.S, Col(x, j, s0, c0, n), y)
         == x.exp(Cum(x, c0, n)) * Dot(0, x.S, s0, y)
          + Dot(0, n, Weighted(x.exp, CumFn(x, c0), Cum(x, c0, n), KDot(x, c0, y)), Deltas(x, j, s0, c0))
  {
    hide *;
    forall m | 0 <= m < n ensures Gated(x.exp, CumFn(x, c0), ColDot(x, j, s0, c0, y), KDot(x, c0, y),
        Deltas(x, j, s0, c0), m) {
      ColDotGated(x, j, s0, c0, y, m);
    }
    ColDotEnds(x, j, s0, c0, n, y);
    Unroll(x.exp, CumFn(x, c0), ColDot(x, j, s0, c0, y), KDot(x, c0, y), Deltas(x, j, s0, c0), n);
    UnrolledIs(x.exp, CumFn(x, c0), ColDot(x, j, s0, c0, y), KDot(x, c0, y), Deltas(x, j, s0, c0), n,
               Dot(0, x.S, Col(x, j, s0, c0, n), y), Cum(x, c0, n), Dot(0, x.S, s0, y));
  }

  /** The unrolled recurrence between its first and last value. */
  lemma ColDotEnds(x: Head, j: int, s0: int -> real, c0: int, n: nat, y: int -> real)
    ensures CumFn(x, c0)(0) == 0.0 && CumFn(x, c0)(n) == Cum(x, c0, n)
    ensures ColDot(x, j, s0, c0, y)(n) == Dot(0, x.S, Col(x, j, s0, c0, n), y)
    ensures ColDot(x, j, s0, c0, y)(0) == Dot(0, x.S, s0, y)
  {
    hide Dot;
  }

  lemma UnrolledIs(exp: real -> real, C: int -> real, z: int -> real, w: int -> real, d: int -> real, n: int,
                   zn: real, top: real, z0: real)
    requires Unrolled(exp, C, z, w, d, n) && zn == z(n) && top == C(n) && z0 == z(0)
    ensures zn == exp(top) * z0 + Dot(0, n, Weighted(exp, C, top, w), d)
  {
    hide Dot, Weighted;
  }

  /** k_a . k_m, accumulated in the code's operand order. */
  function Gram(x: Head, c0: int, a: int, m: int): real { Dot(0, x.S, x.k(c0 + a), x.k(c0 + m)) }

  /** exp(G_a - G_m) in the code's inclusive indexing. */
  function Decay(x: Head, c0: int, a: int, m: int): real { x.exp(Cum(x, c0, a + 1) - Cum(x, c0, m + 1)) }

  /** Row a of the gated strict-lower system: A[a,m] = beta_a (k_a.k_m) exp(G_a - G_m). */
  function GatedRow(x: Head, c0: int, a: int): int -> real {
    m => x.b(c0 + a) * Gram(x, c0, a, m) * Decay(x, c0, a, m)
  }

  /** Right-hand side r_a = beta_a (v_a - exp(G_a) s0.k_a). */
  function Rhs(x: Head, j: int, s0: int -> real, c0: int): int -> real {
    a => x.b(c0 + a) * (x.v(c0 + a)(j) - x.exp(Cum(x, c0, a + 1)) * Dot(0, x.S, s0, x.k(c0 + a)))
  }

  /** The gated row a is beta_a times the weights that unrolling gives k_a. */
  lemma GatedRowIs(x: Head, c0: int, a: nat, d: int -> real)
    ensures Dot(0, a, GatedRow(x, c0, a), d)
         == x.b(c0 + a) * Dot(0, a, Weighted(x.exp, CumFn(x, c0), Cum(x, c0, a + 1), KDot(x, c0, x.k(c0 + a))), d)
  {
    hide Dot, GatedRow, Weighted, Cum, CumFn, KDot;
    var w := Weighted(x.exp, CumFn(x, c0), Cum(x, c0, a + 1), KDot(x, c0, x.k(c0 + a)));
    forall m | 0 <= m < a ensures GatedRow(x, c0, a)(m) == Scaled(x.b(c0 + a), w)(m) {
      GatedEntryIs(x, c0, a, m);
    }
    DotAgree(0, a, GatedRow(x, c0, a), Scaled(x.b(c0 + a), w), d, d);
    DotScaled(0, a, x.b(c0 + a), w, d);
  }

  lemma GatedEntryIs(x: Head, c0: int, a: nat, m: nat)
    ensures GatedRow(x, c0, a)(m)
         == Weighted(x.exp, CumFn(x, c0), Cum(x, c0, a + 1), KDot(x, c0, x.k(c0 + a)))(m) * x.b(c0 + a)
  {
    hide Dot, Cum;
    DotCommutes(0, x.S, x.k(c0 + a), x.k(c0 + m));
    Regroup(x.b(c0 + a), Gram(x, c0, a, m), Decay(x, c0, a, m));
  }

  /** A delta, with its prediction s^T k unrolled: v - exp(G) s0.k - (decayed earlier deltas).k */
  lemma DeltaUnrolled(x: Head, j: int, s0: int -> real, c0: int, a: nat)
    requires IsExp(x.exp)
    ensures Deltas(x, j, s0, c0)(a)
         == (x.v(c0 + a)(j)
             - x.exp(x.g(c0 + a)) * (x.exp(Cum(x, c0, a)) * Dot(0, x.S, s0, x.k(c0 + a))
                                     + Dot(0, a, Weighted(x.exp, CumFn(x, c0), Cum(x, c0, a), KDot(x, c0, x.k(c0 + a))),
                                         Deltas(x, j, s0, c0))))
            * x.b(c0 + a)
  {
    var col := Col(x, j, s0, c0, a);
    DeltaIs(x, j, s0, c0, a);
    hide *;
    DotScaled(0, x.S, x.exp(x.g(c0 + a)), col, x.k(c0 + a));
    UnrollDot(x, j, s0, c0, a, x.k(c0 + a));
  }

  lemma DeltaIs(x: Head, j: int, s0: int -> real, c0: int, a: nat)
    ensures Deltas(x, j, s0, c0)(a)
         == (x.v(c0 + a)(j) - Dot(0, x.S, Scaled(x.exp(x.g(c0 + a)), Col(x, j, s0, c0, a)), x.k(c0 + a))) * x.b(c0 + a)
  {
    hide Dot, Scaled, Col;
  }

  /** The recurrence's deltas are the forward-substitution solution of (I + A) d = r. */
  lemma DeltasSolve(x: Head, j: int, s0: int -> real, c0: int, a: nat)
    requires IsExp(x.exp)
    ensures Deltas(x, j, s0, c0)(a) == Rhs(x, j, s0, c0)(a) - Dot(0, a, GatedRow(x, c0, a), Deltas(x, j, s0, c0))
  {
    hide *;
    var d, ka := Deltas(x, j, s0, c0), x.k(c0 + a);
    var low, top := Cum(x, c0, a), Cum(x, c0, a + 1);
    DeltaUnrolled(x, j, s0, c0, a);
    RhsIs(x, j, s0, c0, a);
    GatedRowIs(x, c0, a, d);
    LevelsShift(x, c0, a, d);
    SolveStep(x.v(c0 + a)(j), x.b(c0 + a), x.exp(x.g(c0 + a)), x.exp(low), x.exp(top), Dot(0, x.S, s0, ka),
              Dot(0, a, Weighted(x.exp, CumFn(x, c0), low, KDot(x, c0, ka)), d),
              Dot(0, a, Weighted(x.exp, CumFn(x, c0), top, KDot(x, c0, ka)), d));
  }

  lemma RhsIs(x: Head, j: int, s0: int -> real, c0: int, a: nat)
    ensures Rhs(x, j, s0, c0)(a)
         == x.b(c0 + a) * (x.v(c0 + a)(j) - x.exp(Cum(x, c0, a + 1)) * Dot(0, x.S, s0, x.k(c0 + a)))
  {
    hide Cum, Dot;
  }

  /** Moving from the level before token a to the level after it multiplies by the token's own factor. */
  lemma LevelsShift(x: Head, c0: int, a: nat, d: int -> real)
    requires IsExp(x.exp)
    ensures x.exp(Cum(x, c0, a + 1)) == x.exp(x.g(c0 + a)) * x.exp(Cum(x, c0, a))
    ensures var C, w := CumFn(x, c0), KDot(x, c0, x.k(c0 + a));
            Dot(0, a, Weighted(x.exp, C, Cum(x, c0, a + 1), w), d)
              == x.exp(x.g(c0 + a)) * Dot(0, a, Weighted(x.exp, C, Cum(x, c0, a), w), d)
  {
    hide Dot, Weighted, KDot, CumFn, IsExp;
    var low, top := Cum(x, c0, a), Cum(x, c0, a + 1);
    assert top == x.g(c0 + a) + low && top - low == x.g(c0 + a);
    ExpSum(x.exp, x.g(c0 + a), low);
    WeightedShift(x.exp, CumFn(x, c0), low, top, KDot(x, c0, x.k(c0 + a)), d, a);
  }

  lemma SolveStep(v: real, b: real, g: real, e: real, eg: real, u: real, s: real, sg: real)
    requires eg == g * e && sg == g * s
    ensures (v - g * (e * u + s)) * b == b * (v - eg * u) - b * sg
  {
    assert g * (e * u + s) == eg * u + sg by { Distribute(g, e, eg, u, s, 0.0); }
  }

  /** o_a's weights: exp(G_a - G_m)(k_m . qs_a). */
  function ReadRow(x: Head, c0: int, a: int): int -> real {
    m => Decay(x, c0, a, m) * Dot(0, x.S, x.k(c0 + m), x.qs(c0 + a))
  }

  /** The chunk's output formula is the recurrence's readout. */
  lemma ReadIs(x: Head, j: int, s0: int -> real, c0: int, a: nat)
    requires IsExp(x.exp)
    ensures Read(x, j, s0, c0, a)
         == x.exp(Cum(x, c0, a + 1)) * Dot(0, x.S, s0, x.qs(c0 + a))
             + Dot(0, a + 1, ReadRow(x, c0, a), Deltas(x, j, s0, c0))
  {
    hide Dot, Deltas, Cum, Col;
    var qs, d := x.qs(c0 + a), Deltas(x, j, s0, c0);
    UnrollDot(x, j, s0, c0, a + 1, qs);
    DotAgree(0, a + 1, Weighted(x.exp, CumFn(x, c0), Cum(x, c0, a + 1), KDot(x, c0, qs)), ReadRow(x, c0, a), d, d);
  }

  /** The carry's weights: k_m[i] exp(G_last - G_m). */
  function CarryRow(x: Head, c0: int, cs: int, i: int): int -> real {
    m => x.k(c0 + m)(i) * x.exp(Cum(x, c0, cs) - Cum(x, c0, m + 1))
  }

  /** The chunk's carried state is the recurrence's state. */
  lemma CarryIs(x: Head, j: int, s0: int -> real, c0: int, cs: nat, i: int)
    requires IsExp(x.exp)
    ensures Col(x, j, s0, c0, cs)(i)
         == x.exp(Cum(x, c0, cs)) * s0(i) + Dot(0, cs, CarryRow(x, c0, cs, i), Deltas(x, j, s0, c0))
  {
    var C, d, w := CumFn(x, c0), Deltas(x, j, s0, c0), KAt(x, c0, i);
    var rows := Weighted(x.exp, C, Cum(x, c0, cs), w);
    assert Unrolled(x.exp, C, ColAt(x, j, s0, c0, i), w, d, cs) by {
      hide Dot, Deltas, Col, Gated, Unrolled, ColAt, KAt, Weighted;
      forall m | 0 <= m < cs ensures Gated(x.exp, C, ColAt(x, j, s0, c0, i), w, d, m) {
        ColAtGated(x, j, s0, c0, i, m);
      }
      Unroll(x.exp, C, ColAt(x, j, s0, c0, i), w, d, cs);
    }
    CarryRows(x, c0, cs, i, d);
    hide Dot, Deltas, Weighted, KAt, CarryRow;
    assert Col(x, j, s0, c0, 0) == s0;
  }

  lemma CarryRows(x: Head, c0: int, cs: nat, i: int, d: int -> real)
    ensures Dot(0, cs, Weighted(x.exp, CumFn(x, c0), Cum(x, c0, cs), KAt(x, c0, i)), d)
         == Dot(0, cs, CarryRow(x, c0, cs, i), d)
  {
    hide Dot, Cum;
    DotAgree(0, cs, Weighted(x.exp, CumFn(x, c0), Cum(x, c0, cs), KAt(x, c0, i)), CarryRow(x, c0, cs, i), d, d);
  }

  /** Any forward-substitution solution of the gated system is the recurrence's deltas. */
  lemma SolutionIsDeltas(x: Head, j: int, s0: int -> real, c0: int, d: int -> real, a: nat)
    requires IsExp(x.exp)
    requires forall p | 0 <= p <= a :: Solves(GatedRows(x, c0), Rhs(x, j, s0, c0), d, p)
    ensures d(a) == Deltas(x, j, s0, c0)(a)
  {
    hide Dot, Deltas, Rhs, GatedRow;
    forall p | 0 <= p <= a ensures Solves(GatedRows(x, c0), Rhs(x, j, s0, c0), Deltas(x, j, s0, c0), p) {
      DeltasSolve(x, j, s0, c0, p);
    }
    SolutionUnique(GatedRows(x, c0), Rhs(x, j, s0, c0), d, Deltas(x, j, s0, c0), a);
  }

  function GatedRows(x: Head, c0: int): int -> int -> real { a => GatedRow(x, c0, a) }

  /** The ungated strict-lower Gram system: L[a,m] = beta_a (k_a.k_m). */
  function UngatedRows(x: Head, c0: int): int -> int -> real { a => UngatedRow(x, c0, a) }

  function UngatedRow(x: Head, c0: int, a: int): int -> real { m => x.b(c0 + a) * Gram(x, c0, a, m) }

  function DecayRows(x: Head, c0: int): int -> int -> real { a => m => Decay(x, c0, a, m) }

  lemma DecayCocycle(x: Head, c0: int, n: nat)
    requires IsExp(x.exp)
    ensures Cocycle(DecayRows(x, c0), n)
  {
    hide Cum;
    forall a | 0 <= a < n ensures DecayRows(x, c0)(a)(a) == 1.0 {
      assert Cum(x, c0, a + 1) - Cum(x, c0, a + 1) == 0.0;
    }
    forall a, p, m | 0 <= m <= p <= a < n ensures Chains(DecayRows(x, c0), a, p, m) {
      ExpChain(x.exp, Cum(x, c0, a + 1), Cum(x, c0, p + 1), Cum(x, c0, m + 1));
    }
  }

  /** The gate put back entrywise on the ungated inverse inverts the gated system. */
  lemma GatedInverse(x: Head, c0: int, a: nat, m: nat)
    requires IsExp(x.exp) && m <= a
    ensures Inv(GatedRows(x, c0), a, m) == Inv(UngatedRows(x, c0), a, m) * Decay(x, c0, a, m)
  {
    hide Dot, Inv, Cum, Gram, Cocycle;
    DecayCocycle(x, c0, a + 1);
    forall a', p | 0 <= p < a' < a + 1 ensures SimilarAt(UngatedRows(x, c0), GatedRows(x, c0), DecayRows(x, c0), a',
        p) {
    }
    InverseSimilar(UngatedRows(x, c0), GatedRows(x, c0), DecayRows(x, c0), a + 1, a, m);
  }

  /** Row a of the gated inverse as the forward stage forms it. */
  function RegatedRow(x: Head, c0: int, a: int): int -> real { m => Inv(UngatedRows(x, c0), a, m) * Decay(x, c0, a, m) }

  /** The forward stage's deltas, formed without a solve, are the recurrence's deltas. */
  lemma RegatedIsDelta(x: Head, j: int, s0: int -> real, c0: int, a: nat)
    requires IsExp(x.exp)
    ensures Dot(0, a + 1, RegatedRow(x, c0, a), Rhs(x, j, s0, c0)) == Deltas(x, j, s0, c0)(a)
  {
    hide Dot, Deltas, Rhs, GatedRow, Inv, Decay, Solves;
    var A, r := GatedRows(x, c0), Rhs(x, j, s0, c0);
    forall p | 0 <= p <= a ensures Solves(A, r, InvTimes(A, r), p) { InverseSolves(A, r, p); }
    SolutionIsDeltas(x, j, s0, c0, InvTimes(A, r), a);
    forall m | 0 <= m < a + 1 ensures RegatedRow(x, c0, a)(m) == InvRow(A, a)(m) { GatedInverse(x, c0, a, m); }
    DotAgree(0, a + 1, RegatedRow(x, c0, a), InvRow(A, a), r, r);
  }
}
