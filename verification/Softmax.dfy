/** Softmax-weighted means over a range of key positions, and why every stabilised, normalised,
    tiled or merged way of computing one gives the same number. */
module Softmax {
  import opened Sums
  import opened Exponential

  /** exp of each score after subtracting a common bias. */
  function Weights(exp: real -> real, s: int -> real, bias: real): int -> real { i => exp(s(i) - bias) }

  function Mass(exp: real -> real, lo: int, hi: int, s: int -> real, bias: real): real {
    Dot(lo, hi, Weights(exp, s, bias), One())
  }

  function Mixed(exp: real -> real, lo: int, hi: int, s: int -> real, bias: real, v: int -> real): real {
    Dot(lo, hi, Weights(exp, s, bias), v)
  }

  /** sum_i exp(s_i) v_i / sum_i exp(s_i) over [lo, hi); 0 on an empty range. */
  ghost function Mean(exp: real -> real, lo: int, hi: int, s: int -> real, v: int -> real): real {
    if Mass(exp, lo, hi, s, 0.0) == 0.0 then 0.0 else Mixed(exp, lo, hi, s, 0.0, v) / Mass(exp, lo, hi, s, 0.0)
  }

  /** m is the greatest score on [lo, hi). */
  ghost predicate IsMax(s: int -> real, lo: int, hi: int, m: real) {
    (exists i :: lo <= i < hi && s(i) == m) && forall i | lo <= i < hi :: s(i) <= m
  }

  /** A running maximum, one score at a time. */
  lemma MaxFirst(s: int -> real, lo: int)
    ensures IsMax(s, lo, lo + 1, s(lo))
  {
    assert s(lo) == s(lo);
  }

  lemma MaxStep(s: int -> real, lo: int, hi: int, m: real)
    requires lo <= hi && IsMax(s, lo, hi, m)
    ensures IsMax(s, lo, hi + 1, if s(hi) > m then s(hi) else m)
  {
    var i :| lo <= i < hi && s(i) == m;
    assert s(hi) > m || s(i) == m;
  }

  lemma {:induction false} DotPositive(lo: int, hi: int, f: int -> real)
    requires forall i | lo <= i < hi :: f(i) > 0.0
    ensures lo < hi ==> Dot(lo, hi, f, One()) > 0.0
    decreases hi - lo
  {
    if lo < hi { DotPositive(lo, hi - 1, f); }
  }

  lemma MassPositive(exp: real -> real, lo: int, hi: int, s: int -> real, bias: real)
    requires IsExp(exp)
    ensures lo < hi ==> Mass(exp, lo, hi, s, bias) > 0.0
    ensures hi <= lo ==> Mass(exp, lo, hi, s, bias) == 0.0
  {
    forall i | lo <= i < hi ensures Weights(exp, s, bias)(i) > 0.0 { ExpPositive(exp, s(i) - bias); }
    DotPositive(lo, hi, Weights(exp, s, bias));
  }

  /** Changing the bias from b to c multiplies every weighted sum by exp(b - c). */
  lemma Rebias(exp: real -> real, lo: int, hi: int, s: int -> real, b: real, c: real, v: int -> real)
    requires IsExp(exp)
    ensures Mixed(exp, lo, hi, s, c, v) == exp(b - c) * Mixed(exp, lo, hi, s, b, v)
  {
    hide Dot;
    forall i | lo <= i < hi ensures Weights(exp, s, c)(i) == Scaled(exp(b - c), Weights(exp, s, b))(i) {
      ExpChain(exp, s(i), b, c);
    }
    DotAgree(lo, hi, Weights(exp, s, c), Scaled(exp(b - c), Weights(exp, s, b)), v, v);
    DotScaled(lo, hi, exp(b - c), Weights(exp, s, b), v);
  }

  /** Any bias gives the mean: the max shift cancels. */
  lemma BiasCancels(exp: real -> real, lo: int, hi: int, s: int -> real, bias: real, v: int -> real)
    requires IsExp(exp) && lo < hi
    ensures Mass(exp, lo, hi, s, bias) > 0.0
    ensures Mean(exp, lo, hi, s, v) == Mixed(exp, lo, hi, s, bias, v) / Mass(exp, lo, hi, s, bias)
  {
    hide Dot;
    MassPositive(exp, lo, hi, s, bias);
    MassPositive(exp, lo, hi, s, 0.0);
    Rebias(exp, lo, hi, s, bias, 0.0, v);
    Rebias(exp, lo, hi, s, bias, 0.0, One());
    ExpPositive(exp, bias - 0.0);
    CancelFactor(exp(bias - 0.0), Mixed(exp, lo, hi, s, bias, v), Mass(exp, lo, hi, s, bias));
  }

  lemma CancelFactor(c: real, a: real, b: real)
    requires c > 0.0 && b > 0.0
    ensures c * b > 0.0 && (c * a) / (c * b) == a / b
  {
    var q := a / b;
    assert a == q * b;
    assert c * a == q * (c * b);
  }

  /** What subtracting the maximum buys: every exponent is at most 0, so no weight exceeds 1, and the
      mass lies between 1 and the number of keys. */
  lemma MaxShiftStable(exp: real -> real, lo: int, hi: int, s: int -> real, m: real)
    requires IsExp(exp) && IsMax(s, lo, hi, m)
    ensures forall i | lo <= i < hi :: 0.0 < Weights(exp, s, m)(i) <= 1.0
    ensures 1.0 <= Mass(exp, lo, hi, s, m) <= (hi - lo) as real
  {
    hide Dot;
    var w := Weights(exp, s, m);
    forall i | lo <= i < hi ensures 0.0 < w(i) <= 1.0 { ExpDecay(exp, s(i) - m); }
    var top :| lo <= top < hi && s(top) == m;
    assert w(top) == 1.0 by { assert s(top) - m == 0.0; }
    MassBounds(lo, hi, w, top);
  }

  lemma {:induction false} MassBounds(lo: int, hi: int, w: int -> real, top: int)
    requires lo <= hi && forall i | lo <= i < hi :: 0.0 < w(i) <= 1.0
    ensures 0.0 <= Dot(lo, hi, w, One()) <= (hi - lo) as real
    ensures lo <= top < hi && w(top) == 1.0 ==> Dot(lo, hi, w, One()) >= 1.0
    decreases hi - lo
  {
    if lo < hi { MassBounds(lo, hi - 1, w, top); }
  }

  /** The mean times the sum of the weights is the weighted sum; no value over an empty range. */
  lemma MeanInSource(exp: real -> real, lo: int, hi: int, s: int -> real, v: int -> real)
    requires IsExp(exp)
    ensures Mean(exp, lo, hi, s, v) * Dot(lo, hi, Weights(exp, s, 0.0), One()) == Dot(lo, hi, Weights(exp, s, 0.0), v)
    ensures hi <= lo ==> Mean(exp, lo, hi, s, v) == 0.0
  {
    hide Dot, Weights, IsExp;
    MassPositive(exp, lo, hi, s, 0.0);
    DotPeel(lo, hi, Weights(exp, s, 0.0), v);
  }

  /** Normalising the weights before the V sum is the same as dividing after it. */
  lemma NormaliseFirst(exp: real -> real, lo: int, hi: int, s: int -> real, bias: real, inv: real, v: int -> real)
    requires IsExp(exp) && (lo < hi ==> Mass(exp, lo, hi, s, bias) > 0.0 && inv == 1.0 / Mass(exp, lo, hi, s, bias))
    ensures Dot(lo, hi, Scaled(inv, Weights(exp, s, bias)), v) == Mean(exp, lo, hi, s, v)
  {
    hide Dot;
    DotScaled(lo, hi, inv, Weights(exp, s, bias), v);
    if lo < hi {
      BiasCancels(exp, lo, hi, s, bias, v);
      DivideIsTimes(Mixed(exp, lo, hi, s, bias, v), Mass(exp, lo, hi, s, bias));
    } else {
      DotPeel(lo, hi, Weights(exp, s, bias), v);
      MassPositive(exp, lo, hi, s, 0.0);
    }
  }

  lemma DivideIsTimes(a: real, b: real)
    requires b > 0.0
    ensures (1.0 / b) * a == a / b
  {
    var q := a / b;
    assert a == q * b;
    assert (1.0 / b) * (q * b) == q * ((1.0 / b) * b);
  }

  /** Each mean lies between the least and greatest value in the range. */
  lemma MeanBounded(exp: real -> real, lo: int, hi: int, s: int -> real, v: int -> real, least: real, greatest: real)
    requires IsExp(exp) && lo < hi
    requires forall i | lo <= i < hi :: least <= v(i) <= greatest
    ensures least <= Mean(exp, lo, hi, s, v) <= greatest
  {
    var w := Weights(exp, s, 0.0);
    forall i | lo <= i < hi ensures w(i) > 0.0 { ExpPositive(exp, s(i) - 0.0); }
    DotBetween(lo, hi, w, v, least, greatest);
    MassPositive(exp, lo, hi, s, 0.0);
    BiasCancels(exp, lo, hi, s, 0.0, v);
    RatioBetween(Mixed(exp, lo, hi, s, 0.0, v), Mass(exp, lo, hi, s, 0.0), least, greatest);
  }

  lemma {:induction false} DotBetween(lo: int, hi: int, w: int -> real, v: int -> real, least: real, greatest: real)
    requires forall i | lo <= i < hi :: w(i) > 0.0 && least <= v(i) <= greatest
    ensures least * Dot(lo, hi, w, One()) <= Dot(lo, hi, w, v) <= greatest * Dot(lo, hi, w, One())
    decreases hi - lo
  {
    if lo < hi {
      DotBetween(lo, hi - 1, w, v, least, greatest);
      DotPeel(lo, hi - 1, w, v);
      DotPeel(lo, hi - 1, w, One());
      BetweenStep(least, greatest, Dot(lo, hi - 1, w, One()), Dot(lo, hi - 1, w, v), w(hi - 1), v(hi - 1));
    }
  }

  lemma BetweenStep(least: real, greatest: real, mass: real, sum: real, w: real, v: real)
    requires w > 0.0 && least <= v <= greatest && least * mass <= sum <= greatest * mass
    ensures least * (mass + w * 1.0) <= sum + w * v <= greatest * (mass + w * 1.0)
  {
    assert w * (v - least) >= 0.0 && w * (greatest - v) >= 0.0;
  }

  lemma RatioBetween(a: real, b: real, least: real, greatest: real)
    requires b > 0.0 && least * b <= a <= greatest * b
    ensures least <= a / b <= greatest
  {
    var q := a / b;
    assert a == q * b;
    NonNegativeFactor(q - least, b);
    NonNegativeFactor(greatest - q, b);
  }

  lemma NonNegativeFactor(x: real, b: real)
    requires b > 0.0 && x * b >= 0.0
    ensures x >= 0.0
  {
  }

  /** The mean only sees scores and values inside its range. */
  lemma MeanLocal(exp: real -> real, lo: int, hi: int, s: int -> real, s': int -> real, v: int -> real, v': int -> real)
    requires Agree(lo, hi, s, s') && Agree(lo, hi, v, v')
    ensures Mean(exp, lo, hi, s, v) == Mean(exp, lo, hi, s', v')
  {
    hide Dot;
    DotAgree(lo, hi, Weights(exp, s, 0.0), Weights(exp, s', 0.0), v, v');
    DotAgree(lo, hi, Weights(exp, s, 0.0), Weights(exp, s', 0.0), One(), One());
  }
}
