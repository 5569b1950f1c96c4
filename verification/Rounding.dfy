/** std::round (half away from zero), absolute values and symmetric 8-bit quantisation of one value. */
module Rounding {

  function Abs(x: real): real { if x < 0.0 then -x else x }

  function Round(x: real): int { if x >= 0.0 then (x + 0.5).Floor else -((-x + 0.5).Floor) }

  lemma RoundNear(x: real)
    ensures Abs(Round(x) as real - x) <= 0.5
  {
  }

  /** Halves round away from zero; with RoundNear this fixes every value. */
  lemma RoundHalves(n: nat)
    ensures Round(n as real + 0.5) == n + 1 && Round(-(n as real) - 0.5) == -(n + 1)
  {
  }

  /** The nearest integer, ties away from zero, without naming the rounding. */
  lemma RoundInSource(x: real, q: int)
    ensures Round(x) == q <==>
              -0.5 <= q as real - x <= 0.5 && (q as real - x == 0.5 ==> x > 0.0) && (q as real - x == -0.5 ==> x < 0.0)
  {
  }

  lemma RoundInt(n: int)
    ensures Round(n as real) == n
  {
  }

  lemma RoundBound(x: real, n: int)
    requires 0 <= n && Abs(x) <= n as real
    ensures -n <= Round(x) <= n
  {
    RoundNear(x);
  }

  /** amax is the greatest magnitude among x(0..n-1), 0 for none. */
  ghost predicate IsAbsMax(x: int -> real, n: nat, amax: real) {
    && amax >= 0.0 && (forall i | 0 <= i < n :: Abs(x(i)) <= amax)
    && (amax > 0.0 ==> exists i :: 0 <= i < n && Abs(x(i)) == amax)
  }

  lemma AbsMaxUnique(x: int -> real, n: nat, a: real, b: real)
    requires IsAbsMax(x, n, a) && IsAbsMax(x, n, b)
    ensures a == b
  {
  }

  /** 127/amax, or 0 for an all-zero group. */
  function InvScale(amax: real): real
    requires amax >= 0.0
  {
    if amax > 0.0 then 127.0 / amax else 0.0
  }

  /** x in scale steps. */
  function Steps(x: real, amax: real): real
    requires amax >= 0.0
  {
    x * InvScale(amax)
  }

  function Scale(amax: real): real { amax / 127.0 }

  function Clamp(q: real): real { if q < -127.0 then -127.0 else if q > 127.0 then 127.0 else q }

  /** round(x * invScale), clamped to [-127, 127]. */
  function Quantise(x: real, amax: real): int
    requires amax >= 0.0
  {
    Clamp(Round(Steps(x, amax)) as real).Floor
  }

  lemma ProductSign(a: real, b: real)
    requires a >= 0.0 && b >= 0.0
    ensures a * b >= 0.0
  {
  }

  lemma ScaledBound(x: real, amax: real)
    requires amax > 0.0 && Abs(x) <= amax
    ensures Abs(x * (127.0 / amax)) <= 127.0
  {
    var c := 127.0 / amax;
    assert c > 0.0 && amax * c == 127.0;
    ScaledMagnitude(x, amax, c, amax * c);
  }

  lemma ScaledMagnitude(x: real, m: real, c: real, bound: real)
    requires c > 0.0 && Abs(x) <= m && bound == m * c
    ensures Abs(x * c) <= bound
  {
    ProductSign(m - x, c);
    ProductSign(m + x, c);
  }

  /** The clamp never changes a value. */
  lemma ClampIdle(x: real, amax: real)
    requires amax >= 0.0 && Abs(x) <= amax
    ensures Clamp(Round(Steps(x, amax)) as real) == Round(Steps(x, amax)) as real
    ensures Quantise(x, amax) == Round(Steps(x, amax)) && -127 <= Quantise(x, amax) <= 127
  {
    if amax > 0.0 {
      ScaledBound(x, amax);
    } else {
      assert x * 0.0 == 0.0;
    }
    RoundBound(Steps(x, amax), 127);
  }

  /** Dequantising errs by at most half a scale step. */
  lemma QuantiseNear(x: real, amax: real)
    requires amax >= 0.0 && Abs(x) <= amax
    ensures Abs(Scale(amax) * Quantise(x, amax) as real - x) <= Scale(amax) / 2.0
  {
    hide Quantise, Scale, Abs;
    if amax > 0.0 {
      PositiveNear(x, amax, Scale(amax), Quantise(x, amax) as real);
    } else {
      ZeroGroup(x, amax);
    }
  }

  lemma PositiveNear(x: real, amax: real, s: real, q: real)
    requires amax > 0.0 && Abs(x) <= amax && s == Scale(amax) && q == Quantise(x, amax) as real
    ensures Abs(s * q - x) <= s / 2.0
  {
    hide Quantise, Round, Clamp, Scale, InvScale, Steps, Abs;
    var c := InvScale(amax);
    ScaleInverts(amax, s, c);
    ClampIdle(x, amax);
    RoundNear(Steps(x, amax));
    StepsAre(x, amax, c);
    NearStep(s, c, x, q, Steps(x, amax));
  }

  lemma StepsAre(x: real, amax: real, c: real)
    requires amax >= 0.0 && c == InvScale(amax)
    ensures Steps(x, amax) == x * c
  {
  }

  lemma ScaleInverts(amax: real, s: real, c: real)
    requires amax > 0.0 && s == Scale(amax) && c == InvScale(amax)
    ensures s > 0.0 && s * c == 1.0
  {
    assert amax * c == 127.0 && 127.0 * s == amax;
    assert 127.0 * (s * c) == (127.0 * s) * c;
  }

  lemma ZeroGroup(x: real, amax: real)
    requires amax == 0.0 && Abs(x) <= amax
    ensures Abs(Scale(amax) * Quantise(x, amax) as real - x) <= Scale(amax) / 2.0
  {
    hide Quantise;
    assert Scale(amax) == 0.0 && x == 0.0;
  }

  lemma NearStep(s: real, c: real, x: real, q: real, y: real)
    requires s > 0.0 && s * c == 1.0 && y == x * c && Abs(q - y) <= 0.5
    ensures Abs(s * q - x) <= s / 2.0
  {
    var e := q - y;
    assert s * q - x == s * e by { assert s * (x * c) == x * (s * c); }
    HalfStep(s, e);
    HalfStep(s, -e);
  }

  lemma HalfStep(s: real, e: real)
    requires s > 0.0 && e <= 0.5
    ensures s * e <= s / 2.0
  {
    assert s * (0.5 - e) >= 0.0;
  }

  /** The value of greatest magnitude becomes +127 or -127. */
  lemma ExtremeSaturates(x: real, amax: real)
    requires amax > 0.0 && Abs(x) == amax
    ensures Quantise(x, amax) == if x > 0.0 then 127 else -127
  {
    ClampIdle(x, amax);
    var c := 127.0 / amax;
    assert amax * c == 127.0;
    assert x * c == if x > 0.0 then 127.0 else -127.0;
    RoundInt(127);
    RoundInt(-127);
  }

  /** The quant from the operands: 0 for an all-zero group, otherwise the integer nearest to x * 127/amax, ties away
      from zero, within [-127, 127]; and the scale is the 127th part of amax. */
  lemma QuantInSource(x: real, amax: real, q: int, z: real)
    requires amax >= 0.0 && Abs(x) <= amax && q == Quantise(x, amax)
    requires amax > 0.0 ==> z == x * (127.0 / amax)
    ensures -127 <= q <= 127 && (amax == 0.0 ==> q == 0)
    ensures amax > 0.0 ==>
              -0.5 <= q as real - z <= 0.5 && (q as real - z == 0.5 ==> z > 0.0) && (q as real - z == -0.5 ==> z < 0.0)
    ensures Scale(amax) * 127.0 == amax
  {
    hide Quantise, Round, Clamp;
    ClampIdle(x, amax);
    RoundInSource(Steps(x, amax), q);
    if amax == 0.0 { RoundInt(0); }
  }

  /** The greatest magnitude, spelled out. */
  lemma AbsMaxInSource(x: int -> real, n: nat, amax: real)
    ensures IsAbsMax(x, n, amax) <==>
              && amax >= 0.0 && (forall i | 0 <= i < n :: -amax <= x(i) <= amax)
              && (amax == 0.0 || exists i :: 0 <= i < n && (x(i) == amax || x(i) == -amax))
  {
    if IsAbsMax(x, n, amax) {
      forall i | 0 <= i < n ensures -amax <= x(i) <= amax { assert Abs(x(i)) <= amax; }
      if amax > 0.0 {
        var i :| 0 <= i < n && Abs(x(i)) == amax;
        assert x(i) == amax || x(i) == -amax;
      }
    }
    if amax >= 0.0 && (forall i | 0 <= i < n :: -amax <= x(i) <= amax)
       && (amax == 0.0 || exists i :: 0 <= i < n && (x(i) == amax || x(i) == -amax)) {
      if amax > 0.0 {
        var i :| 0 <= i < n && (x(i) == amax || x(i) == -amax);
        assert Abs(x(i)) == amax;
      }
    }
  }
}
