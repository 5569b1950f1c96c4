/** deltanetGate, and the consequence the staged form is built on: with a non-positive decay
    coefficient no decay factor anywhere exceeds 1. */
module Gate {
  import opened Buffers
  import opened Exponential
  import opened ChunkAlgebra
  import opened DeltaNet
  import opened ChunkStages
  import opened ThreeStage

  /** log1p inverts exp(.) - 1 on positive arguments. */
  ghost predicate LogLaw(exp: real -> real, log1p: real -> real, y: real) { y > 0.0 ==> exp(log1p(y)) == 1.0 + y }

  ghost predicate IsLog1p(exp: real -> real, log1p: real -> real) { forall y :: LogLaw(exp, log1p, y) }

  function Softplus(exp: real -> real, log1p: real -> real, x: real): real {
    if x > 0.0 then x + log1p(exp(-x)) else log1p(exp(x))
  }

  /** Both branches are the logarithm of 1 + exp(x), and it is positive. */
  lemma SoftplusIsLog(exp: real -> real, log1p: real -> real, x: real)
    requires IsExp(exp) && IsLog1p(exp, log1p)
    ensures exp(Softplus(exp, log1p, x)) == 1.0 + exp(x)
    ensures Softplus(exp, log1p, x) > 0.0
  {
    var sp := Softplus(exp, log1p, x);
    ExpPositive(exp, x);
    ExpPositive(exp, -x);
    assert LogLaw(exp, log1p, exp(x)) && LogLaw(exp, log1p, exp(-x));
    if x > 0.0 {
      ExpSum(exp, x, log1p(exp(-x)));
      ExpSum(exp, x, -x);
      assert x + -x == 0.0;
      assert exp(x) * (1.0 + exp(-x)) == exp(x) + exp(x) * exp(-x);
    }
    assert Monotone(exp, sp, 0.0);
  }

  /** gLog[t,h] = ssmA[h] * softplus(alpha[t,h] + ssmDt[h]). */
  function GateOf(exp: real -> real, log1p: real -> real, alpha: seq<real>, ssmA: seq<real>, ssmDt: seq<real>, H: nat,
                  t: int, h: int): real
  {
    Cell(ssmA, H, 0, h) * Softplus(exp, log1p, Cell(alpha, H, t, h) + Cell(ssmDt, H, 0, h))
  }

  /** The gate's two branches, from the operands. */
  lemma BranchesInSource(exp: real -> real, log1p: real -> real, alpha: seq<real>, ssmA: seq<real>, ssmDt: seq<real>,
                         H: nat, t: int, h: int, x: real, y: real)
    requires x == Cell(alpha, H, t, h) + Cell(ssmDt, H, 0, h)
    requires y == if x > 0.0 then x + log1p(exp(-x)) else log1p(exp(x))
    ensures GateOf(exp, log1p, alpha, ssmA, ssmDt, H, t, h) == Cell(ssmA, H, 0, h) * y
  {
    hide Cell;
  }

  method DeltanetGate(exp: real -> real, log1p: real -> real, alpha: seq<real>, ssmA: seq<real>, ssmDt: seq<real>,
                      gLog: array<real>, T: nat, H: nat)
    requires |alpha| == T * H && |ssmA| == |ssmDt| == H && gLog.Length == T * H
    modifies gLog
    ensures forall t, h | 0 <= t < T && 0 <= h < H ::
        Cell(gLog[..], H, t, h) == GateOf(exp, log1p, alpha, ssmA, ssmDt, H, t, h)
  {
    hide Cell, Softplus;
    for t := 0 to T
      invariant forall t', h | 0 <= t' < t && 0 <= h < H ::
                Cell(gLog[..], H, t', h) == GateOf(exp, log1p, alpha, ssmA, ssmDt, H, t', h)
    {
      RowBound(t, T, H);
      ghost var before := gLog[..];
      for h := 0 to H
        invariant OnlyRow(before, gLog[..], H, t)
        invariant forall h' | 0 <= h' < h ::
            Cell(gLog[..], H, t, h') == GateOf(exp, log1p, alpha, ssmA, ssmDt, H, t, h')
      {
        var sp := Softplus(exp, log1p, At(alpha, H, t, h) + At(ssmDt, H, 0, h));
        SetCell(gLog, H, t, h, At(ssmA, H, 0, h) * sp);
      }
    }
  }

  lemma GateDecays(x: Net, log1p: real -> real, alpha: seq<real>, ssmA: seq<real>, ssmDt: seq<real>)
    requires IsExp(x.exp) && IsLog1p(x.exp, log1p)
    requires forall h | 0 <= h < x.H :: Cell(ssmA, x.H, 0, h) <= 0.0
    requires forall t, h | 0 <= t < x.T && 0 <= h < x.H ::
             Cell(x.gLog, x.H, t, h) == GateOf(x.exp, log1p, alpha, ssmA, ssmDt, x.H, t, h)
    ensures Decays(x)
  {
    forall t, h | 0 <= t < x.T && 0 <= h < x.H ensures Cell(x.gLog, x.H, t, h) <= 0.0 {
      hide Softplus, IsLog1p;
      var arg := Cell(alpha, x.H, t, h) + Cell(ssmDt, x.H, 0, h);
      SoftplusIsLog(x.exp, log1p, arg);
      NonPositiveProduct(Cell(ssmA, x.H, 0, h), Softplus(x.exp, log1p, arg));
    }
  }

  lemma NonPositiveProduct(a: real, b: real)
    requires a <= 0.0 && b > 0.0
    ensures a * b <= 0.0
  {
  }

  /** Every decay factor of a chunk, exp(G_a), exp(G_a - G_m) with m <= a (m = last included) and a token's
      own exp(g), lies in (0, 1]. The three forms reach the exponential only through DeltaNet.DecayFactor,
      whose precondition is discharged at each call from ChunkStages.DecayExponents. */
  lemma DecayFactors(x: Net, h: nat, c0: nat, a: nat, m: nat)
    requires Decays(x) && IsExp(x.exp) && h < x.H && m <= a && c0 + a < x.T
    ensures Cum(x.HeadOf(h), c0, a + 1) <= 0.0 && 0.0 < x.exp(Cum(x.HeadOf(h), c0, a + 1)) <= 1.0
    ensures 0.0 < Decay(x.HeadOf(h), c0, a, m) <= 1.0
    ensures 0.0 < x.exp(x.HeadOf(h).g(c0 + a)) <= 1.0
  {
    hide Cell, Cum;
    var hd := x.HeadOf(h);
    DecayExponents(x, h, c0, a, m);
    ExpDecay(x.exp, Cum(hd, c0, a + 1));
    ExpDecay(x.exp, Cum(hd, c0, a + 1) - Cum(hd, c0, m + 1));
    ExpDecay(x.exp, hd.g(c0 + a));
  }

  /** The hand-off gate buffer: non-positive, restarted from the raw gate at every chunk boundary, and
      non-increasing in between. */
  lemma BufferFalls(x: Net, C: nat, gCum: seq<real>, t: nat, h: nat)
    requires C > 0 && Decays(x) && GateBuffer(x, C, gCum) && t < x.T && h < x.H
    ensures Cell(gCum, x.H, t, h) <= 0.0
    ensures t % C == 0 ==> Cell(gCum, x.H, t, h) == Cell(x.gLog, x.H, t, h)
    ensures t % C != 0 ==> Cell(gCum, x.H, t, h) <= Cell(gCum, x.H, t - 1, h)
  {
    hide Cell, Cum;
    var c0, a := t / C * C, t % C;
    CellOf(t, C);
    RowBoundLe(0, t / C, C);
    CumNext(x, h, c0, -1);
    CumNext(x, h, c0, a);
    CumFalls(x, h, c0, 0, a + 1);
    assert Cell(gCum, x.H, t, h) == GateAt(x, C, t, h);
    if a != 0 {
      DivMod(t / C, C, a - 1);
      assert GateAt(x, C, t - 1, h) == Cum(x.HeadOf(h), c0, a);
      CumFalls(x, h, c0, a, a + 1);
      assert Cell(gCum, x.H, t - 1, h) == GateAt(x, C, t - 1, h);
    }
  }
}
