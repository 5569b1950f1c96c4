/** multiHeadAttention: grouped-query softmax attention over a causal, optionally sliding window. */
module Attention {
  import opened Sums
  import opened Buffers
  import opened Exponential
  import opened Softmax

  /** Read-only operands: q [T_q,nHeads,D], k and v [T_k,nKv,D]; `scale` <= 0 asks for 1/sqrt(D). */
  datatype Attn = Attn(nHeads: nat, nKv: nat, D: nat, q: seq<real>, k: seq<real>, v: seq<real>,
                       scale: real, invSqrtDim: real, exp: real -> real)
  {
    predicate ValidHeads() { nKv != 0 && nHeads != 0 && nHeads % nKv == 0 }

    ghost predicate Shaped(Tq: nat, Tk: nat) { |q| == Tq * nHeads * D && |k| == |v| == Tk * nKv * D }

    function EffectiveScale(): real { if scale > 0.0 then scale else invSqrtDim }
  }

  /** The shapes a call demands, and nothing else. */
  lemma ShapedFrom(a: Attn, Tq: nat, Tk: nat)
    requires |a.q| == Tq * a.nHeads * a.D && |a.k| == |a.v| == Tk * a.nKv * a.D
    ensures a.Shaped(Tq, Tk)
  {
  }

  function KvHead(a: Attn, hq: nat): int
    requires a.nHeads > 0
  {
    hq * a.nKv / a.nHeads
  }

  /** Score of each key position for q row `row` against kv head `kvh`. */
  function Scores(a: Attn, row: int, kvh: int): int -> real { ScaledScores(a, row, kvh, a.EffectiveScale()) }

  function ScaledScores(a: Attn, row: int, kvh: int, scale: real): int -> real {
    kk => Dot(0, a.D, Row(a.q, a.D, row), Row(a.k, a.D, kk * a.nKv + kvh)) * scale
  }

  function Values(a: Attn, kvh: int, d: int): int -> real { kk => Cell(a.v, a.D, kk * a.nKv + kvh, d) }

  function Min(a: int, b: int): int { if a < b then a else b }

  /** End and start of the live window for the query at absolute position `pos`. */
  function WindowEnd(pos: nat, Tk: nat): nat { Min(pos + 1, Tk) }

  function WindowStart(pos: nat, Tk: nat, window: nat): nat {
    if window > 0 && WindowEnd(pos, Tk) > window then WindowEnd(pos, Tk) - window else 0
  }

  /** Output coordinate d of query row p, head hq: the softmax mean over the window. */
  ghost function HeadOut(a: Attn, p: int, hq: nat, lo: int, hi: int, d: int): real
    requires a.nHeads > 0
  {
    Mean(a.exp, lo, hi, Scores(a, p * a.nHeads + hq, KvHead(a, hq)), Values(a, KvHead(a, hq), d))
  }

  datatype Outcome = Done | BadHeads

  /** Running maximum that starts at minus infinity. */
  datatype Extended = NegInf | Fin(value: real)

  function Max(m: Extended, x: real): Extended { if m.NegInf? || x > m.value then Fin(x) else m }

  lemma KvHeadBound(a: Attn, hq: nat)
    requires a.ValidHeads() && hq < a.nHeads
    ensures 0 <= KvHead(a, hq) < a.nKv
  {
    RowOrder(hq, a.nHeads, a.nKv);
    assert hq * a.nKv < a.nKv * a.nHeads;
    QuotientBound(hq * a.nKv, a.nHeads, a.nKv);
  }

  lemma KvRow(a: Attn, Tk: nat, kk: nat, kvh: nat)
    requires kk < Tk && kvh < a.nKv
    ensures 0 <= kk * a.nKv + kvh && HasRow(Tk * a.nKv * a.D, a.D, kk * a.nKv + kvh)
  {
    RowBound(kk, Tk, a.nKv);
    RowBound(kk * a.nKv + kvh, Tk * a.nKv, a.D);
  }

  lemma QRow(a: Attn, Tq: nat, p: nat, hq: nat)
    requires p < Tq && hq < a.nHeads
    ensures 0 <= p * a.nHeads + hq && HasRow(Tq * a.nHeads * a.D, a.D, p * a.nHeads + hq)
  {
    RowBound(p, Tq, a.nHeads);
    RowBound(p * a.nHeads + hq, Tq * a.nHeads, a.D);
  }

  /** q . k over one head, accumulated in order. */
  method ScoreOf(a: Attn, row: nat, krow: nat, scale: real) returns (s: real)
    requires HasRow(|a.q|, a.D, row) && HasRow(|a.k|, a.D, krow)
    ensures s == Dot(0, a.D, Row(a.q, a.D, row), Row(a.k, a.D, krow)) * scale
  {
    hide Cell;
    var acc := 0.0;
    for d := 0 to a.D
      invariant acc == Dot(0, d, Row(a.q, a.D, row), Row(a.k, a.D, krow))
    {
      acc := acc + At(a.q, a.D, row, d) * At(a.k, a.D, krow, d);
    }
    s := acc * scale;
  }

  /** Scores on the window, zeros above it. */
  method FillScores(a: Attn, Tk: nat, row: nat, kvh: nat, lo: nat, hi: nat, scratch: array<real>)
    requires lo <= hi <= Tk <= scratch.Length && kvh < a.nKv
    requires HasRow(|a.q|, a.D, row) && |a.k| == Tk * a.nKv * a.D
    modifies scratch
    ensures forall i | lo <= i < hi :: scratch[i] == Scores(a, row, kvh)(i)
    ensures forall i | hi <= i < Tk :: scratch[i] == 0.0
  {
    hide Dot, Cell;
    for kk := lo to hi
      invariant forall i | lo <= i < kk :: scratch[i] == Scores(a, row, kvh)(i)
    {
      KvRow(a, Tk, kk, kvh);
      var s := ScoreOf(a, row, kk * a.nKv + kvh, a.EffectiveScale());
      assert s == Scores(a, row, kvh)(kk);
      scratch[kk] := s;
    }
    for kk := hi to Tk
      invariant forall i | lo <= i < hi :: scratch[i] == Scores(a, row, kvh)(i)
      invariant forall i | hi <= i < kk :: scratch[i] == 0.0
    {
      scratch[kk] := 0.0;
    }
  }

  /** The greatest score of the window, minus infinity if it is empty. */
  method MaxScore(lo: nat, hi: nat, scratch: array<real>, ghost s: int -> real) returns (m: Extended)
    requires lo <= hi <= scratch.Length && forall i | lo <= i < hi :: scratch[i] == s(i)
    ensures if lo < hi then m.Fin? && IsMax(s, lo, hi, m.value) else m.NegInf?
  {
    hide IsMax;
    m := NegInf;
    for kk := lo to hi
      invariant if lo < kk then m.Fin? && IsMax(s, lo, kk, m.value) else m.NegInf?
    {
      assert scratch[kk] == s(kk);
      if kk == lo { MaxFirst(s, lo); } else { MaxStep(s, lo, kk, m.value); }
      m := Max(m, scratch[kk]);
    }
  }

  /** Replace the scores on the window by normalised softmax weights. */
  method SoftmaxInPlace(exp: real -> real, lo: nat, hi: nat, scratch: array<real>, ghost s: int -> real)
    returns (ghost bias: real, ghost inv: real)
    requires IsExp(exp) && lo <= hi <= scratch.Length
    requires forall i | lo <= i < hi :: scratch[i] == s(i)
    modifies scratch
    ensures lo < hi ==>
        IsMax(s, lo, hi, bias) && Mass(exp, lo, hi, s, bias) > 0.0 && inv == 1.0 / Mass(exp, lo, hi, s, bias)
    ensures forall i | lo <= i < hi :: scratch[i] == Scaled(inv, Weights(exp, s, bias))(i)
  {
    hide Dot, Mass, Scaled, Weights, IsMax;
    var maxScore := MaxScore(lo, hi, scratch, s);
    var shift := if maxScore.Fin? then maxScore.value else 0.0;
    bias := shift;
    var sumExp := Exponentiate(exp, lo, hi, scratch, s, shift);
    MassPositive(exp, lo, hi, s, shift);
    var invSum := if sumExp > 0.0 then 1.0 / sumExp else 0.0;
    inv := invSum;
    Normalise(lo, hi, scratch, Weights(exp, s, shift), invSum);
  }

  method Normalise(lo: nat, hi: nat, scratch: array<real>, ghost w: int -> real, c: real)
    requires lo <= hi <= scratch.Length && forall i | lo <= i < hi :: scratch[i] == w(i)
    modifies scratch
    ensures forall i | lo <= i < hi :: scratch[i] == Scaled(c, w)(i)
  {
    for kk := lo to hi
      invariant forall i | lo <= i < kk :: scratch[i] == Scaled(c, w)(i)
      invariant forall i | kk <= i < hi :: scratch[i] == w(i)
    {
      assert Scaled(c, w)(kk) == w(kk) * c;
      scratch[kk] := scratch[kk] * c;
    }
  }

  method Exponentiate(exp: real -> real, lo: nat, hi: nat, scratch: array<real>, ghost s: int -> real, shift: real)
    returns (sumExp: real)
    requires lo <= hi <= scratch.Length && forall i | lo <= i < hi :: scratch[i] == s(i)
    modifies scratch
    ensures sumExp == Mass(exp, lo, hi, s, shift)
    ensures forall i | lo <= i < hi :: scratch[i] == Weights(exp, s, shift)(i)
  {
    hide Dot;
    sumExp := 0.0;
    DotPeel(lo, lo, Weights(exp, s, shift), One());
    for kk := lo to hi
      invariant sumExp == Dot(lo, kk, Weights(exp, s, shift), One())
      invariant forall i | lo <= i < kk :: scratch[i] == Weights(exp, s, shift)(i)
      invariant forall i | kk <= i < hi :: scratch[i] == s(i)
    {
      var e := exp(scratch[kk] - shift);
      scratch[kk] := e;
      DotPeel(lo, kk, Weights(exp, s, shift), One());
      sumExp := sumExp + e;
    }
  }

  /** out[d] = sum_kk weight[kk] * v[kk,d]. */
  method WeightedValues(a: Attn, Tk: nat, kvh: nat, lo: nat, hi: nat, scratch: array<real>, ghost w: int -> real,
                        out: array<real>, row: nat)
    requires lo <= hi <= Tk <= scratch.Length && kvh < a.nKv && |a.v| == Tk * a.nKv * a.D
    requires HasRow(out.Length, a.D, row) && out != scratch
    requires forall i | lo <= i < hi :: scratch[i] == w(i)
    modifies out
    ensures forall d | 0 <= d < a.D :: Cell(out[..], a.D, row, d) == Dot(lo, hi, w, Values(a, kvh, d))
    ensures OnlyRow(old(out[..]), out[..], a.D, row)
  {
    hide Dot, Cell;
    for d := 0 to a.D
      invariant forall d' | 0 <= d' < d :: Cell(out[..], a.D, row, d') == Dot(lo, hi, w, Values(a, kvh, d'))
      invariant OnlyRow(old(out[..]), out[..], a.D, row)
    {
      var acc := ValueSum(a, Tk, kvh, lo, hi, scratch[..], w, d);
      SetCell(out, a.D, row, d, acc);
    }
  }

  method ValueSum(a: Attn, Tk: nat, kvh: nat, lo: nat, hi: nat, weights: seq<real>, ghost w: int -> real, d: nat)
    returns (acc: real)
    requires lo <= hi <= Tk && hi <= |weights| && kvh < a.nKv && d < a.D && |a.v| == Tk * a.nKv * a.D
    requires forall i | lo <= i < hi :: weights[i] == w(i)
    ensures acc == Dot(lo, hi, w, Values(a, kvh, d))
  {
    hide Dot, Cell;
    acc := 0.0;
    DotPeel(lo, lo, w, Values(a, kvh, d));
    for kk := lo to hi
      invariant acc == Dot(lo, kk, w, Values(a, kvh, d))
    {
      KvRow(a, Tk, kk, kvh);
      DotPeel(lo, kk, w, Values(a, kvh, d));
      acc := acc + weights[kk] * At(a.v, a.D, kk * a.nKv + kvh, d);
    }
  }

  /** One (head, query) row. */
  method AttendRow(a: Attn, Tq: nat, Tk: nat, p: nat, hq: nat, offset: nat, window: nat, scratch: array<real>,
                   out: array<real>)
    requires a.ValidHeads() && a.Shaped(Tq, Tk) && IsExp(a.exp) && p < Tq && hq < a.nHeads
    requires Tk <= scratch.Length && out.Length == Tq * a.nHeads * a.D && out != scratch
    modifies scratch, out
    ensures RowDone(a, out[..], p, hq, offset, Tk, window)
    ensures OnlyRow(old(out[..]), out[..], a.D, p * a.nHeads + hq)
  {
    hide Dot, Cell, Scores, Scaled, Weights, Mass, Mean, Values;
    KvHeadBound(a, hq);
    QRow(a, Tq, p, hq);
    var row, kvh := p * a.nHeads + hq, KvHead(a, hq);
    var hi, lo := WindowEnd(offset + p, Tk), WindowStart(offset + p, Tk, window);
    ghost var s := Scores(a, row, kvh);
    FillScores(a, Tk, row, kvh, lo, hi, scratch);
    ghost var bias, inv := SoftmaxInPlace(a.exp, lo, hi, scratch, s);
    ghost var w := Scaled(inv, Weights(a.exp, s, bias));
    WeightedValues(a, Tk, kvh, lo, hi, scratch, w, out, row);
    forall d | 0 <= d < a.D ensures Cell(out[..], a.D, row, d) == HeadOut(a, p, hq, lo, hi, d) {
      NormaliseFirst(a.exp, lo, hi, s, bias, inv, Values(a, kvh, d));
    }
  }

  function OutAt(a: Attn, out: seq<real>, p: int, hq: int, d: int): real { Cell(out, a.D, p * a.nHeads + hq, d) }

  /** Row (p,hq) of the output. */
  ghost predicate RowOut(a: Attn, out: seq<real>, p: nat, hq: nat, lo: int, hi: int)
    requires a.nHeads > 0
  {
    forall d | 0 <= d < a.D :: OutAt(a, out, p, hq, d) == HeadOut(a, p, hq, lo, hi, d)
  }

  ghost predicate RowDone(a: Attn, out: seq<real>, p: nat, hq: nat, offset: nat, Tk: nat, window: nat)
    requires a.nHeads > 0
  {
    RowOut(a, out, p, hq, WindowStart(offset + p, Tk, window), WindowEnd(offset + p, Tk))
  }

  /** Rows before (hq,p) in loop order. */
  ghost predicate RowsSoFar(a: Attn, out: seq<real>, Tq: nat, hq: nat, p: nat, offset: nat, Tk: nat, window: nat)
    requires a.nHeads > 0
  {
    forall p', hq' | 0 <= p' < Tq && 0 <= hq' < a.nHeads && (hq' < hq || (hq' == hq && p' < p)) ::
      RowDone(a, out, p', hq', offset, Tk, window)
  }

  lemma RowsStep(a: Attn, o1: seq<real>, o2: seq<real>, Tq: nat, hq: nat, p: nat, offset: nat, Tk: nat, window: nat)
    requires a.nHeads > 0 && hq < a.nHeads && p < Tq && RowsSoFar(a, o1, Tq, hq, p, offset, Tk, window)
    requires OnlyRow(o1, o2, a.D, p * a.nHeads + hq) && RowDone(a, o2, p, hq, offset, Tk, window)
    ensures RowsSoFar(a, o2, Tq, hq, p + 1, offset, Tk, window)
  {
    hide Cell, HeadOut, WindowStart, WindowEnd;
    forall p', hq' | 0 <= p' < Tq && 0 <= hq' < a.nHeads && (hq' < hq || (hq' == hq && p' < p))
      ensures RowDone(a, o2, p', hq', offset, Tk, window)
    {
      assert RowDone(a, o1, p', hq', offset, Tk, window);
      if p' != p { RowsApart(p', p, a.nHeads, hq', hq); }
    }
  }

  method MultiHeadAttention(a: Attn, Tq: nat, Tk: nat, offset: nat, scratch: array<real>, out: array<real>, window: nat)
    returns (r: Outcome)
    requires a.ValidHeads() ==> a.Shaped(Tq, Tk) && Tk <= scratch.Length && out.Length == Tq * a.nHeads * a.D
    requires IsExp(a.exp) && out != scratch
    modifies scratch, out
    ensures r.Done? <==> a.nKv != 0 && a.nHeads != 0 && a.nHeads % a.nKv == 0
    ensures r.Done? ==> forall p, hq | 0 <= p < Tq && 0 <= hq < a.nHeads ::
            RowDone(a, out[..], p, hq, offset, Tk, window)
    ensures r.Done? ==> forall p: nat, hq: nat, lo, hi | p < Tq && hq < a.nHeads
              && hi == (if offset + p + 1 < Tk then offset + p + 1 else Tk)
              && lo == (if window == 0 || hi <= window then 0 else hi - window) :: RowOut(a, out[..], p, hq, lo, hi)
    ensures r.BadHeads? ==> out[..] == old(out[..]) && scratch[..] == old(scratch[..])
  {
    if a.nKv == 0 || a.nHeads == 0 || a.nHeads % a.nKv != 0 {
      return BadHeads;
    }
    hide RowDone, WindowStart, WindowEnd, HeadOut;
    for hq := 0 to a.nHeads
      invariant RowsSoFar(a, out[..], Tq, hq, 0, offset, Tk, window)
    {
      for p := 0 to Tq
        invariant RowsSoFar(a, out[..], Tq, hq, p, offset, Tk, window)
      {
        ghost var before := out[..];
        AttendRow(a, Tq, Tk, p, hq, offset, window, scratch, out);
        RowsStep(a, before, out[..], Tq, hq, p, offset, Tk, window);
      }
    }
    forall p: nat, hq: nat, lo, hi | p < Tq && hq < a.nHeads
      && hi == (if offset + p + 1 < Tk then offset + p + 1 else Tk)
      && lo == (if window == 0 || hi <= window then 0 else hi - window) ensures RowOut(a, out[..], p, hq, lo, hi) {
      assert RowDone(a, out[..], p, hq, offset, Tk, window);
      LiveWindow(a, out[..], p, hq, offset, Tk, window, lo, hi);
    }
    return Done;
  }

  /** The window in the source's terms: it ends after the query's own position or with the cache, and starts
      `window` keys before its end, or at 0. */
  lemma LiveWindow(a: Attn, out: seq<real>, p: nat, hq: nat, offset: nat, Tk: nat, window: nat, lo: int, hi: int)
    requires a.nHeads > 0 && hi == (if offset + p + 1 < Tk then offset + p + 1 else Tk)
    requires lo == (if window == 0 || hi <= window then 0 else hi - window)
    ensures RowDone(a, out, p, hq, offset, Tk, window) <==> RowOut(a, out, p, hq, lo, hi)
  {
    hide RowOut;
  }

  /** A row over the keys [lo, hi), from the operands: coordinate d is the mean of v[kk, hq*nKv/nHeads, d] weighted by
      the exponential of s, the scaled dot product of the query with each key; and 0 over no key. */
  lemma RowInSource(a: Attn, out: seq<real>, p: nat, hq: nat, lo: int, hi: int, d: nat,
                    scale: real, s: int -> real, v: int -> real)
    requires a.nHeads > 0 && IsExp(a.exp) && d < a.D && RowOut(a, out, p, hq, lo, hi)
    requires scale == if a.scale > 0.0 then a.scale else a.invSqrtDim
    requires forall kk | lo <= kk < hi :: s(kk) == scale * Dot(0, a.D, Row(a.q, a.D, p * a.nHeads + hq),
                                                              Row(a.k, a.D, kk * a.nKv + hq * a.nKv / a.nHeads))
    requires forall kk | lo <= kk < hi :: v(kk) == Cell(a.v, a.D, kk * a.nKv + hq * a.nKv / a.nHeads, d)
    ensures hi <= lo ==> Cell(out, a.D, p * a.nHeads + hq, d) == 0.0
    ensures Cell(out, a.D, p * a.nHeads + hq, d) * Dot(lo, hi, kk => a.exp(s(kk)), _ => 1.0)
         == Dot(lo, hi, kk => a.exp(s(kk)), v)
  {
    hide *;
    var row, kvh, e := p * a.nHeads + hq, hq * a.nKv / a.nHeads, kk => a.exp(s(kk));
    var w := Weights(a.exp, Scores(a, row, kvh), 0.0);
    RowMean(a, out, p, hq, lo, hi, d);
    MeanInSource(a.exp, lo, hi, Scores(a, row, kvh), Values(a, kvh, d));
    forall kk | lo <= kk < hi ensures w(kk) == e(kk) { WeightIs(a, row, kvh, kk, s(kk), scale); }
    forall kk | lo <= kk < hi ensures Values(a, kvh, d)(kk) == v(kk) { ValueIs(a, kvh, d, kk); }
    OneIs(lo, hi, _ => 1.0);
    AgreeFrom(lo, hi, w, e);
    AgreeFrom(lo, hi, Values(a, kvh, d), v);
    DotAgree(lo, hi, w, e, One(), _ => 1.0);
    DotAgree(lo, hi, w, e, Values(a, kvh, d), v);
  }

  lemma RowMean(a: Attn, out: seq<real>, p: nat, hq: nat, lo: int, hi: int, d: nat)
    requires a.nHeads > 0 && d < a.D && RowOut(a, out, p, hq, lo, hi)
    ensures Cell(out, a.D, p * a.nHeads + hq, d) == Mean(a.exp, lo, hi,
              Scores(a, p * a.nHeads + hq, hq * a.nKv / a.nHeads), Values(a, hq * a.nKv / a.nHeads, d))
  {
    hide Cell, Mean, Scores, Values;
    assert OutAt(a, out, p, hq, d) == HeadOut(a, p, hq, lo, hi, d);
  }

  lemma WeightIs(a: Attn, row: int, kvh: int, kk: int, x: real, scale: real)
    requires scale == if a.scale > 0.0 then a.scale else a.invSqrtDim
    requires x == scale * Dot(0, a.D, Row(a.q, a.D, row), Row(a.k, a.D, kk * a.nKv + kvh))
    ensures Weights(a.exp, Scores(a, row, kvh), 0.0)(kk) == a.exp(x)
  {
    hide Dot, Row;
    assert a.EffectiveScale() == scale;
    var y := Scores(a, row, kvh)(kk);
    assert y == x;
    assert y - 0.0 == x;
  }

  lemma AgreeFrom(lo: int, hi: int, f: int -> real, g: int -> real)
    requires forall kk | lo <= kk < hi :: f(kk) == g(kk)
    ensures Agree(lo, hi, f, g)
  {
  }

  lemma ValueIs(a: Attn, kvh: int, d: int, kk: int)
    ensures Values(a, kvh, d)(kk) == Cell(a.v, a.D, kk * a.nKv + kvh, d)
  {
  }

  lemma OneIs(lo: int, hi: int, f: int -> real)
    requires forall kk :: f(kk) == 1.0
    ensures Agree(lo, hi, One(), f)
  {
  }
}
