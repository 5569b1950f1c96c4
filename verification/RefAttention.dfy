/** refAttentionCausal: the second reference, normalising after the V sum and mapping heads by
    group size; and why it agrees with multiHeadAttention. */
module RefAttention {
  import opened Sums
  import opened Buffers
  import opened Exponential
  import opened Softmax
  import opened Attention
  import opened AttentionLaws

  /** The key/value head of query head h: h / (nHeads / nKvHeads). */
  function GroupHead(a: Attn, h: nat): int
    requires a.ValidHeads()
  {
    GroupPositive(a);
    h / (a.nHeads / a.nKv)
  }

  lemma GroupPositive(a: Attn)
    requires a.ValidHeads()
    ensures a.nHeads / a.nKv > 0 && a.nHeads == (a.nHeads / a.nKv) * a.nKv
  {
    CellOf(a.nHeads, a.nKv);
  }

  /** The two head maps are the same map. */
  lemma HeadMapsAgree(a: Attn, h: nat)
    requires a.ValidHeads() && h < a.nHeads
    ensures GroupHead(a, h) == KvHead(a, h)
  {
    GroupPositive(a);
    var g := a.nHeads / a.nKv;
    CellOf(h, g);
    SameQuotient(h, g, a.nKv, h / g, h % g, a.nHeads);
  }

  lemma SameQuotient(h: nat, g: nat, n: nat, k: nat, r: nat, w: nat)
    requires h == k * g + r && r < g && n > 0 && w == g * n
    ensures w > 0 && h * n / w == k
  {
    RowBoundLe(r + 1, g, n);
    Reassociate(h, g, n, k, r);
    DivMod(k, w, r * n);
  }

  lemma Reassociate(h: nat, g: nat, n: nat, k: nat, r: nat)
    requires h == k * g + r
    ensures h * n == k * (g * n) + r * n
  {
  }

  ghost function RefOut(a: Attn, i: nat, h: nat, d: int): real
    requires a.ValidHeads()
  {
    Mean(a.exp, 0, i + 1, ScaledScores(a, i * a.nHeads + h, GroupHead(a, h), a.scale), Values(a, GroupHead(a, h), d))
  }

  ghost predicate RefRowIs(a: Attn, out: seq<real>, i: nat, h: nat)
    requires a.ValidHeads()
  {
    forall d | 0 <= d < a.D :: OutAt(a, out, i, h, d) == RefOut(a, i, h, d)
  }

  /** Scores of keys 0..i and their running maximum, which starts at a floor of -1e300. */
  method RefScores(a: Attn, T: nat, i: nat, row: nat, kvh: nat, s: array<real>) returns (mx: real)
    requires i < T <= s.Length && kvh < a.nKv && HasRow(|a.q|, a.D, row) && |a.k| == T * a.nKv * a.D
    modifies s
    ensures forall j | 0 <= j < i + 1 :: s[j] == ScaledScores(a, row, kvh, a.scale)(j)
    ensures (forall j | 0 <= j < i + 1 :: s[j] <= mx) && (mx == -1e300 || exists j :: 0 <= j < i + 1 && s[j] == mx)
  {
    hide Dot, Cell;
    mx := -1e300;
    for j := 0 to i + 1
      invariant forall j' | 0 <= j' < j :: s[j'] == ScaledScores(a, row, kvh, a.scale)(j')
      invariant (forall j' | 0 <= j' < j :: s[j'] <= mx) && (mx == -1e300 || exists j' :: 0 <= j' < j && s[j'] == mx)
    {
      KvRow(a, T, j, kvh);
      var x := ScoreOf(a, row, j * a.nKv + kvh, a.scale);
      assert x == ScaledScores(a, row, kvh, a.scale)(j);
      s[j] := x;
      if x > mx { mx := x; }
    }
  }

  /** out[d] = (sum_j w_j v_j[d]) / denom. */
  method DividedValues(a: Attn, T: nat, kvh: nat, lo: nat, hi: nat, weights: seq<real>, ghost w: int -> real,
                       denom: real, out: array<real>, row: nat)
    requires lo <= hi <= T && hi <= |weights| && kvh < a.nKv && |a.v| == T * a.nKv * a.D && denom > 0.0
    requires HasRow(out.Length, a.D, row) && forall i | lo <= i < hi :: weights[i] == w(i)
    modifies out
    ensures forall d | 0 <= d < a.D :: Cell(out[..], a.D, row, d) == Dot(lo, hi, w, Values(a, kvh, d)) / denom
    ensures OnlyRow(old(out[..]), out[..], a.D, row)
  {
    hide Dot, Cell;
    for d := 0 to a.D
      invariant forall d' | 0 <= d' < d :: Cell(out[..], a.D, row, d') == Dot(lo, hi, w, Values(a, kvh, d')) / denom
      invariant OnlyRow(old(out[..]), out[..], a.D, row)
    {
      var acc := ValueSum(a, T, kvh, lo, hi, weights, w, d);
      SetCell(out, a.D, row, d, acc / denom);
    }
  }

  method RefRow(a: Attn, T: nat, i: nat, h: nat, s: array<real>, out: array<real>)
    requires a.ValidHeads() && a.Shaped(T, T) && IsExp(a.exp) && i < T <= s.Length && h < a.nHeads
    requires out.Length == T * a.nHeads * a.D && out != s
    modifies s, out
    ensures RefRowIs(a, out[..], i, h) && OnlyRow(old(out[..]), out[..], a.D, i * a.nHeads + h)
  {
    hide Dot, Cell, ScaledScores, Values, Weights, Mean, GroupHead;
    HeadMapsAgree(a, h);
    KvHeadBound(a, h);
    QRow(a, T, i, h);
    var row, kvh := i * a.nHeads + h, GroupHead(a, h);
    ghost var sc := ScaledScores(a, row, kvh, a.scale);
    var mx := RefScores(a, T, i, row, kvh, s);
    var denom := Exponentiate(a.exp, 0, i + 1, s, sc, mx);
    MassPositive(a.exp, 0, i + 1, sc, mx);
    DividedValues(a, T, kvh, 0, i + 1, s[..], Weights(a.exp, sc, mx), denom, out, row);
    forall d | 0 <= d < a.D ensures Cell(out[..], a.D, row, d) == RefOut(a, i, h, d) {
      BiasCancels(a.exp, 0, i + 1, sc, mx, Values(a, kvh, d));
    }
  }

  ghost predicate RefRowsTo(a: Attn, out: seq<real>, T: nat, i: nat, h: nat)
    requires a.ValidHeads()
  {
    forall i', h' | 0 <= i' <= i && i' < T && 0 <= h' < a.nHeads && (i' < i || h' < h) :: RefRowIs(a, out, i', h')
  }

  method RefAttentionCausal(a: Attn, T: nat, out: array<real>)
    requires a.ValidHeads() && a.Shaped(T, T) && IsExp(a.exp) && out.Length == T * a.nHeads * a.D
    modifies out
    ensures forall i, h | 0 <= i < T && 0 <= h < a.nHeads :: RefRowIs(a, out[..], i, h)
  {
    hide RefRowIs;
    var s := new real[T];
    for i := 0 to T
      invariant RefRowsTo(a, out[..], T, i, 0)
    {
      for h := 0 to a.nHeads
        invariant RefRowsTo(a, out[..], T, i, h)
      {
        ghost var before := out[..];
        RefRow(a, T, i, h, s, out);
        RefRowsStep(a, before, out[..], T, i, h);
      }
    }
  }

  lemma RefRowsStep(a: Attn, o1: seq<real>, o2: seq<real>, T: nat, i: nat, h: nat)
    requires a.ValidHeads() && i < T && h < a.nHeads && RefRowsTo(a, o1, T, i, h)
    requires RefRowIs(a, o2, i, h) && OnlyRow(o1, o2, a.D, i * a.nHeads + h)
    ensures RefRowsTo(a, o2, T, i, h + 1)
  {
    hide Cell, RefOut;
    forall i', h' | 0 <= i' <= i && 0 <= h' < a.nHeads && (i' < i || h' < h) ensures RefRowIs(a, o2, i', h') {
      assert RefRowIs(a, o1, i', h');
      if i' != i { RowsApart(i', i, a.nHeads, h', h); }
    }
  }

  /** The scale multiHeadAttention uses is the one it was given: an explicit positive scale, or the default
      passed explicitly. */
  predicate ScaleKept(a: Attn) { a.scale > 0.0 || a.scale == a.invSqrtDim }

  /** With such a scale and no window, both references write the same row. */
  lemma ReferencesAgree(a: Attn, T: nat, i: nat, h: nat, out: seq<real>)
    requires a.ValidHeads() && i < T && h < a.nHeads && ScaleKept(a)
    ensures RefRowIs(a, out, i, h) <==> RowDone(a, out, i, h, 0, T, 0)
  {
    hide OutAt, RefOut, HeadOut, WindowStart, WindowEnd;
    forall d ensures SameValue(a, T, i, h, d) { SameOut(a, T, i, h, d); }
    var lo, hi := WindowStart(0 + i, T, 0), WindowEnd(0 + i, T);
    assert RowDone(a, out, i, h, 0, T, 0) == RowOut(a, out, i, h, lo, hi);
    if RefRowIs(a, out, i, h) {
      forall d | 0 <= d < a.D ensures OutAt(a, out, i, h, d) == HeadOut(a, i, h, lo, hi, d) {
        assert SameValue(a, T, i, h, d);
      }
    }
    if RowOut(a, out, i, h, lo, hi) {
      forall d | 0 <= d < a.D ensures OutAt(a, out, i, h, d) == RefOut(a, i, h, d) { assert SameValue(a, T, i, h, d); }
    }
  }

  /** Both references give coordinate d of row (i,h) the same value. */
  ghost predicate SameValue(a: Attn, T: nat, i: nat, h: nat, d: int)
    requires a.ValidHeads()
  {
    RefOut(a, i, h, d) == HeadOut(a, i, h, WindowStart(0 + i, T, 0), WindowEnd(0 + i, T), d)
  }

  lemma SameOut(a: Attn, T: nat, i: nat, h: nat, d: int)
    requires a.ValidHeads() && i < T && h < a.nHeads && ScaleKept(a)
    ensures SameValue(a, T, i, h, d)
  {
    hide Cell, GroupHead, KvHead, Mean, ScaledScores, Values;
    HeadMapsAgree(a, h);
  }

  /** Both references over the same operands: each buffer holds its own reference's rows, and they are equal. */
  method BothReferences(a: Attn, T: nat) returns (whole: array<real>, causal: array<real>)
    requires a.ValidHeads() && a.Shaped(T, T) && IsExp(a.exp) && ScaleKept(a)
    ensures whole.Length == causal.Length == T * a.nHeads * a.D && whole[..] == causal[..]
    ensures forall i, h | 0 <= i < T && 0 <= h < a.nHeads :: RowDone(a, whole[..], i, h, 0, T, 0)
    ensures forall i, h | 0 <= i < T && 0 <= h < a.nHeads :: RefRowIs(a, causal[..], i, h)
  {
    hide RefRowIs, RowDone, ScaleKept;
    var scratch := new real[T];
    whole, causal := new real[T * a.nHeads * a.D], new real[T * a.nHeads * a.D];
    var r := MultiHeadAttention(a, T, T, 0, scratch, whole, 0);
    RefAttentionCausal(a, T, causal);
    forall i, h | 0 <= i < T && 0 <= h < a.nHeads ensures RowDone(a, causal[..], i, h, 0, T, 0) {
      ReferencesAgree(a, T, i, h, causal[..]);
    }
    RowsDetermine(a, whole[..], causal[..], T, 0, T, 0);
  }

  /** The agreement over one choice of heads, buffers, token count and coordinate. */
  ghost predicate SameOn(b: Attn, n: nat, g: nat, q: seq<real>, k: seq<real>, v: seq<real>, T: nat, i: nat, h: nat,
                         d: nat)
  {
    var a := b.(nHeads := n, nKv := g, q := q, k := k, v := v);
    a.ValidHeads() && a.Shaped(T, T) && i < T && h < n && d < a.D ==> SameValue(a, T, i, h, d)
  }

  ghost predicate SameEverywhere(b: Attn) {
    forall n: nat, g: nat, q: seq<real>, k: seq<real>, v: seq<real>, T: nat, i: nat, h: nat, d: nat ::
      SameOn(b, n, g, q, k, v, T, i, h, d)
  }

  /** For a head size, scale, default and exponential: the references agree on all head counts, operands,
      shapes and coordinates if and only if multiHeadAttention does not substitute another scale. */
  lemma ReferencesAgreeExactly(b: Attn)
    requires IsExp(b.exp) && b.exp(1.0) != 1.0 && b.D > 0
    ensures SameEverywhere(b) <==> ScaleKept(b)
  {
    if ScaleKept(b) {
      forall n: nat, g: nat, q: seq<real>, k: seq<real>, v: seq<real>, T: nat, i: nat, h: nat, d: nat
        ensures SameOn(b, n, g, q, k, v, T, i, h, d)
      {
        hide RefOut, HeadOut, WindowStart, WindowEnd, SameValue;
        var a := b.(nHeads := n, nKv := g, q := q, k := k, v := v);
        if a.ValidHeads() && i < T && h < n { SameOut(a, T, i, h, d); }
      }
    } else {
      hide SameOn;
      var kappa := 1.0 / (b.invSqrtDim - b.scale);
      var one, spread, zero := First(b.D, 1.0), First(b.D, kappa), First(b.D, 0.0);
      TwoKeysDiffer(b, kappa);
      assert !SameOn(b, 1, 1, one + one, zero + spread, zero + one, 2, 1, 0, 0);
    }
  }

  /** A row with c in its first coordinate and zeros after it. */
  function First(D: nat, c: real): (s: seq<real>)
    ensures |s| == D
  {
    seq(D, j => if j == 0 then c else 0.0)
  }

  lemma FirstCell(D: nat, c: real, c': real, r: nat, j: nat)
    requires j < D && r < 2
    ensures Cell(First(D, c) + First(D, c'), D, r, j) == if j > 0 then 0.0 else if r == 0 then c else c'
  {
  }

  lemma FirstDot(D: nat, f: int -> real, g: int -> real)
    requires D > 0 && forall j | 0 < j < D :: f(j) == 0.0
    ensures Dot(0, D, f, g) == f(0) * g(0)
  {
    hide Dot;
    DotSplit(0, 1, D, f, g);
    DotZero(1, D, f, g);
    DotPeel(0, 0, f, g);
  }

  /** Two keys, scores 0 and s(1), values 0 and 1. */
  lemma TwoKeyMean(exp: real -> real, s: int -> real, v: int -> real)
    requires IsExp(exp) && s(0) == 0.0 && v(0) == 0.0 && v(1) == 1.0
    ensures exp(s(1)) > 0.0 && Mean(exp, 0, 2, s, v) == exp(s(1)) / (1.0 + exp(s(1)))
  {
    hide Dot;
    ExpPositive(exp, s(1));
    var w := Weights(exp, s, 0.0);
    DotPeel(0, 0, w, One());
    DotPeel(0, 1, w, One());
    DotPeel(0, 0, w, v);
    DotPeel(0, 1, w, v);
    assert s(0) - 0.0 == 0.0 && s(1) - 0.0 == s(1);
  }

  lemma OddsInjective(x: real, y: real)
    requires x > 0.0 && y > 0.0
    ensures x / (1.0 + x) == y / (1.0 + y) ==> x == y
  {
    var p, q := x / (1.0 + x), y / (1.0 + y);
    assert p * (1.0 + x) == x && q * (1.0 + y) == y;
    if p == q {
      assert (1.0 - p) * (x - y) == 0.0;
      assert (1.0 - p) * (1.0 + x) == 1.0;
    }
  }

  lemma WitnessScore(a: Attn, kappa: real, scale: real, kk: nat)
    requires a.D > 0 && a.nKv == 1 && kk < 2
    requires a.q == First(a.D, 1.0) + First(a.D, 1.0) && a.k == First(a.D, 0.0) + First(a.D, kappa)
    ensures ScaledScores(a, 1, 0, scale)(kk) == if kk == 0 then 0.0 else kappa * scale
  {
    hide Cell, Dot, First;
    var f, g := Row(a.q, a.D, 1), Row(a.k, a.D, kk * 1 + 0);
    forall j: nat | j < a.D ensures f(j) == if j > 0 then 0.0 else 1.0 { FirstCell(a.D, 1.0, 1.0, 1, j); }
    FirstCell(a.D, 0.0, kappa, kk, 0);
    FirstDot(a.D, f, g);
  }

  /** One head, two tokens: the second row tells the two scales apart. */
  lemma TwoKeysDiffer(b: Attn, kappa: real)
    requires IsExp(b.exp) && b.exp(1.0) != 1.0 && b.D > 0 && b.scale <= 0.0 && b.scale != b.invSqrtDim
    requires kappa == 1.0 / (b.invSqrtDim - b.scale)
    ensures var one, spread, zero := First(b.D, 1.0), First(b.D, kappa), First(b.D, 0.0);
            !SameOn(b, 1, 1, one + one, zero + spread, zero + one, 2, 1, 0, 0)
  {
    var one, spread, zero := First(b.D, 1.0), First(b.D, kappa), First(b.D, 0.0);
    var a := b.(nHeads := 1, nKv := 1, q := one + one, k := zero + spread, v := zero + one);
    var v := Values(a, 0, 0);
    var given, used := ScaledScores(a, 1, 0, a.scale), ScaledScores(a, 1, 0, a.invSqrtDim);
    WitnessScore(a, kappa, a.scale, 0);
    WitnessScore(a, kappa, a.scale, 1);
    WitnessScore(a, kappa, a.invSqrtDim, 0);
    WitnessScore(a, kappa, a.invSqrtDim, 1);
    FirstCell(a.D, 0.0, 1.0, 0, 0);
    FirstCell(a.D, 0.0, 1.0, 1, 0);
    TwoKeyMean(a.exp, given, v);
    TwoKeyMean(a.exp, used, v);
    ShiftedExp(a.exp, given(1), used(1));
    OddsInjective(a.exp(given(1)), a.exp(used(1)));
    WitnessOutputs(a, 2);
  }

  lemma ShiftedExp(exp: real -> real, x: real, y: real)
    requires IsExp(exp) && exp(1.0) != 1.0 && y == x + 1.0
    ensures exp(x) != exp(y)
  {
    ExpSum(exp, x, 1.0);
    ExpPositive(exp, x);
  }

  lemma WitnessOutputs(a: Attn, T: nat)
    requires a.nHeads == 1 && a.nKv == 1 && a.scale <= 0.0 && T == 2
    ensures RefOut(a, 1, 0, 0) == Mean(a.exp, 0, 2, ScaledScores(a, 1, 0, a.scale), Values(a, 0, 0))
    ensures HeadOut(a, 1, 0, WindowStart(0 + 1, T, 0), WindowEnd(0 + 1, T), 0)
         == Mean(a.exp, 0, 2, ScaledScores(a, 1, 0, a.invSqrtDim), Values(a, 0, 0))
  {
    hide Mean, Values, Dot, Cell;
  }
}
