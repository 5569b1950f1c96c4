/** The chunked form split at its hand-off buffers: cumulative gate, ungated triangular inverse,
    and a forward pass that puts the gate back. */
module ThreeStage {
  import opened Sums
  import opened Buffers
  import opened Exponential
  import opened DeltaSpec
  import opened Triangular
  import opened ChunkAlgebra
  import opened DeltaNet
  import opened ChunkStages
  import opened KktInverse
  import opened Kernels
  import Chunked
  import Recurrent

  /** The gate sum of token t within its own chunk: the prefix restarts at every chunk boundary. */
  function GateAt(x: Net, C: nat, t: nat, h: int): real
    requires C > 0
  {
    Cum(x.HeadOf(h), t / C * C, t % C + 1)
  }

  /** The gate hand-off buffer [T,H]. */
  ghost predicate GateBuffer(x: Net, C: nat, gCum: seq<real>)
    requires C > 0
  {
    |gCum| == x.T * x.H && forall t, h | 0 <= t < x.T && 0 <= h < x.H :: Cell(gCum, x.H, t, h) == GateAt(x, C, t, h)
  }

  ghost predicate GatesSoFar(x: Net, C: nat, gCum: seq<real>, h: int, t0: int)
    requires C > 0
  {
    forall t, h' | 0 <= t < x.T && 0 <= h' < x.H && (h' < h || (h' == h && t < t0)) ::
        Cell(gCum, x.H, t, h') == GateAt(x, C, t, h')
  }

  /** Token c*C + a of chunk c has gate prefix a+1 from the chunk start. */
  lemma GateInChunk(x: Net, C: nat, c: nat, a: nat, h: int)
    requires a < C
    ensures c * C + a >= 0 && GateAt(x, C, c * C + a, h) == Cum(x.HeadOf(h), c * C, a + 1)
  {
    DivMod(c, C, a);
  }

  /** Stage 0. */
  method DeltanetChunkCumGate(x: Net, chunkSize: nat, gCum: array<real>)
    requires x.Shaped() && gCum.Length == x.T * x.H
    modifies gCum
    ensures chunkSize > 0 ==> GateBuffer(x, chunkSize, gCum[..])
    ensures chunkSize == 0 ==> GateBuffer(x, 64, gCum[..])
  {
    hide Cell, GateAt;
    var C := Width(chunkSize);
    for h := 0 to x.H
      invariant GatesSoFar(x, C, gCum[..], h, 0)
    {
      var c := 0;
      while c * C < x.T
        invariant 0 <= c && GatesSoFar(x, C, gCum[..], h, c * C)
        decreases x.T - c * C
      {
        ChunkCumGate(x, C, c, h, gCum);
        c := c + 1;
      }
    }
  }

  /** The hand-off buffer, token by token: the raw gate, added to the previous sum except at a chunk boundary. */
  lemma GateInSource(x: Net, C: nat, gCum: seq<real>, t: nat, h: nat)
    requires C > 0 && GateBuffer(x, C, gCum) && t < x.T && h < x.H
    ensures Cell(gCum, x.H, t, h)
         == Cell(x.gLog, x.H, t, h) + (if t % C == 0 then 0.0 else Cell(gCum, x.H, t - 1, h))
  {
    hide Cell, Cum;
    var c0, a := t / C * C, t % C;
    CellOf(t, C);
    RowBoundLe(0, t / C, C);
    CumNext(x, h, c0, -1);
    CumNext(x, h, c0, a);
    assert Cell(gCum, x.H, t, h) == GateAt(x, C, t, h);
    if a != 0 {
      DivMod(t / C, C, a - 1);
      assert Cell(gCum, x.H, t - 1, h) == GateAt(x, C, t - 1, h);
    }
  }

  /** One chunk of one head. */
  method ChunkCumGate(x: Net, C: nat, c: nat, h: nat, gCum: array<real>)
    requires x.Shaped() && gCum.Length == x.T * x.H && h < x.H && 0 < C && c * C < x.T
    requires GatesSoFar(x, C, gCum[..], h, c * C)
    modifies gCum
    ensures GatesSoFar(x, C, gCum[..], h, (c + 1) * C)
  {
    hide Cell, GateAt, GatesSoFar, Cum;
    var c0 := c * C;
    var cs := if C < x.T - c0 then C else x.T - c0;
    var run := 0.0;
    CumNext(x, h, c0, -1);
    for a := 0 to cs
      invariant run == Cum(x.HeadOf(h), c0, a) && GatesSoFar(x, C, gCum[..], h, c0 + a)
    {
      Recurrent.TokenBounds(x, c0 + a, h);
      run := run + At(x.gLog, x.H, c0 + a, h);
      CumNext(x, h, c0, a);
      GateInChunk(x, C, c, a, h);
      ghost var before := gCum[..];
      SetCell(gCum, x.H, c0 + a, h, run);
      GatesStep(x, C, before, gCum[..], h, c0 + a);
    }
    GatesChunkEnd(x, C, gCum[..], h, c0 + cs, (c + 1) * C);
  }

  lemma GatesStep(x: Net, C: nat, g0: seq<real>, g1: seq<real>, h: nat, t: nat)
    requires C > 0 && h < x.H && GatesSoFar(x, C, g0, h, t) && OnlyCell(g0, g1, x.H, t, h)
    requires Cell(g1, x.H, t, h) == GateAt(x, C, t, h)
    ensures GatesSoFar(x, C, g1, h, t + 1)
  {
    hide Cell, GateAt;
  }

  lemma GatesChunkEnd(x: Net, C: nat, g: seq<real>, h: nat, t: nat, t': nat)
    requires C > 0 && GatesSoFar(x, C, g, h, t) && (t == t' || t == x.T)
    ensures GatesSoFar(x, C, g, h, t')
  {
    hide Cell, GateAt;
  }

  /** Read the chunk's gates back from the hand-off buffer. */
  method LoadGates(x: Net, C: nat, c: nat, h: nat, cs: nat, gCum: seq<real>, gc: array<real>, egc: array<real>)
    requires InChunk(x, h, c * C, cs) && 0 < cs <= C && GateBuffer(x, C, gCum)
    requires cs <= gc.Length && cs <= egc.Length && gc != egc
    modifies gc, egc
    ensures GatesAre(x.HeadOf(h), c * C, cs, gc[..], egc[..])
  {
    hide Cell, GateAt, Cum, Decays, DecayFactor;
    for a := 0 to cs
      invariant forall p | 0 <= p < a :: gc[p] == Cum(x.HeadOf(h), c * C, p + 1) && egc[p] == x.exp(gc[p])
    {
      Recurrent.TokenBounds(x, c * C + a, h);
      GateInChunk(x, C, c, a, h);
      gc[a] := At(gCum, x.H, c * C + a, h);
      DecayExponents(x, h, c * C, a, a);
      egc[a] := DecayFactor(x, gc[a]);
    }
  }

  /** Every right-hand side of the chunk. */
  method AllRhs(x: Net, h: nat, c0: nat, cs: nat, C: nat, s0: seq<real>, egc: seq<real>, u: seq<real>, rp: array<real>)
    requires InChunk(x, h, c0, cs) && cs <= C && |u| == C * x.S && rp.Length == C * x.S && cs <= |egc|
    requires forall a | 0 <= a < cs :: egc[a] == x.exp(Cum(x.HeadOf(h), c0, a + 1))
    requires RowsAre(u, x.S, cs, KeyReads(x.HeadOf(h), s0, c0))
    modifies rp
    ensures RowsAre(rp[..], x.S, cs, RhsRows(x.HeadOf(h), s0, c0))
  {
    hide Cell, Dot, Cum, KeyReads, RhsRows;
    for m := 0 to cs
      invariant RowsAre(rp[..], x.S, m, RhsRows(x.HeadOf(h), s0, c0))
    {
      ghost var before := rp[..];
      RhsRow(x, h, c0, cs, C, s0, m, egc[m], u, rp);
      RowsGrow(before, rp[..], x.S, m, RhsRows(x.HeadOf(h), s0, c0));
    }
  }

  /** d_a = sum_{m<=a} a0[a,m] exp(G_a - G_m) r_m. */
  ghost predicate DeltaPrefix(x: Net, h: int, c0: int, s0: seq<real>, d: seq<real>, a: int, m: int) {
    forall j | 0 <= j < x.S :: Cell(d, x.S, a, j)
      == Dot(0, m, RegatedRow(x.HeadOf(h), c0, a), Rhs(x.HeadOf(h), j, Start(x.S, s0, j), c0))
  }

  lemma DeltaPrefixStart(x: Net, h: int, c0: int, s0: seq<real>, d: seq<real>, a: int)
    requires forall j | 0 <= j < x.S :: Cell(d, x.S, a, j) == 0.0
    ensures DeltaPrefix(x, h, c0, s0, d, a, 0)
  {
    hide Cell, RegatedRow, Rhs;
  }

  lemma DeltaPrefixStep(x: Net, h: int, c0: int, s0: seq<real>, d1: seq<real>, d2: seq<real>, rp: seq<real>, a: int,
                        m: nat, w: real)
    requires DeltaPrefix(x, h, c0, s0, d1, a, m) && w == RegatedRow(x.HeadOf(h), c0, a)(m)
    requires forall j | 0 <= j < x.S :: Cell(rp, x.S, m, j) == RhsRows(x.HeadOf(h), s0, c0)(m)(j)
    requires forall j | 0 <= j < x.S :: Cell(d2, x.S, a, j) == MulAdd(Cell(d1, x.S, a, j), Cell(rp, x.S, m, j), w)
    ensures DeltaPrefix(x, h, c0, s0, d2, a, m + 1)
  {
    hide Cell, Dot, RegatedRow, Rhs;
    var hd := x.HeadOf(h);
    forall j | 0 <= j < x.S ensures Cell(d2, x.S, a, j)
        == Dot(0, m + 1, RegatedRow(hd, c0, a), Rhs(hd, j, Start(x.S, s0, j), c0)) {
      DotPeel(0, m, RegatedRow(hd, c0, a), Rhs(hd, j, Start(x.S, s0, j), c0));
      assert Cell(rp, x.S, m, j) == Rhs(hd, j, Start(x.S, s0, j), c0)(m);
    }
  }

  lemma DeltaPrefixEnd(x: Net, h: int, c0: int, s0: seq<real>, d: seq<real>, a: nat)
    requires DeltaPrefix(x, h, c0, s0, d, a, a + 1) && IsExp(x.exp)
    ensures forall j | 0 <= j < x.S :: Cell(d, x.S, a, j) == DeltaRows(x.HeadOf(h), s0, c0)(a)(j)
  {
    hide Cell, Dot, Rhs, RegatedRow, Deltas;
    forall j | 0 <= j < x.S ensures Cell(d, x.S, a, j) == DeltaRows(x.HeadOf(h), s0, c0)(a)(j) {
      RegatedIsDelta(x.HeadOf(h), j, Start(x.S, s0, j), c0, a);
    }
  }

  lemma RegateWeight(x: Net, C: nat, c: nat, h: nat, cs: nat, a0: seq<real>, a: nat, m: nat, ga: real, gm: real)
    requires InChunk(x, h, c * C, cs) && m <= a < cs <= C && InverseBuffer(x, C, a0) && c < ChunkCount(x.T, C)
    requires ga == Cum(x.HeadOf(h), c * C, a + 1) && gm == Cum(x.HeadOf(h), c * C, m + 1)
    ensures Times(Entry(a0, C, BlockStart(x, C, c, h), a, m), x.exp(ga - gm)) == RegatedRow(x.HeadOf(h), c * C, a)(m)
  {
    hide Cell, Entry, Inv, Cum, InverseBuffer, ChunkCount, BlockStart, UngatedRows;
    LiveEntry(x, C, a0, c, h, a, m);
  }

  /** The chunk's deltas without a solve: the ungated inverse, regated, times the right-hand sides. */
  method ApplyInverse(x: Net, C: nat, c: nat, h: nat, cs: nat, a0: seq<real>, s0: seq<real>, gc: seq<real>,
                      rp: seq<real>, d: array<real>)
    requires InChunk(x, h, c * C, cs) && cs <= C && IsExp(x.exp) && InverseBuffer(x, C, a0) && c < ChunkCount(x.T, C)
    requires |rp| == C * x.S && d.Length == C * x.S && cs <= |gc|
    requires forall a | 0 <= a < cs :: gc[a] == Cum(x.HeadOf(h), c * C, a + 1)
    requires RowsAre(rp, x.S, cs, RhsRows(x.HeadOf(h), s0, c * C))
    modifies d
    ensures RowsAre(d[..], x.S, cs, DeltaRows(x.HeadOf(h), s0, c * C))
  {
    hide Cell, Dot, Cum, MulAdd, RhsRows, DeltaRows, DeltaPrefix, RegatedRow, BlockIs, BlockStart, Decays, DecayFactor,
        Times;
    ghost var rows := DeltaRows(x.HeadOf(h), s0, c * C);
    BlockBounds(x, C, c, h);
    var first := BlockStart(x, C, c, h);
    for a := 0 to cs
      invariant RowsAre(d[..], x.S, a, rows)
    {
      ChunkBounds(x, h, c * C, cs, C, a);
      BlockRow(|a0|, C, first, C, a);
      ghost var d0 := d[..];
      FillRow(d, x.S, a, 0.0);
      DeltaPrefixStart(x, h, c * C, s0, d[..], a);
      for m := 0 to a + 1
        invariant OnlyRow(d0, d[..], x.S, a) && DeltaPrefix(x, h, c * C, s0, d[..], a, m)
      {
        ChunkBounds(x, h, c * C, cs, C, m);
        RegateWeight(x, C, c, h, cs, a0, a, m, gc[a], gc[m]);
        DecayExponents(x, h, c * C, a, m);
        var w := Times(At(a0, C, first + a, m), DecayFactor(x, gc[a] - gc[m]));
        ghost var d1 := d[..];
        AddScaledRow(d, x.S, a, w, rp, m);
        DeltaPrefixStep(x, h, c * C, s0, d1, d[..], rp, a, m, w);
      }
      DeltaPrefixEnd(x, h, c * C, s0, d[..], a);
      RowsGrow(d0, d[..], x.S, a, rows);
    }
  }

  /** o_a for one token of the chunk. */
  method WriteOutput(x: Net, h: nat, c0: nat, cs: nat, C: nat, s0: seq<real>, a: nat, gc: seq<real>, egc: seq<real>,
                     qs: seq<real>, uq: seq<real>, d: seq<real>, out: array<real>)
    requires InChunk(x, h, c0, cs) && a < cs <= C && IsExp(x.exp) && out.Length == x.T * x.H * x.S
    requires |qs| == |uq| == |d| == C * x.S && GatesAre(x.HeadOf(h), c0, cs, gc, egc)
    requires RowsAre(qs, x.S, cs, QsRows(x.HeadOf(h), c0))
    requires RowsAre(uq, x.S, cs, QueryReads(x.HeadOf(h), s0, c0))
    requires RowsAre(d, x.S, cs, DeltaRows(x.HeadOf(h), s0, c0))
    modifies out
    ensures forall j | 0 <= j < x.S ::
        OutCell(x, out[..], c0 + a, h, j) == Read(x.HeadOf(h), j, Start(x.S, s0, j), c0, a)
    ensures OnlyRow(old(out[..]), out[..], x.S, (c0 + a) * x.H + h)
  {
    hide Cell, Dot, Cum, MulAdd, QueryReads, DeltaRows, OutputPrefix, ReadRow, QsRows, Read, Decays, DecayFactor, Times;
    ChunkBounds(x, h, c0, cs, C, a);
    var tr := (c0 + a) * x.H + h;
    ScaleInto(out, x.S, tr, egc[a], uq, a);
    OutputPrefixStart(x, out[..], h, c0, cs, a, s0, uq, egc[a]);
    for m := 0 to a + 1
      invariant OnlyRow(old(out[..]), out[..], x.S, tr) && OutputPrefix(x, out[..], h, c0, a, m, s0)
    {
      ChunkBounds(x, h, c0, cs, C, m);
      var kq := Chunked.RowDot(x.k, x.S, (c0 + m) * x.H + h, qs, a);
      DecayExponents(x, h, c0, a, m);
      var w := Times(DecayFactor(x, gc[a] - gc[m]), kq);
      InlineWeight(x, h, c0, cs, a, m, qs, gc[a], gc[m], kq);
      ghost var before := out[..];
      AddScaledRow(out, x.S, tr, w, d, m);
      OutputPrefixStep(x, before, out[..], h, c0, a, m, s0, d, w);
    }
    OutputPrefixEnd(x, out[..], h, c0, a, s0);
  }

  /** o_a for every token of the chunk, with k_m . qs_a recomputed in the loop. */
  method WriteOutputs(x: Net, h: nat, c0: nat, cs: nat, C: nat, s0: seq<real>, gc: seq<real>, egc: seq<real>,
                      qs: seq<real>, uq: seq<real>, d: seq<real>, out: array<real>)
    requires InChunk(x, h, c0, cs) && cs <= C && IsExp(x.exp) && out.Length == x.T * x.H * x.S
    requires |qs| == |uq| == |d| == C * x.S && GatesAre(x.HeadOf(h), c0, cs, gc, egc)
    requires RowsAre(qs, x.S, cs, QsRows(x.HeadOf(h), c0))
    requires RowsAre(uq, x.S, cs, QueryReads(x.HeadOf(h), s0, c0))
    requires RowsAre(d, x.S, cs, DeltaRows(x.HeadOf(h), s0, c0))
    modifies out
    ensures OutputsAre(x, out[..], h, c0, cs, s0) && OnlyTokens(x, old(out[..]), out[..], h, c0, cs)
  {
    hide Cell, Dot, Cum, QueryReads, DeltaRows, RowsAre, GatesAre, OutputsAre, OnlyTokens, QsRows, Read;
    Chunked.OutputsEmpty(x, out[..], h, c0, s0);
    for a := 0 to cs
      invariant OutputsAre(x, out[..], h, c0, a, s0) && OnlyTokens(x, old(out[..]), out[..], h, c0, a)
    {
      ghost var o1 := out[..];
      WriteOutput(x, h, c0, cs, C, s0, a, gc, egc, qs, uq, d, out);
      OutputsGrow(x, old(out[..]), o1, out[..], h, c0, a, s0);
    }
  }

  lemma InlineWeight(x: Net, h: int, c0: int, cs: nat, a: nat, m: nat, qs: seq<real>, ga: real, gm: real, kq: real)
    requires a < cs && RowsAre(qs, x.S, cs, QsRows(x.HeadOf(h), c0))
    requires ga == Cum(x.HeadOf(h), c0, a + 1) && gm == Cum(x.HeadOf(h), c0, m + 1)
    requires kq == Dot(0, x.S, Row(x.k, x.S, (c0 + m) * x.H + h), Row(qs, x.S, a))
    ensures Times(x.exp(ga - gm), kq) == ReadRow(x.HeadOf(h), c0, a)(m)
  {
    hide Dot, Cell, Cum;
    var hd := x.HeadOf(h);
    assert hd.k(c0 + m) == Row(x.k, x.S, (c0 + m) * x.H + h);
    DotAgree(0, x.S, hd.k(c0 + m), hd.k(c0 + m), Row(qs, x.S, a), hd.qs(c0 + a));
  }

  /** One chunk of one head of the forward stage. */
  method ForwardStep(x: Net, h: nat, c: nat, cs: nat, C: nat, gCum: seq<real>, a0: seq<real>, ghost init: seq<real>,
                     state: array<real>, out: array<real>, s0: array<real>, gc: array<real>, egc: array<real>,
                     u: array<real>, uq: array<real>, qs: array<real>, rp: array<real>, d: array<real>)
    requires InChunk(x, h, c * C, cs) && cs <= C && IsExp(x.exp) && c < ChunkCount(x.T, C)
    requires GateBuffer(x, C, gCum) && InverseBuffer(x, C, a0)
    requires state.Length == x.H * x.S * x.S && out.Length == x.T * x.H * x.S && state != out
    requires s0.Length == x.S * x.S && gc.Length == egc.Length == C
    requires u.Length == uq.Length == qs.Length == rp.Length == d.Length == C * x.S
    requires {state, out} !! {s0, gc, egc, u, uq, qs, rp, d} && s0 !in {gc, egc, u, uq, qs, rp, d}
    requires gc !in {egc, u, uq, qs, rp, d} && egc !in {u, uq, qs, rp, d} && u !in {uq, qs, rp, d}
    requires uq !in {qs, rp, d} && qs !in {rp, d} && rp != d
    requires StateSoFar(x, init, state[..], h, c * C) && OutSoFar(x, init, out[..], h, c * C)
    modifies state, out, s0, gc, egc, u, uq, qs, rp, d
    ensures StateSoFar(x, init, state[..], h, c * C + cs) && OutSoFar(x, init, out[..], h, c * C + cs)
  {
    hide HeadIs, RowIs, Cell, Entry, Deltas, Col, Start, Dot, Cum, KeyReads, QueryReads, QsRows, RhsRows, DeltaRows,
        RowsAre,
         SnapshotOf, OutputsAre, OnlyTokens, StateSoFar, OutSoFar, GateBuffer, InverseBuffer, ChunkCount;
    ghost var s1, o1 := state[..], out[..];
    var c0 := c * C;
    Snapshot(x, h, state, s0);
    LoadGates(x, C, c, h, cs, gCum, gc, egc);
    Project(x, h, c0, cs, C, s0[..], qs, u, uq);
    AllRhs(x, h, c0, cs, C, s0[..], egc[..], u[..], rp);
    ApplyInverse(x, C, c, h, cs, a0, s0[..], gc[..], rp[..], d);
    WriteOutputs(x, h, c0, cs, C, s0[..], gc[..], egc[..], qs[..], uq[..], d[..], out);
    OutChunkStep(x, init, s1, o1, out[..], s0[..], h, c0, cs);
    Carry(x, h, c0, cs, C, s0[..], gc[..], egc[cs - 1], d[..], state);
    StateChunkStep(x, init, s1, state[..], s0[..], h, c0, cs);
  }

  /** Every chunk of one head. */
  method ForwardHead(x: Net, h: nat, C: nat, gCum: seq<real>, a0: seq<real>, ghost init: seq<real>,
                     state: array<real>, out: array<real>, s0: array<real>, gc: array<real>, egc: array<real>,
                     u: array<real>, uq: array<real>, qs: array<real>, rp: array<real>, d: array<real>)
    requires x.Shaped() && h < x.H && C > 0 && IsExp(x.exp) && GateBuffer(x, C, gCum) && InverseBuffer(x, C, a0)
    requires state.Length == x.H * x.S * x.S && out.Length == x.T * x.H * x.S && state != out
    requires s0.Length == x.S * x.S && gc.Length == egc.Length == C
    requires u.Length == uq.Length == qs.Length == rp.Length == d.Length == C * x.S
    requires {state, out} !! {s0, gc, egc, u, uq, qs, rp, d} && s0 !in {gc, egc, u, uq, qs, rp, d}
    requires gc !in {egc, u, uq, qs, rp, d} && egc !in {u, uq, qs, rp, d} && u !in {uq, qs, rp, d}
    requires uq !in {qs, rp, d} && qs !in {rp, d} && rp != d
    requires StateSoFar(x, init, state[..], h, 0) && OutSoFar(x, init, out[..], h, 0)
    modifies state, out, s0, gc, egc, u, uq, qs, rp, d
    ensures StateSoFar(x, init, state[..], h + 1, 0) && OutSoFar(x, init, out[..], h + 1, 0)
  {
    hide StateSoFar, OutSoFar, GateBuffer, InverseBuffer, ChunkCount;
    var c, c0 := 0, 0;
    while c0 < x.T
      invariant 0 <= c && 0 <= c0 <= x.T && (c0 == c * C || c0 == x.T)
      invariant StateSoFar(x, init, state[..], h, c0) && OutSoFar(x, init, out[..], h, c0)
      decreases x.T - c0
    {
      var cs := if C < x.T - c0 then C else x.T - c0;
      CountCovers(x.T, C, c);
      ForwardStep(x, h, c, cs, C, gCum, a0, init, state, out, s0, gc, egc, u, uq, qs, rp, d);
      c, c0 := c + 1, c0 + cs;
    }
    NextHead(x, init, state[..], out[..], h);
  }

  /** Stage 2. */
  method DeltanetChunkForward(x: Net, chunkSize: nat, gCum: seq<real>, a0: seq<real>, state: array<real>,
                              out: array<real>)
    requires x.Shaped() && IsExp(x.exp)
    requires chunkSize > 0 ==> GateBuffer(x, chunkSize, gCum) && InverseBuffer(x, chunkSize, a0)
    requires chunkSize == 0 ==> GateBuffer(x, 64, gCum) && InverseBuffer(x, 64, a0)
    requires state.Length == x.H * x.S * x.S && out.Length == x.T * x.H * x.S && state != out
    modifies state, out
    ensures state[..] == FinalState(x, old(state[..]))
    ensures out[..] == Output(x, old(state[..]))
  {
    hide HeadIs, RowIs, StateAfter, Output, Cell, Entry, Deltas, Col, Start, Dot, Cum, StateSoFar, OutSoFar, GateBuffer,
         InverseBuffer, ChunkCount;
    ghost var init := state[..];
    var C := Width(chunkSize);
    var S := x.S;
    var s0 := new real[S * S];
    var gc, egc := new real[C], new real[C];
    var u, uq, qs, rp, d := new real[C * S], new real[C * S], new real[C * S], new real[C * S], new real[C * S];
    StartSoFar(x, init, out[..]);
    for h := 0 to x.H
      invariant StateSoFar(x, init, state[..], h, 0) && OutSoFar(x, init, out[..], h, 0)
    {
      ForwardHead(x, h, C, gCum, a0, init, state, out, s0, gc, egc, u, uq, qs, rp, d);
    }
    AllHeads(x, init, state[..], out[..]);
    StateFromHeads(x, init, state[..], x.T);
    OutFromRows(x, init, out[..]);
  }

  /** The three stages in order, through their hand-off buffers. */
  method GatedDeltaNetStaged(x: Net, chunkSize: nat, state: array<real>, out: array<real>)
    requires x.Shaped() && IsExp(x.exp)
    requires state.Length == x.H * x.S * x.S && out.Length == x.T * x.H * x.S && state != out
    modifies state, out
    ensures state[..] == FinalState(x, old(state[..]))
    ensures out[..] == Output(x, old(state[..]))
  {
    hide StateAfter, Output, GateBuffer, InverseBuffer, ChunkCount;
    var C := Width(chunkSize);
    var gCum := new real[x.T * x.H];
    var a0 := new real[ChunkCount(x.T, C) * x.H * C * C];
    DeltanetChunkCumGate(x, chunkSize, gCum);
    DeltanetKktSolveInverse(x, chunkSize, a0);
    DeltanetChunkForward(x, chunkSize, gCum[..], a0[..], state, out);
  }
}
