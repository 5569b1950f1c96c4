/** gatedDeltaNetChunk: chunks of C tokens, each solving one unit lower-triangular system. */
module Chunked {
  import opened Sums
  import opened Buffers
  import opened Exponential
  import opened DeltaSpec
  import opened ChunkAlgebra
  import opened DeltaNet
  import opened ChunkStages

  /** Inclusive prefix sums of the log-decay within the chunk, and their exponentials. */
  method Gates(x: Net, h: nat, c0: nat, cs: nat, gcum: array<real>, egc: array<real>)
    requires InChunk(x, h, c0, cs) && cs <= gcum.Length && cs <= egc.Length && gcum != egc
    modifies gcum, egc
    ensures GatesAre(x.HeadOf(h), c0, cs, gcum[..], egc[..])
  {
    hide Cell, Decays, DecayFactor;
    var run := 0.0;
    for a := 0 to cs
      invariant run == Cum(x.HeadOf(h), c0, a)
      invariant forall p | 0 <= p < a :: gcum[p] == Cum(x.HeadOf(h), c0, p + 1) && egc[p] == x.exp(gcum[p])
    {
      ChunkBounds(x, h, c0, cs, cs, a);
      run := run + At(x.gLog, x.H, c0 + a, h);
      gcum[a] := run;
      DecayExponents(x, h, c0, a, a);
      egc[a] := DecayFactor(x, run);
    }
  }

  /** Accumulated dot product of two buffer rows. */
  method RowDot(y: seq<real>, w: nat, yr: nat, z: seq<real>, zr: nat) returns (s: real)
    requires HasRow(|y|, w, yr) && HasRow(|z|, w, zr)
    ensures s == Dot(0, w, Row(y, w, yr), Row(z, w, zr))
  {
    hide Cell;
    s := 0.0;
    for i := 0 to w
      invariant s == Dot(0, i, Row(y, w, yr), Row(z, w, zr))
    {
      s := s + At(y, w, yr, i) * At(z, w, zr, i);
    }
  }

  /** kq[a,m] = k_m . qs_a, and the strict-lower gated Gram amat[a,m]. */
  ghost predicate GramsAre(hd: Head, c0: int, cs: int, C: int, n: int, kq: seq<real>, amat: seq<real>) {
    && (forall a, m | 0 <= a < n && 0 <= m < cs :: Cell(kq, C, a, m) == KqRows(hd, c0)(a)(m))
    && (forall a, m | 0 <= a < n && 0 <= m < cs :: Cell(amat, C, a, m) == if m < a then GatedRow(hd, c0, a)(m) else 0.0)
  }

  function KqRows(hd: Head, c0: int): int -> int -> real { a => m => Dot(0, hd.S, hd.k(c0 + m), hd.qs(c0 + a)) }

  /** Row a of both matrices. */
  method GramRow(x: Net, h: nat, c0: nat, cs: nat, C: nat, a: nat, gcum: seq<real>, qs: seq<real>, kq: array<real>,
                 amat: array<real>)
    requires InChunk(x, h, c0, cs) && a < cs <= C && |qs| == C * x.S && cs <= |gcum|
    requires kq.Length == amat.Length == C * C && kq != amat
    requires forall p | 0 <= p < cs :: gcum[p] == Cum(x.HeadOf(h), c0, p + 1)
    requires RowsAre(qs, x.S, cs, QsRows(x.HeadOf(h), c0))
    modifies kq, amat
    ensures forall m | 0 <= m < cs :: Cell(kq[..], C, a, m) == KqRows(x.HeadOf(h), c0)(a)(m)
    ensures forall m | 0 <= m < cs :: Cell(amat[..], C, a, m) == if m < a then GatedRow(x.HeadOf(h), c0, a)(m) else 0.0
    ensures OnlyRow(old(kq[..]), kq[..], C, a) && OnlyRow(old(amat[..]), amat[..], C, a)
  {
    hide Dot, Cum, KqRows, GatedRow, Cell, Decays, DecayFactor;
    ghost var hd := x.HeadOf(h);
    ChunkBounds(x, h, c0, cs, C, a);
    var b := At(x.beta, x.H, c0 + a, h);
    for m := 0 to cs
      invariant forall m' | 0 <= m' < m :: Cell(kq[..], C, a, m') == KqRows(hd, c0)(a)(m')
      invariant forall m' | 0 <= m' < m :: Cell(amat[..], C, a, m') == if m' < a then GatedRow(hd, c0, a)(m') else 0.0
      invariant OnlyRow(old(kq[..]), kq[..], C, a) && OnlyRow(old(amat[..]), amat[..], C, a)
    {
      ChunkBounds(x, h, c0, cs, C, m);
      var kk := RowDot(x.k, x.S, (c0 + a) * x.H + h, x.k, (c0 + m) * x.H + h);
      var kqv := RowDot(x.k, x.S, (c0 + m) * x.H + h, qs, a);
      GramEntry(x, h, c0, cs, a, m, qs, b, kk, kqv, x.exp(gcum[a] - gcum[m]));
      SetCell(kq, C, a, m, kqv);
      if m < a { DecayExponents(x, h, c0, a, m); }
      SetCell(amat, C, a, m, if m < a then b * kk * DecayFactor(x, gcum[a] - gcum[m]) else 0.0);
    }
  }

  lemma GramEntry(x: Net, h: nat, c0: nat, cs: nat, a: nat, m: nat, qs: seq<real>, b: real, kk: real, kqv: real,
                  e: real)
    requires a < cs && m < cs && RowsAre(qs, x.S, cs, QsRows(x.HeadOf(h), c0))
    requires b == Cell(x.beta, x.H, c0 + a, h)
    requires kk == Dot(0, x.S, Row(x.k, x.S, (c0 + a) * x.H + h), Row(x.k, x.S, (c0 + m) * x.H + h))
    requires kqv == Dot(0, x.S, Row(x.k, x.S, (c0 + m) * x.H + h), Row(qs, x.S, a))
    requires e == x.exp(Cum(x.HeadOf(h), c0, a + 1) - Cum(x.HeadOf(h), c0, m + 1))
    ensures kqv == KqRows(x.HeadOf(h), c0)(a)(m)
    ensures b * kk * e == GatedRow(x.HeadOf(h), c0, a)(m)
  {
    hide Dot, Cell, Cum;
    var hd := x.HeadOf(h);
    assert hd.k(c0 + a) == Row(x.k, x.S, (c0 + a) * x.H + h) && hd.k(c0 + m) == Row(x.k, x.S, (c0 + m) * x.H + h);
    DotAgree(0, x.S, hd.k(c0 + m), hd.k(c0 + m), Row(qs, x.S, a), hd.qs(c0 + a));
  }

  method Grams(x: Net, h: nat, c0: nat, cs: nat, C: nat, gcum: seq<real>, qs: seq<real>, kq: array<real>,
               amat: array<real>)
    requires InChunk(x, h, c0, cs) && cs <= C && |qs| == C * x.S && cs <= |gcum|
    requires kq.Length == amat.Length == C * C && kq != amat
    requires forall p | 0 <= p < cs :: gcum[p] == Cum(x.HeadOf(h), c0, p + 1)
    requires RowsAre(qs, x.S, cs, QsRows(x.HeadOf(h), c0))
    modifies kq, amat
    ensures GramsAre(x.HeadOf(h), c0, cs, C, cs, kq[..], amat[..])
  {
    hide Dot, Cum, KqRows, GatedRow, Cell;
    for a := 0 to cs
      invariant GramsAre(x.HeadOf(h), c0, cs, C, a, kq[..], amat[..])
    {
      GramRow(x, h, c0, cs, C, a, gcum, qs, kq, amat);
    }
  }

  /** The running row of the forward substitution: r_a minus the first m terms. */
  ghost predicate SolvePrefix(x: Net, h: int, c0: int, s0: seq<real>, d: seq<real>, a: int, m: int) {
    forall j | 0 <= j < x.S :: Cell(d, x.S, a, j)
      == RhsRows(x.HeadOf(h), s0, c0)(a)(j) - Dot(0, m, GatedRow(x.HeadOf(h), c0, a),
          Deltas(x.HeadOf(h), j, Start(x.S, s0, j), c0))
  }

  lemma SolvePrefixStart(x: Net, h: int, c0: int, s0: seq<real>, d: seq<real>, a: int)
    requires forall j | 0 <= j < x.S :: Cell(d, x.S, a, j) == RhsRows(x.HeadOf(h), s0, c0)(a)(j)
    ensures SolvePrefix(x, h, c0, s0, d, a, 0)
  {
    hide Cell, RhsRows, GatedRow, Deltas;
  }

  lemma SolvePrefixStep(x: Net, h: int, c0: int, s0: seq<real>, d1: seq<real>, d2: seq<real>, a: int, m: nat, amm: real)
    requires SolvePrefix(x, h, c0, s0, d1, a, m) && amm == GatedRow(x.HeadOf(h), c0, a)(m)
    requires forall j | 0 <= j < x.S :: Cell(d1, x.S, m, j) == DeltaRows(x.HeadOf(h), s0, c0)(m)(j)
    requires forall j | 0 <= j < x.S :: Cell(d2, x.S, a, j) == MulAdd(Cell(d1, x.S, a, j), Cell(d1, x.S, m, j), -amm)
    ensures SolvePrefix(x, h, c0, s0, d2, a, m + 1)
  {
    hide Cell, Dot, RhsRows, GatedRow, Deltas;
    var hd := x.HeadOf(h);
    forall j | 0 <= j < x.S ensures Cell(d2, x.S, a, j)
        == RhsRows(hd, s0, c0)(a)(j) - Dot(0, m + 1, GatedRow(hd, c0, a), Deltas(hd, j, Start(x.S, s0, j), c0)) {
      DotPeel(0, m, GatedRow(hd, c0, a), Deltas(hd, j, Start(x.S, s0, j), c0));
      assert Cell(d1, x.S, m, j) == Deltas(hd, j, Start(x.S, s0, j), c0)(m);
    }
  }

  lemma SolvePrefixEnd(x: Net, h: int, c0: int, s0: seq<real>, d: seq<real>, a: nat)
    requires SolvePrefix(x, h, c0, s0, d, a, a) && IsExp(x.exp)
    ensures forall j | 0 <= j < x.S :: Cell(d, x.S, a, j) == DeltaRows(x.HeadOf(h), s0, c0)(a)(j)
  {
    hide Cell, Dot, Rhs, GatedRow, Deltas;
    forall j | 0 <= j < x.S ensures Cell(d, x.S, a, j) == DeltaRows(x.HeadOf(h), s0, c0)(a)(j) {
      DeltasSolve(x.HeadOf(h), j, Start(x.S, s0, j), c0, a);
    }
  }

  /** Forward substitution over the chunk yields the recurrence's deltas. */
  method Solve(x: Net, h: nat, c0: nat, cs: nat, C: nat, s0: seq<real>, egc: seq<real>, u: seq<real>, amat: seq<real>,
               d: array<real>)
    requires InChunk(x, h, c0, cs) && cs <= C && IsExp(x.exp)
    requires |u| == C * x.S && |amat| == C * C && d.Length == C * x.S && cs <= |egc|
    requires forall a | 0 <= a < cs :: egc[a] == x.exp(Cum(x.HeadOf(h), c0, a + 1))
    requires RowsAre(u, x.S, cs, KeyReads(x.HeadOf(h), s0, c0))
    requires forall a, m | 0 <= a < cs && 0 <= m < a :: Cell(amat, C, a, m) == GatedRow(x.HeadOf(h), c0, a)(m)
    modifies d
    ensures RowsAre(d[..], x.S, cs, DeltaRows(x.HeadOf(h), s0, c0))
  {
    hide Cell, Dot, Cum, GatedRow, MulAdd, KeyReads, RhsRows, DeltaRows, SolvePrefix;
    ghost var rows := DeltaRows(x.HeadOf(h), s0, c0);
    for a := 0 to cs
      invariant RowsAre(d[..], x.S, a, rows)
    {
      ghost var d0 := d[..];
      RhsRow(x, h, c0, cs, C, s0, a, egc[a], u, d);
      SolvePrefixStart(x, h, c0, s0, d[..], a);
      for m := 0 to a
        invariant OnlyRow(d0, d[..], x.S, a) && SolvePrefix(x, h, c0, s0, d[..], a, m)
      {
        ChunkBounds(x, h, c0, cs, C, a);
        ChunkBounds(x, h, c0, cs, C, m);
        var amm := At(amat, C, a, m);
        ghost var d1 := d[..];
        AddScaledRow(d, x.S, a, -amm, d[..], m);
        SolvePrefixStep(x, h, c0, s0, d1, d[..], a, m, amm);
      }
      SolvePrefixEnd(x, h, c0, s0, d[..], a);
      RowsGrow(d0, d[..], x.S, a, rows);
    }
  }

  /** o_a for one token of the chunk. */
  method WriteOutput(x: Net, h: nat, c0: nat, cs: nat, C: nat, s0: seq<real>, a: nat, gcum: seq<real>, egc: seq<real>,
                     uq: seq<real>, kq: seq<real>, d: seq<real>, out: array<real>)
    requires InChunk(x, h, c0, cs) && a < cs <= C && IsExp(x.exp) && out.Length == x.T * x.H * x.S
    requires |uq| == |d| == C * x.S && |kq| == C * C && GatesAre(x.HeadOf(h), c0, cs, gcum, egc)
    requires RowsAre(uq, x.S, cs, QueryReads(x.HeadOf(h), s0, c0))
    requires RowsAre(d, x.S, cs, DeltaRows(x.HeadOf(h), s0, c0))
    requires forall m | 0 <= m < cs :: Cell(kq, C, a, m) == KqRows(x.HeadOf(h), c0)(a)(m)
    modifies out
    ensures forall j | 0 <= j < x.S ::
        OutCell(x, out[..], c0 + a, h, j) == Read(x.HeadOf(h), j, Start(x.S, s0, j), c0, a)
    ensures OnlyRow(old(out[..]), out[..], x.S, (c0 + a) * x.H + h)
  {
    hide Cell, Dot, Cum, MulAdd, QueryReads, DeltaRows, OutputPrefix, KqRows, ReadRow, Read, Decays, DecayFactor, Times;
    ChunkBounds(x, h, c0, cs, C, a);
    var tr := (c0 + a) * x.H + h;
    ScaleInto(out, x.S, tr, egc[a], uq, a);
    OutputPrefixStart(x, out[..], h, c0, cs, a, s0, uq, egc[a]);
    for m := 0 to a + 1
      invariant OnlyRow(old(out[..]), out[..], x.S, tr) && OutputPrefix(x, out[..], h, c0, a, m, s0)
    {
      ChunkBounds(x, h, c0, cs, C, m);
      DecayExponents(x, h, c0, a, m);
      var w := Times(DecayFactor(x, gcum[a] - gcum[m]), At(kq, C, a, m));
      ReadWeight(x, h, c0, a, m, gcum[a], gcum[m], Cell(kq, C, a, m));
      ghost var before := out[..];
      AddScaledRow(out, x.S, tr, w, d, m);
      OutputPrefixStep(x, before, out[..], h, c0, a, m, s0, d, w);
    }
    OutputPrefixEnd(x, out[..], h, c0, a, s0);
  }

  /** o_a for every token of the chunk, from the precomputed k_m . qs_a. */
  method WriteOutputs(x: Net, h: nat, c0: nat, cs: nat, C: nat, s0: seq<real>, gcum: seq<real>, egc: seq<real>,
                      uq: seq<real>, kq: seq<real>, d: seq<real>, out: array<real>)
    requires InChunk(x, h, c0, cs) && cs <= C && IsExp(x.exp) && out.Length == x.T * x.H * x.S
    requires |uq| == |d| == C * x.S && |kq| == C * C && GatesAre(x.HeadOf(h), c0, cs, gcum, egc)
    requires RowsAre(uq, x.S, cs, QueryReads(x.HeadOf(h), s0, c0))
    requires RowsAre(d, x.S, cs, DeltaRows(x.HeadOf(h), s0, c0))
    requires forall a, m | 0 <= a < cs && 0 <= m < cs :: Cell(kq, C, a, m) == KqRows(x.HeadOf(h), c0)(a)(m)
    modifies out
    ensures OutputsAre(x, out[..], h, c0, cs, s0) && OnlyTokens(x, old(out[..]), out[..], h, c0, cs)
  {
    hide Cell, Dot, Cum, QueryReads, DeltaRows, RowsAre, GatesAre, OutputsAre, OnlyTokens, KqRows, Read;
    OutputsEmpty(x, out[..], h, c0, s0);
    for a := 0 to cs
      invariant OutputsAre(x, out[..], h, c0, a, s0) && OnlyTokens(x, old(out[..]), out[..], h, c0, a)
    {
      ghost var o1 := out[..];
      WriteOutput(x, h, c0, cs, C, s0, a, gcum, egc, uq, kq, d, out);
      OutputsGrow(x, old(out[..]), o1, out[..], h, c0, a, s0);
    }
  }

  lemma OutputsEmpty(x: Net, out: seq<real>, h: int, c0: int, s0: seq<real>)
    ensures OutputsAre(x, out, h, c0, 0, s0) && OnlyTokens(x, out, out, h, c0, 0)
  {
  }

  lemma ReadWeight(x: Net, h: int, c0: int, a: int, m: int, ga: real, gm: real, kq: real)
    requires ga == Cum(x.HeadOf(h), c0, a + 1) && gm == Cum(x.HeadOf(h), c0, m + 1)
    requires kq == KqRows(x.HeadOf(h), c0)(a)(m)
    ensures Times(x.exp(ga - gm), kq) == ReadRow(x.HeadOf(h), c0, a)(m)
  {
    hide Dot, Cum, Cell;
  }

  /** What the output and carry stages need of the scratch buffers. */
  ghost predicate Solved(x: Net, h: int, c0: int, cs: int, C: int, s0: seq<real>,
                         gcum: seq<real>, egc: seq<real>, uq: seq<real>, kq: seq<real>, d: seq<real>)
  {
    && |uq| == |d| == C * x.S && |kq| == C * C && GatesAre(x.HeadOf(h), c0, cs, gcum, egc)
    && RowsAre(uq, x.S, cs, QueryReads(x.HeadOf(h), s0, c0))
    && RowsAre(d, x.S, cs, DeltaRows(x.HeadOf(h), s0, c0))
    && (forall a, m | 0 <= a < cs && 0 <= m < cs :: Cell(kq, C, a, m) == KqRows(x.HeadOf(h), c0)(a)(m))
  }

  /** Everything of a chunk up to its deltas; old scratch contents never matter. */
  method SolveChunk(x: Net, h: nat, c0: nat, cs: nat, C: nat, s0: seq<real>, gcum: array<real>, egc: array<real>,
                    u: array<real>, uq: array<real>, qs: array<real>, amat: array<real>, kq: array<real>,
                        d: array<real>)
    requires InChunk(x, h, c0, cs) && cs <= C && IsExp(x.exp) && |s0| == x.S * x.S
    requires gcum.Length == egc.Length == C && u.Length == uq.Length == qs.Length == d.Length == C * x.S
    requires amat.Length == kq.Length == C * C
    requires gcum !in {egc, u, uq, qs, amat, kq, d} && egc !in {u, uq, qs, amat, kq, d} && u !in {uq, qs, amat, kq, d}
    requires uq !in {qs, amat, kq, d} && qs !in {amat, kq, d} && amat !in {kq, d} && kq != d
    modifies gcum, egc, u, uq, qs, amat, kq, d
    ensures Solved(x, h, c0, cs, C, s0, gcum[..], egc[..], uq[..], kq[..], d[..])
  {
    hide Cell, Entry, GatedRow, Deltas, Col, Dot, Cum, KeyReads, QueryReads, QsRows, KqRows, DeltaRows, RowsAre;
    Gates(x, h, c0, cs, gcum, egc);
    Project(x, h, c0, cs, C, s0, qs, u, uq);
    Grams(x, h, c0, cs, C, gcum[..], qs[..], kq, amat);
    Solve(x, h, c0, cs, C, s0, egc[..], u[..], amat[..], d);
  }

  /** One chunk of one head, state and output included. */
  method ChunkStep(x: Net, h: nat, c0: nat, cs: nat, C: nat, ghost init: seq<real>, state: array<real>,
                   out: array<real>,
                   s0: array<real>, gcum: array<real>, egc: array<real>, u: array<real>, uq: array<real>,
                       qs: array<real>,
                   amat: array<real>, kq: array<real>, d: array<real>)
    requires InChunk(x, h, c0, cs) && cs <= C && IsExp(x.exp)
    requires state.Length == x.H * x.S * x.S && out.Length == x.T * x.H * x.S && state != out
    requires s0.Length == x.S * x.S && gcum.Length == egc.Length == C
    requires u.Length == uq.Length == qs.Length == d.Length == C * x.S && amat.Length == kq.Length == C * C
    requires {state, out} !! {s0, gcum, egc, u, uq, qs, amat, kq, d} && s0 !in {gcum, egc, u, uq, qs, amat, kq, d}
    requires gcum !in {egc, u, uq, qs, amat, kq, d} && egc !in {u, uq, qs, amat, kq, d} && u !in {uq, qs, amat, kq, d}
    requires uq !in {qs, amat, kq, d} && qs !in {amat, kq, d} && amat !in {kq, d} && kq != d
    requires StateSoFar(x, init, state[..], h, c0) && OutSoFar(x, init, out[..], h, c0)
    modifies state, out, s0, gcum, egc, u, uq, qs, amat, kq, d
    ensures StateSoFar(x, init, state[..], h, c0 + cs) && OutSoFar(x, init, out[..], h, c0 + cs)
  {
    hide HeadIs, RowIs, Cell, Entry, GatedRow, Deltas, Col, Start, Dot, Cum, KeyReads, QueryReads, QsRows, KqRows,
         DeltaRows, RowsAre, SnapshotOf, OutputsAre, OnlyTokens, StateSoFar, OutSoFar;
    ghost var s1, o1 := state[..], out[..];
    Snapshot(x, h, state, s0);
    SolveChunk(x, h, c0, cs, C, s0[..], gcum, egc, u, uq, qs, amat, kq, d);
    WriteOutputs(x, h, c0, cs, C, s0[..], gcum[..], egc[..], uq[..], kq[..], d[..], out);
    OutChunkStep(x, init, s1, o1, out[..], s0[..], h, c0, cs);
    DecayExponents(x, h, c0, cs - 1, cs - 1);
    var eLast := DecayFactor(x, gcum[cs - 1]);
    Carry(x, h, c0, cs, C, s0[..], gcum[..], eLast, d[..], state);
    StateChunkStep(x, init, s1, state[..], s0[..], h, c0, cs);
  }

  /** Every chunk of one head. */
  method ChunkHeadLoop(x: Net, h: nat, C: nat, ghost init: seq<real>, state: array<real>, out: array<real>,
                       s0: array<real>, gcum: array<real>, egc: array<real>, u: array<real>, uq: array<real>,
                           qs: array<real>,
                       amat: array<real>, kq: array<real>, d: array<real>)
    requires x.Shaped() && h < x.H && C > 0 && IsExp(x.exp)
    requires state.Length == x.H * x.S * x.S && out.Length == x.T * x.H * x.S && state != out
    requires s0.Length == x.S * x.S && gcum.Length == egc.Length == C
    requires u.Length == uq.Length == qs.Length == d.Length == C * x.S && amat.Length == kq.Length == C * C
    requires {state, out} !! {s0, gcum, egc, u, uq, qs, amat, kq, d} && s0 !in {gcum, egc, u, uq, qs, amat, kq, d}
    requires gcum !in {egc, u, uq, qs, amat, kq, d} && egc !in {u, uq, qs, amat, kq, d} && u !in {uq, qs, amat, kq, d}
    requires uq !in {qs, amat, kq, d} && qs !in {amat, kq, d} && amat !in {kq, d} && kq != d
    requires StateSoFar(x, init, state[..], h, 0) && OutSoFar(x, init, out[..], h, 0)
    modifies state, out, s0, gcum, egc, u, uq, qs, amat, kq, d
    ensures StateSoFar(x, init, state[..], h + 1, 0) && OutSoFar(x, init, out[..], h + 1, 0)
  {
    hide StateSoFar, OutSoFar;
    var c0 := 0;
    while c0 < x.T
      invariant 0 <= c0 <= x.T && StateSoFar(x, init, state[..], h, c0) && OutSoFar(x, init, out[..], h, c0)
      decreases x.T - c0
    {
      var cs := if C < x.T - c0 then C else x.T - c0;
      ChunkStep(x, h, c0, cs, C, init, state, out, s0, gcum, egc, u, uq, qs, amat, kq, d);
      c0 := c0 + cs;
    }
    NextHead(x, init, state[..], out[..], h);
  }

  method GatedDeltaNetChunk(x: Net, chunkSize: nat, state: array<real>, out: array<real>)
    requires x.Shaped() && IsExp(x.exp)
    requires state.Length == x.H * x.S * x.S && out.Length == x.T * x.H * x.S && state != out
    modifies state, out
    ensures state[..] == FinalState(x, old(state[..]))
    ensures out[..] == Output(x, old(state[..]))
  {
    hide HeadIs, RowIs, StateAfter, Output, Cell, Entry, GatedRow, Deltas, Col, Start, Dot, Cum, KeyReads, QueryReads,
        QsRows, KqRows,
         DeltaRows, RowsAre, SnapshotOf, OutputsAre, OnlyTokens, StateSoFar, OutSoFar;
    ghost var init := state[..];
    var C := Width(chunkSize);
    var S := x.S;
    var s0 := new real[S * S];
    var gcum, egc := new real[C], new real[C];
    var u, uq, qs, d := new real[C * S], new real[C * S], new real[C * S], new real[C * S];
    var amat, kq := new real[C * C], new real[C * C];
    StartSoFar(x, init, out[..]);
    for h := 0 to x.H
      invariant StateSoFar(x, init, state[..], h, 0) && OutSoFar(x, init, out[..], h, 0)
    {
      ChunkHeadLoop(x, h, C, init, state, out, s0, gcum, egc, u, uq, qs, amat, kq, d);
    }
    AllHeads(x, init, state[..], out[..]);
    StateFromHeads(x, init, state[..], x.T);
    OutFromRows(x, init, out[..]);
  }
}
