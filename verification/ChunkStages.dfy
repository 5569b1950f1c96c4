/** The stages of one chunk of one head that the monolithic and the three-stage forms share,
    each against the recurrence's own quantities. `s0` is the chunk-start snapshot of the head's
    state block, `hd` the head, and the chunk is tokens c0 .. c0+cs-1. */
module ChunkStages {
  import opened Sums
  import opened Buffers
  import opened Kernels
  import opened Exponential
  import opened DeltaSpec
  import opened ChunkAlgebra
  import opened DeltaNet
  import Recurrent

  /** The chunk width: 0 asks for the default of 64. */
  function Width(chunkSize: nat): (C: nat)
    ensures chunkSize > 0 ==> C == chunkSize
    ensures chunkSize == 0 ==> C == 64
  {
    if chunkSize == 0 then 64 else chunkSize
  }

  /** Column j of the snapshot. */
  function Start(S: int, s0: seq<real>, j: int): int -> real { Column(s0, S, 0, j) }

  lemma CumNext(x: Net, h: nat, c0: nat, a: int)
    requires -1 <= a
    ensures a < 0 ==> Cum(x.HeadOf(h), c0, a + 1) == 0.0
    ensures 0 <= a ==> Cum(x.HeadOf(h), c0, a + 1) == Cum(x.HeadOf(h), c0, a) + Cell(x.gLog, x.H, c0 + a, h)
  {
    hide Cell;
  }

  /** Prefix sums never increase inside a chunk. */
  lemma {:induction false} CumFalls(x: Net, h: nat, c0: nat, m: nat, n: nat)
    requires Decays(x) && h < x.H && m <= n && c0 + n <= x.T
    ensures Cum(x.HeadOf(h), c0, n) <= Cum(x.HeadOf(h), c0, m)
    decreases n
  {
    hide Cell;
    if m < n {
      CumFalls(x, h, c0, m, n - 1);
      CumNext(x, h, c0, n - 1);
    }
  }

  /** The exponents of a chunk: G_a, and G_a - G_m for m <= a (G_last - G_m included), are not positive. */
  lemma DecayExponents(x: Net, h: nat, c0: nat, a: nat, m: nat)
    requires h < x.H && m <= a && c0 + a < x.T
    ensures Decays(x) ==> Cum(x.HeadOf(h), c0, a + 1) <= 0.0
    ensures Decays(x) ==> Cum(x.HeadOf(h), c0, a + 1) - Cum(x.HeadOf(h), c0, m + 1) <= 0.0
  {
    hide Cum, Decays;
    if Decays(x) {
      CumNext(x, h, c0, -1);
      CumFalls(x, h, c0, 0, a + 1);
      CumFalls(x, h, c0, m + 1, a + 1);
    }
  }

  ghost predicate InChunk(x: Net, h: int, c0: int, cs: int) {
    x.Shaped() && 0 <= h < x.H && 0 <= c0 && 0 < cs && c0 + cs <= x.T
  }

  /** gcum[a] = G_a and egc[a] = exp(G_a). */
  ghost predicate GatesAre(hd: Head, c0: int, cs: int, gcum: seq<real>, egc: seq<real>) {
    && cs <= |gcum| && cs <= |egc|
    && forall a | 0 <= a < cs :: gcum[a] == Cum(hd, c0, a + 1) && egc[a] == hd.exp(gcum[a])
  }

  /** Row a of `y` is f(a), for a < n. */
  ghost predicate RowsAre(y: seq<real>, w: int, n: int, f: int -> int -> real) {
    forall a, j | 0 <= a < n && 0 <= j < w :: Cell(y, w, a, j) == f(a)(j)
  }

  function QsRows(hd: Head, c0: int): int -> int -> real { a => hd.qs(c0 + a) }

  /** a |-> j |-> s0^T k_a. */
  function KeyReads(hd: Head, s0: seq<real>, c0: int): int -> int -> real {
    a => j => Dot(0, hd.S, Start(hd.S, s0, j), hd.k(c0 + a))
  }

  function QueryReads(hd: Head, s0: seq<real>, c0: int): int -> int -> real {
    a => j => Dot(0, hd.S, Start(hd.S, s0, j), hd.qs(c0 + a))
  }

  function DeltaRows(hd: Head, s0: seq<real>, c0: int): int -> int -> real {
    a => j => Deltas(hd, j, Start(hd.S, s0, j), c0)(a)
  }

  function RhsRows(hd: Head, s0: seq<real>, c0: int): int -> int -> real {
    a => j => Rhs(hd, j, Start(hd.S, s0, j), c0)(a)
  }

  /** Snapshot the head's block. */
  method Snapshot(x: Net, h: nat, state: array<real>, s0: array<real>)
    requires h < x.H && state.Length == x.H * x.S * x.S && s0.Length == x.S * x.S && s0 != state
    modifies s0
    ensures SnapshotOf(x, h, state[..], s0[..])
  {
    hide Cell;
    RowBound(h, x.H, x.S);
    RowBoundLe(h * x.S + x.S, x.H * x.S, x.S);
    SetScaledBlock(s0, x.S, 0, x.S, 1.0, state[..], h * x.S);
  }

  /** The row bounds of token c0+a and of scratch row a. */
  lemma ChunkBounds(x: Net, h: nat, c0: nat, cs: nat, C: nat, a: nat)
    requires InChunk(x, h, c0, cs) && a < cs <= C
    ensures 0 <= (c0 + a) * x.H + h
    ensures HasRow(x.T * x.H * x.S, x.S, (c0 + a) * x.H + h) && HasRow(x.T * x.H, x.H, c0 + a)
    ensures HasRow(C * x.S, x.S, a) && HasBlock(x.S * x.S, x.S, 0, x.S) && HasRow(C * C, C, a)
  {
    Recurrent.TokenBounds(x, c0 + a, h);
    RowBound(a, C, x.S);
    RowBound(a, C, C);
  }

  /** qs, u = s0^T k and uq = s0^T qs for every token of the chunk. */
  method Project(x: Net, h: nat, c0: nat, cs: nat, C: nat, s0: seq<real>, qs: array<real>, u: array<real>,
                 uq: array<real>)
    requires InChunk(x, h, c0, cs) && cs <= C && |s0| == x.S * x.S
    requires qs.Length == u.Length == uq.Length == C * x.S && qs != u && qs != uq && u != uq
    modifies qs, u, uq
    ensures RowsAre(qs[..], x.S, cs, QsRows(x.HeadOf(h), c0))
    ensures RowsAre(u[..], x.S, cs, KeyReads(x.HeadOf(h), s0, c0))
    ensures RowsAre(uq[..], x.S, cs, QueryReads(x.HeadOf(h), s0, c0))
  {
    hide Cell, Dot, QsRows, KeyReads, QueryReads;
    ghost var hd := x.HeadOf(h);
    for a := 0 to cs
      invariant RowsAre(qs[..], x.S, a, QsRows(hd, c0))
      invariant RowsAre(u[..], x.S, a, KeyReads(hd, s0, c0))
      invariant RowsAre(uq[..], x.S, a, QueryReads(hd, s0, c0))
    {
      ChunkBounds(x, h, c0, cs, C, a);
      var tr := (c0 + a) * x.H + h;
      ghost var qs0, u0, uq0 := qs[..], u[..], uq[..];
      SetScaledRow(qs, x.S, a, x.qScale, x.q, tr);
      FillRow(u, x.S, a, 0.0);
      FillRow(uq, x.S, a, 0.0);
      Accumulate(u, x.S, a, s0, 0, x.S, x.k, x.S, tr);
      Accumulate(uq, x.S, a, s0, 0, x.S, qs[..], x.S, a);
      QsRow(x, h, c0, a, qs[..]);
      KeyRow(x, h, c0, a, s0, u[..]);
      QueryRow(x, h, c0, a, s0, qs[..], uq[..]);
      RowsGrow(qs0, qs[..], x.S, a, QsRows(hd, c0));
      RowsGrow(u0, u[..], x.S, a, KeyReads(hd, s0, c0));
      RowsGrow(uq0, uq[..], x.S, a, QueryReads(hd, s0, c0));
    }
  }

  /** One more row written, the others kept. */
  lemma RowsGrow(y0: seq<real>, y: seq<real>, w: int, a: nat, f: int -> int -> real)
    requires RowsAre(y0, w, a, f) && OnlyRow(y0, y, w, a)
    requires forall j | 0 <= j < w :: Cell(y, w, a, j) == f(a)(j)
    ensures RowsAre(y, w, a + 1, f)
  {
    hide Cell;
  }

  lemma QsRow(x: Net, h: int, c0: int, a: int, qs: seq<real>)
    requires forall j | 0 <= j < x.S :: Cell(qs, x.S, a, j) == Cell(x.q, x.S, (c0 + a) * x.H + h, j) * x.qScale
    ensures forall j | 0 <= j < x.S :: Cell(qs, x.S, a, j) == QsRows(x.HeadOf(h), c0)(a)(j)
  {
    hide Cell;
  }

  lemma KeyRow(x: Net, h: int, c0: int, a: int, s0: seq<real>, u: seq<real>)
    requires forall j | 0 <= j < x.S :: Cell(u, x.S, a, j)
               == 0.0 + Dot(0, x.S, Column(s0, x.S, 0, j), Row(x.k, x.S, (c0 + a) * x.H + h))
    ensures forall j | 0 <= j < x.S :: Cell(u, x.S, a, j) == KeyReads(x.HeadOf(h), s0, c0)(a)(j)
  {
    hide Cell, Dot;
    assert x.HeadOf(h).k(c0 + a) == Row(x.k, x.S, (c0 + a) * x.H + h);
    forall j | 0 <= j < x.S ensures Cell(u, x.S, a, j) == KeyReads(x.HeadOf(h), s0, c0)(a)(j) {
      assert Start(x.S, s0, j) == Column(s0, x.S, 0, j);
    }
  }

  lemma QueryRow(x: Net, h: int, c0: int, a: int, s0: seq<real>, qs: seq<real>, uq: seq<real>)
    requires forall j | 0 <= j < x.S :: Cell(qs, x.S, a, j) == QsRows(x.HeadOf(h), c0)(a)(j)
    requires forall j | 0 <= j < x.S :: Cell(uq, x.S, a, j) == 0.0 + Dot(0, x.S, Column(s0, x.S, 0, j), Row(qs, x.S, a))
    ensures forall j | 0 <= j < x.S :: Cell(uq, x.S, a, j) == QueryReads(x.HeadOf(h), s0, c0)(a)(j)
  {
    hide Cell, Dot;
    forall j | 0 <= j < x.S ensures Cell(uq, x.S, a, j) == QueryReads(x.HeadOf(h), s0, c0)(a)(j) {
      var col := Start(x.S, s0, j);
      DotAgree(0, x.S, col, col, Row(qs, x.S, a), x.HeadOf(h).qs(c0 + a));
    }
  }

  /** b*(v - e*u), elementwise. */
  function Residual(b: real, v: real, e: real, u: real): real { b * (v - e * u) }

  /** Row a := b*(v row - e * u row). */
  method ResidualRow(y: array<real>, w: nat, a: nat, b: real, v: seq<real>, vr: nat, e: real, u: seq<real>)
    requires HasRow(y.Length, w, a) && HasRow(|v|, w, vr) && HasRow(|u|, w, a)
    modifies y
    ensures forall j | 0 <= j < w :: Cell(y[..], w, a, j) == Residual(b, Cell(v, w, vr, j), e, Cell(u, w, a, j))
    ensures OnlyRow(old(y[..]), y[..], w, a)
  {
    hide Residual;
    var base, vbase := a * w, vr * w;
    for j := 0 to w
      invariant forall p | base <= p < base + j :: y[p] == Residual(b, v[p - base + vbase], e, u[p])
      invariant forall p | 0 <= p < y.Length && !(base <= p < base + j) :: y[p] == old(y[p])
    {
      y[base + j] := Residual(b, v[vbase + j], e, u[base + j]);
    }
    FrameRows(old(y[..]), y[..], w, a);
  }

  /** Row a := r_a, with r_a[j] = beta_a (v_a[j] - exp(G_a) u_a[j]). */
  method RhsRow(x: Net, h: nat, c0: nat, cs: nat, C: nat, s0: seq<real>, a: nat, e: real, u: seq<real>, y: array<real>)
    requires InChunk(x, h, c0, cs) && a < cs <= C && e == x.exp(Cum(x.HeadOf(h), c0, a + 1))
    requires |u| == C * x.S && RowsAre(u, x.S, cs, KeyReads(x.HeadOf(h), s0, c0)) && y.Length == C * x.S
    modifies y
    ensures forall j | 0 <= j < x.S :: Cell(y[..], x.S, a, j) == RhsRows(x.HeadOf(h), s0, c0)(a)(j)
    ensures OnlyRow(old(y[..]), y[..], x.S, a)
  {
    hide Dot, Cell, Cum, KeyReads, RhsRows, Residual;
    ChunkBounds(x, h, c0, cs, C, a);
    var b := At(x.beta, x.H, c0 + a, h);
    ResidualRow(y, x.S, a, b, x.v, (c0 + a) * x.H + h, e, u);
    forall j | 0 <= j < x.S ensures Cell(y[..], x.S, a, j) == RhsRows(x.HeadOf(h), s0, c0)(a)(j) {
      RhsEntry(x, h, c0, s0, a, j, b, e, Cell(u, x.S, a, j));
    }
  }

  lemma RhsEntry(x: Net, h: nat, c0: nat, s0: seq<real>, a: nat, j: int, b: real, e: real, ua: real)
    requires b == Cell(x.beta, x.H, c0 + a, h) && e == x.exp(Cum(x.HeadOf(h), c0, a + 1))
    requires ua == KeyReads(x.HeadOf(h), s0, c0)(a)(j)
    ensures Residual(b, Cell(x.v, x.S, (c0 + a) * x.H + h, j), e, ua) == RhsRows(x.HeadOf(h), s0, c0)(a)(j)
  {
    hide Dot, Cell, Cum;
    var hd := x.HeadOf(h);
    assert hd.v(c0 + a)(j) == Cell(x.v, x.S, (c0 + a) * x.H + h, j);
    assert KeyReads(hd, s0, c0)(a)(j) == Dot(0, hd.S, Start(hd.S, s0, j), hd.k(c0 + a));
    assert RhsRows(hd, s0, c0)(a)(j) == Rhs(hd, j, Start(hd.S, s0, j), c0)(a);
  }

  /** Row y := e * z. */
  method ScaleInto(y: array<real>, w: nat, r: nat, e: real, z: seq<real>, zr: nat)
    requires HasRow(y.Length, w, r) && HasRow(|z|, w, zr)
    modifies y
    ensures forall j | 0 <= j < w :: Cell(y[..], w, r, j) == e * Cell(z, w, zr, j)
    ensures OnlyRow(old(y[..]), y[..], w, r)
  {
    SetScaledRow(y, w, r, e, z, zr);
  }

  /** Rows outside (c0..c0+cs, h) are the same in both output buffers. */
  ghost predicate OnlyTokens(x: Net, o0: seq<real>, o1: seq<real>, h: int, c0: int, cs: int) {
    |o0| == |o1| && forall t, h', j | 0 <= t < x.T && 0 <= h' < x.H && 0 <= j < x.S
        && !(h' == h && c0 <= t < c0 + cs) ::
      OutCell(x, o1, t, h', j) == OutCell(x, o0, t, h', j)
  }

  function OutCell(x: Net, out: seq<real>, t: int, h: int, j: int): real { Cell(out, x.S, t * x.H + h, j) }

  /** The chunk's first n output rows are the recurrence's readouts from the snapshot. */
  ghost predicate OutputsAre(x: Net, out: seq<real>, h: int, c0: int, n: int, s0: seq<real>) {
    forall a, j | 0 <= a < n && 0 <= j < x.S ::
      OutCell(x, out, c0 + a, h, j) == Read(x.HeadOf(h), j, Start(x.S, s0, j), c0, a)
  }

  lemma OutputsGrow(x: Net, o0: seq<real>, o1: seq<real>, o2: seq<real>, h: nat, c0: nat, a: nat, s0: seq<real>)
    requires h < x.H && OnlyTokens(x, o0, o1, h, c0, a) && OnlyRow(o1, o2, x.S, (c0 + a) * x.H + h)
    requires OutputsAre(x, o1, h, c0, a, s0)
    requires forall j | 0 <= j < x.S :: OutCell(x, o2, c0 + a, h, j) == Read(x.HeadOf(h), j, Start(x.S, s0, j), c0, a)
    ensures OutputsAre(x, o2, h, c0, a + 1, s0) && OnlyTokens(x, o0, o2, h, c0, a + 1)
  {
    hide Cell, Read;
    forall t, h', j | 0 <= t < x.T && 0 <= h' < x.H && 0 <= j < x.S && !(h' == h && t == c0 + a)
      ensures OutCell(x, o2, t, h', j) == OutCell(x, o1, t, h', j)
    {
      if t != c0 + a { RowsApart(t, c0 + a, x.H, h', h); }
    }
    forall t, j | c0 <= t < c0 + a && 0 <= j < x.S ensures OutCell(x, o2, t, h, j) == OutCell(x, o1, t, h, j) {
      RowsApart(t, c0 + a, x.H, h, h);
    }
  }

  /** Accumulate w*d_m into one output row: the running value is the output formula's prefix. */
  ghost predicate OutputPrefix(x: Net, out: seq<real>, h: int, c0: int, a: int, m: int, s0: seq<real>) {
    forall j | 0 <= j < x.S :: OutCell(x, out, c0 + a, h, j)
      == x.exp(Cum(x.HeadOf(h), c0, a + 1)) * QueryReads(x.HeadOf(h), s0, c0)(a)(j)
       + Dot(0, m, ReadRow(x.HeadOf(h), c0, a), Deltas(x.HeadOf(h), j, Start(x.S, s0, j), c0))
  }

  lemma OutputPrefixStep(x: Net, o1: seq<real>, o2: seq<real>, h: int, c0: int, a: int, m: nat, s0: seq<real>,
                         d: seq<real>, w: real)
    requires OutputPrefix(x, o1, h, c0, a, m, s0) && w == ReadRow(x.HeadOf(h), c0, a)(m)
    requires forall j | 0 <= j < x.S :: Cell(d, x.S, m, j) == DeltaRows(x.HeadOf(h), s0, c0)(m)(j)
    requires forall j | 0 <= j < x.S ::
        OutCell(x, o2, c0 + a, h, j) == MulAdd(OutCell(x, o1, c0 + a, h, j), Cell(d, x.S, m, j), w)
    ensures OutputPrefix(x, o2, h, c0, a, m + 1, s0)
  {
    hide Cell, Dot, Cum, ReadRow, Deltas, QueryReads, OutCell;
    var hd := x.HeadOf(h);
    forall j | 0 <= j < x.S ensures OutCell(x, o2, c0 + a, h, j)
        == x.exp(Cum(hd, c0, a + 1)) * QueryReads(hd, s0, c0)(a)(j)
            + Dot(0, m + 1, ReadRow(hd, c0, a), Deltas(hd, j, Start(x.S, s0, j), c0)) {
      DotPeel(0, m, ReadRow(hd, c0, a), Deltas(hd, j, Start(x.S, s0, j), c0));
      assert Cell(d, x.S, m, j) == Deltas(hd, j, Start(x.S, s0, j), c0)(m);
    }
  }

  lemma OutputPrefixEnd(x: Net, out: seq<real>, h: int, c0: int, a: nat, s0: seq<real>)
    requires OutputPrefix(x, out, h, c0, a, a + 1, s0) && IsExp(x.exp)
    ensures forall j | 0 <= j < x.S :: OutCell(x, out, c0 + a, h, j) == Read(x.HeadOf(h), j, Start(x.S, s0, j), c0, a)
  {
    hide Cell, Dot, Cum, ReadRow, Deltas;
    forall j | 0 <= j < x.S ensures OutCell(x, out, c0 + a, h, j) == Read(x.HeadOf(h), j, Start(x.S, s0, j), c0, a) {
      ReadIs(x.HeadOf(h), j, Start(x.S, s0, j), c0, a);
    }
  }

  lemma OutputPrefixStart(x: Net, out: seq<real>, h: int, c0: int, cs: int, a: nat, s0: seq<real>, uq: seq<real>,
                          e: real)
    requires a < cs && RowsAre(uq, x.S, cs, QueryReads(x.HeadOf(h), s0, c0)) && e == x.exp(Cum(x.HeadOf(h), c0, a + 1))
    requires forall j | 0 <= j < x.S :: OutCell(x, out, c0 + a, h, j) == e * Cell(uq, x.S, a, j)
    ensures OutputPrefix(x, out, h, c0, a, 0, s0)
  {
    hide Cell, Cum, Deltas, QueryReads, ReadRow;
  }

  /** S' = exp(G_last) S0 + sum_m exp(G_last - G_m) k_m d_m^T over the head's block. */
  method Carry(x: Net, h: nat, c0: nat, cs: nat, C: nat, s0: seq<real>, gcum: seq<real>, eLast: real, d: seq<real>,
               state: array<real>)
    requires InChunk(x, h, c0, cs) && cs <= C && IsExp(x.exp)
    requires state.Length == x.H * x.S * x.S && |s0| == x.S * x.S && |d| == C * x.S
    requires cs <= |gcum| && forall a | 0 <= a < cs :: gcum[a] == Cum(x.HeadOf(h), c0, a + 1)
    requires eLast == x.exp(Cum(x.HeadOf(h), c0, cs))
    requires RowsAre(d, x.S, cs, DeltaRows(x.HeadOf(h), s0, c0))
    modifies state
    ensures forall i, j | 0 <= i < x.S && 0 <= j < x.S ::
              Entry(state[..], x.S, h * x.S, i, j) == Col(x.HeadOf(h), j, Start(x.S, s0, j), c0, cs)(i)
    ensures OnlyBlock(old(state[..]), state[..], x.S, h * x.S, x.S)
  {
    hide Cell, Dot, Deltas, Cum, MulAdd, Scaled, Decays, DecayFactor;
    var S := x.S;
    Recurrent.TokenBounds(x, c0, h);
    SetScaledBlock(state, S, h * S, S, eLast, s0, 0);
    CarryStart(x, h, c0, cs, s0, eLast, state[..]);
    for m := 0 to cs
      invariant CarryPrefix(x, state[..], h, c0, cs, m, s0)
      invariant OnlyBlock(old(state[..]), state[..], S, h * S, S)
    {
      ChunkBounds(x, h, c0, cs, C, m);
      DecayExponents(x, h, c0, cs - 1, m);
      var wm := DecayFactor(x, gcum[cs - 1] - gcum[m]);
      ghost var before := state[..];
      AddOuter(state, S, h * S, S, x.k, S, (c0 + m) * x.H + h, wm, d, m);
      CarryStep(x, before, state[..], h, c0, cs, m, s0, d, wm);
    }
    CarryEnd(x, state[..], h, c0, cs, s0);
  }

  /** The running carry after the first m deltas. */
  ghost predicate CarryPrefix(x: Net, state: seq<real>, h: int, c0: int, cs: int, m: int, s0: seq<real>) {
    forall i, j | 0 <= i < x.S && 0 <= j < x.S :: Entry(state, x.S, h * x.S, i, j)
      == x.exp(Cum(x.HeadOf(h), c0, cs)) * Start(x.S, s0, j)(i)
       + Dot(0, m, CarryRow(x.HeadOf(h), c0, cs, i), Deltas(x.HeadOf(h), j, Start(x.S, s0, j), c0))
  }

  lemma CarryStart(x: Net, h: int, c0: int, cs: int, s0: seq<real>, eLast: real, state: seq<real>)
    requires eLast == x.exp(Cum(x.HeadOf(h), c0, cs))
    requires forall i, j | 0 <= i < x.S && 0 <= j < x.S ::
             Entry(state, x.S, h * x.S, i, j) == Entry(s0, x.S, 0, i, j) * eLast
    ensures CarryPrefix(x, state, h, c0, cs, 0, s0)
  {
    hide Cell, Cum, Deltas, CarryRow;
  }

  lemma CarryStep(x: Net, s1: seq<real>, s2: seq<real>, h: int, c0: int, cs: int, m: nat, s0: seq<real>, d: seq<real>,
                  wm: real)
    requires CarryPrefix(x, s1, h, c0, cs, m, s0)
    requires wm == x.exp(Cum(x.HeadOf(h), c0, cs) - Cum(x.HeadOf(h), c0, m + 1))
    requires forall j | 0 <= j < x.S :: Cell(d, x.S, m, j) == DeltaRows(x.HeadOf(h), s0, c0)(m)(j)
    requires forall i, j | 0 <= i < x.S && 0 <= j < x.S :: Entry(s2, x.S, h * x.S, i, j)
               == MulAdd(Entry(s1, x.S, h * x.S, i, j), Cell(d, x.S, m, j),
                   Scaled(wm, Row(x.k, x.S, (c0 + m) * x.H + h))(i))
    ensures CarryPrefix(x, s2, h, c0, cs, m + 1, s0)
  {
    hide Cell, Dot, Cum, Deltas, CarryRow, Entry, Scaled;
    var hd := x.HeadOf(h);
    forall i, j | 0 <= i < x.S && 0 <= j < x.S ensures Entry(s2, x.S, h * x.S, i, j)
        == x.exp(Cum(hd, c0, cs)) * Start(x.S, s0, j)(i)
            + Dot(0, m + 1, CarryRow(hd, c0, cs, i), Deltas(hd, j, Start(x.S, s0, j), c0)) {
      DotPeel(0, m, CarryRow(hd, c0, cs, i), Deltas(hd, j, Start(x.S, s0, j), c0));
      CarryWeight(x, h, c0, cs, i, m, wm);
    }
  }

  lemma CarryWeight(x: Net, h: int, c0: int, cs: int, i: int, m: int, wm: real)
    requires wm == x.exp(Cum(x.HeadOf(h), c0, cs) - Cum(x.HeadOf(h), c0, m + 1))
    ensures Scaled(wm, Row(x.k, x.S, (c0 + m) * x.H + h))(i) == CarryRow(x.HeadOf(h), c0, cs, i)(m)
  {
    hide Cell, Cum;
  }

  lemma CarryEnd(x: Net, state: seq<real>, h: int, c0: int, cs: nat, s0: seq<real>)
    requires CarryPrefix(x, state, h, c0, cs, cs, s0) && IsExp(x.exp)
    ensures forall i, j | 0 <= i < x.S && 0 <= j < x.S ::
              Entry(state, x.S, h * x.S, i, j) == Col(x.HeadOf(h), j, Start(x.S, s0, j), c0, cs)(i)
  {
    hide Cell, Dot, Cum, Deltas, CarryRow, Entry;
    forall i, j | 0 <= i < x.S && 0 <= j < x.S
      ensures Entry(state, x.S, h * x.S, i, j) == Col(x.HeadOf(h), j, Start(x.S, s0, j), c0, cs)(i)
    {
      CarryIs(x.HeadOf(h), j, Start(x.S, s0, j), c0, cs, i);
    }
  }

  /** The snapshot is head h's block of `state`. */
  ghost predicate SnapshotOf(x: Net, h: int, state: seq<real>, s0: seq<real>) {
    forall i, j | 0 <= i < x.S && 0 <= j < x.S :: Entry(s0, x.S, 0, i, j) == Entry(state, x.S, h * x.S, i, j)
  }

  /** The snapshot column is the recurrence's column after c0 tokens. */
  lemma StartIs(x: Net, init: seq<real>, state: seq<real>, s0: seq<real>, h: int, c0: nat, j: int)
    requires HeadIs(x, init, state, h, c0) && SnapshotOf(x, h, state, s0) && 0 <= j < x.S
    ensures Agree(0, x.S, Start(x.S, s0, j), Col(x.HeadOf(h), j, StateCol(x, init, h, j), 0, c0))
  {
    hide Cell, Col, Entry;
    forall i | 0 <= i < x.S ensures Start(x.S, s0, j)(i) == Col(x.HeadOf(h), j, StateCol(x, init, h, j), 0, c0)(i) {
      assert Entry(state, x.S, h * x.S, i, j) == StateAt(x, init, h, i, j, c0);
    }
  }

  /** Running the chunk from the snapshot continues the recurrence. */
  lemma ChunkContinues(x: Net, init: seq<real>, state: seq<real>, s0: seq<real>, h: int, c0: nat, n: nat, j: int)
    requires HeadIs(x, init, state, h, c0) && SnapshotOf(x, h, state, s0) && 0 <= j < x.S
    ensures Agree(0, x.S, Col(x.HeadOf(h), j, Start(x.S, s0, j), c0, n),
            Col(x.HeadOf(h), j, StateCol(x, init, h, j), 0, c0 + n))
  {
    hide Cell, Col, HeadIs, SnapshotOf;
    var hd, s := x.HeadOf(h), StateCol(x, init, h, j);
    StartIs(x, init, state, s0, h, c0, j);
    ColAgree(hd, j, Start(x.S, s0, j), Col(hd, j, s, 0, c0), c0, n);
    ColCompose(hd, j, s, 0, c0, n);
  }

  lemma ChunkHead(x: Net, init: seq<real>, s1: seq<real>, s2: seq<real>, s0: seq<real>, h: int, c0: nat, cs: nat)
    requires HeadIs(x, init, s1, h, c0) && SnapshotOf(x, h, s1, s0)
    requires forall i, j | 0 <= i < x.S && 0 <= j < x.S ::
               Entry(s2, x.S, h * x.S, i, j) == Col(x.HeadOf(h), j, Start(x.S, s0, j), c0, cs)(i)
    ensures HeadIs(x, init, s2, h, c0 + cs)
  {
    hide Cell, Entry, Col, Start, SnapshotOf;
    forall i, j | 0 <= i < x.S && 0 <= j < x.S ensures Entry(s2, x.S, h * x.S, i, j)
        == StateAt(x, init, h, i, j, c0 + cs) {
      ChunkContinues(x, init, s1, s0, h, c0, cs, j);
    }
  }

  lemma ChunkRow(x: Net, init: seq<real>, s1: seq<real>, out: seq<real>, s0: seq<real>, h: int, c0: nat, cs: nat,
                 a: nat)
    requires HeadIs(x, init, s1, h, c0) && SnapshotOf(x, h, s1, s0) && OutputsAre(x, out, h, c0, cs, s0) && a < cs
    ensures RowIs(x, init, out, c0 + a, h)
  {
    hide Cell, Col, Dot, HeadIs, SnapshotOf, Start;
    var hd, t := x.HeadOf(h), c0 + a;
    forall j | 0 <= j < x.S ensures Cell(out, x.S, t * x.H + h, j) == OutAt(x, init, t, h, j) {
      ChunkContinues(x, init, s1, s0, h, c0, a + 1, j);
      DotAgree(0, x.S, Col(hd, j, Start(x.S, s0, j), c0, a + 1), Col(hd, j, StateCol(x, init, h, j), 0, c0 + a + 1),
               hd.qs(c0 + a), hd.qs(c0 + a));
      assert OutCell(x, out, c0 + a, h, j) == Read(hd, j, Start(x.S, s0, j), c0, a);
    }
  }

  /** Head-then-chunk progress: heads before h are done, head h has taken c0 tokens. */
  ghost predicate StateSoFar(x: Net, init: seq<real>, state: seq<real>, h: int, c0: nat) {
    && Recurrent.HeadsAre(x, init, state, 0, h, x.T)
    && (h < x.H ==> HeadIs(x, init, state, h, c0))
    && Recurrent.HeadsAre(x, init, state, h + 1, x.H, 0)
  }

  ghost predicate OutSoFar(x: Net, init: seq<real>, out: seq<real>, h: int, c0: int) {
    forall t, h' | 0 <= t < x.T && 0 <= h' < x.H && (h' < h || (h' == h && t < c0)) :: RowIs(x, init, out, t, h')
  }

  lemma StateChunkStep(x: Net, init: seq<real>, s1: seq<real>, s2: seq<real>, s0: seq<real>, h: nat, c0: nat, cs: nat)
    requires h < x.H && StateSoFar(x, init, s1, h, c0) && SnapshotOf(x, h, s1, s0)
             && OnlyBlock(s1, s2, x.S, h * x.S, x.S)
    requires forall i, j | 0 <= i < x.S && 0 <= j < x.S ::
               Entry(s2, x.S, h * x.S, i, j) == Col(x.HeadOf(h), j, Start(x.S, s0, j), c0, cs)(i)
    ensures StateSoFar(x, init, s2, h, c0 + cs)
  {
    hide HeadIs;
    ChunkHead(x, init, s1, s2, s0, h, c0, cs);
    Recurrent.HeadsKept(x, init, s1, s2, h, 0, h, x.T);
    Recurrent.HeadsKept(x, init, s1, s2, h, h + 1, x.H, 0);
  }

  lemma OutChunkStep(x: Net, init: seq<real>, s1: seq<real>, o1: seq<real>, o2: seq<real>, s0: seq<real>, h: nat,
                     c0: nat, cs: nat)
    requires h < x.H && StateSoFar(x, init, s1, h, c0) && SnapshotOf(x, h, s1, s0)
    requires OutSoFar(x, init, o1, h, c0) && OnlyTokens(x, o1, o2, h, c0, cs) && OutputsAre(x, o2, h, c0, cs, s0)
    ensures OutSoFar(x, init, o2, h, c0 + cs)
  {
    forall t, h' | 0 <= t < x.T && 0 <= h' < x.H && (h' < h || (h' == h && t < c0 + cs))
        ensures RowIs(x, init, o2, t, h') {
      hide HeadIs, OutputsAre, SnapshotOf;
      if h' == h && c0 <= t {
        ChunkRow(x, init, s1, o2, s0, h, c0, cs, t - c0);
      } else {
        assert RowIs(x, init, o1, t, h');
        RowKeptByChunk(x, init, o1, o2, h, c0, cs, t, h');
      }
    }
  }

  lemma RowKeptByChunk(x: Net, init: seq<real>, o1: seq<real>, o2: seq<real>, h: int, c0: int, cs: int, t: nat, h': int)
    requires OnlyTokens(x, o1, o2, h, c0, cs) && RowIs(x, init, o1, t, h')
    requires t < x.T && 0 <= h' < x.H && !(h' == h && c0 <= t < c0 + cs)
    ensures RowIs(x, init, o2, t, h')
  {
    hide Cell, OutAt;
    forall j | 0 <= j < x.S ensures Cell(o2, x.S, t * x.H + h', j) == OutAt(x, init, t, h', j) {
      assert OutCell(x, o2, t, h', j) == OutCell(x, o1, t, h', j);
    }
  }

  lemma StartSoFar(x: Net, init: seq<real>, out: seq<real>)
    ensures StateSoFar(x, init, init, 0, 0) && OutSoFar(x, init, out, 0, 0)
  {
    hide HeadIs, RowIs;
    forall h | 0 <= h < x.H ensures HeadIs(x, init, init, h, 0) { Recurrent.HeadStart(x, init, h); }
  }

  lemma NextHead(x: Net, init: seq<real>, state: seq<real>, out: seq<real>, h: nat)
    requires h < x.H && StateSoFar(x, init, state, h, x.T) && OutSoFar(x, init, out, h, x.T)
    ensures StateSoFar(x, init, state, h + 1, 0) && OutSoFar(x, init, out, h + 1, 0)
  {
    hide HeadIs, RowIs;
  }

  lemma AllHeads(x: Net, init: seq<real>, state: seq<real>, out: seq<real>)
    requires StateSoFar(x, init, state, x.H, 0) && OutSoFar(x, init, out, x.H, 0)
    ensures forall h | 0 <= h < x.H :: HeadIs(x, init, state, h, x.T)
    ensures forall t, h | 0 <= t < x.T && 0 <= h < x.H :: RowIs(x, init, out, t, h)
  {
    hide HeadIs, RowIs;
  }
}
