/** The loop nests shared by the recurrent and chunked forms, each over rows of flat buffers. */
module Kernels {
  import opened Sums
  import opened Buffers

  ghost predicate HasBlock(len: int, w: int, first: int, n: int) {
    0 <= w && 0 <= first && 0 <= n && (first + n) * w <= len
  }

  /** Every cell outside rows [first, first+n) is the same in both buffers. */
  ghost predicate OnlyBlock(s: seq<real>, s': seq<real>, w: int, first: int, n: int) {
    |s| == |s'| && forall r, j | !(first <= r < first + n) && 0 <= j < w :: Cell(s', w, r, j) == Cell(s, w, r, j)
  }

  lemma BlockRow(len: int, w: int, first: int, n: int, i: int)
    requires HasBlock(len, w, first, n) && 0 <= i < n
    ensures HasRow(len, w, first + i)
  {
    RowBound(first + i, first + n, w);
  }

  /** Row yr += sum_i c_i * (row first+i of m). */
  method Accumulate(y: array<real>, w: nat, yr: nat, m: seq<real>, first: nat, n: nat, c: seq<real>, cw: nat, cr: nat)
    requires HasRow(y.Length, w, yr) && HasBlock(|m|, w, first, n) && HasRow(|c|, cw, cr) && n <= cw
    modifies y
    ensures forall j | 0 <= j < w :: Cell(y[..], w, yr, j)
              == Cell(old(y[..]), w, yr, j) + Dot(0, n, Column(m, w, first, j), Row(c, cw, cr))
    ensures OnlyRow(old(y[..]), y[..], w, yr)
  {
    hide Cell, Dot;
    forall j | 0 <= j < w ensures Dot(0, 0, Column(m, w, first, j), Row(c, cw, cr)) == 0.0 {
      DotPeel(0, 0, Column(m, w, first, j), Row(c, cw, cr));
    }
    for i := 0 to n
      invariant forall j | 0 <= j < w :: Cell(y[..], w, yr, j)
                  == Cell(old(y[..]), w, yr, j) + Dot(0, i, Column(m, w, first, j), Row(c, cw, cr))
      invariant OnlyRow(old(y[..]), y[..], w, yr)
    {
      BlockRow(|m|, w, first, n, i);
      ghost var before := y[..];
      AddScaledRow(y, w, yr, At(c, cw, cr, i), m, first + i);
      forall j | 0 <= j < w ensures Cell(y[..], w, yr, j)
                  == Cell(old(y[..]), w, yr, j) + Dot(0, i + 1, Column(m, w, first, j), Row(c, cw, cr)) {
        assert Cell(y[..], w, yr, j) == Cell(before, w, yr, j) + Entry(m, w, first, i, j) * Cell(c, cw, cr, i);
        DotPeel(0, i, Column(m, w, first, j), Row(c, cw, cr));
      }
    }
  }

  /** The coefficient a_i * c of a rank-1 update. */
  function Coefficient(a: seq<real>, aw: nat, ar: nat, c: real, i: nat): (x: real)
    requires HasRow(|a|, aw, ar) && i < aw
    ensures x == Scaled(c, Row(a, aw, ar))(i)
  {
    At(a, aw, ar, i) * c
  }

  /** Row first+i += (a_i * c) * b for every i: the rank-1 update. */
  method AddOuter(y: array<real>, w: nat, first: nat, n: nat, a: seq<real>, aw: nat, ar: nat, c: real, b: seq<real>,
                  br: nat)
    requires HasBlock(y.Length, w, first, n) && HasRow(|a|, aw, ar) && n <= aw && HasRow(|b|, w, br)
    modifies y
    ensures forall i, j | 0 <= i < n && 0 <= j < w :: Entry(y[..], w, first, i, j)
              == MulAdd(Entry(old(y[..]), w, first, i, j), Cell(b, w, br, j), Scaled(c, Row(a, aw, ar))(i))
    ensures OnlyBlock(old(y[..]), y[..], w, first, n)
  {
    hide Cell, MulAdd, Scaled, Coefficient;
    for i := 0 to n
      invariant forall i', j | 0 <= i' < i && 0 <= j < w :: Entry(y[..], w, first, i', j)
                  == MulAdd(Entry(old(y[..]), w, first, i', j), Cell(b, w, br, j), Scaled(c, Row(a, aw, ar))(i'))
      invariant OnlyBlock(old(y[..]), y[..], w, first, i)
    {
      BlockRow(y.Length, w, first, n, i);
      AddScaledRow(y, w, first + i, Coefficient(a, aw, ar, c, i), b, br);
    }
  }

  /** y[r,j] := z[zr,j] * c for every row of the block. */
  method SetScaledBlock(y: array<real>, w: nat, first: nat, n: nat, c: real, z: seq<real>, zfirst: nat)
    requires HasBlock(y.Length, w, first, n) && HasBlock(|z|, w, zfirst, n)
    modifies y
    ensures forall i, j | 0 <= i < n && 0 <= j < w :: Entry(y[..], w, first, i, j) == Entry(z, w, zfirst, i, j) * c
    ensures OnlyBlock(old(y[..]), y[..], w, first, n)
  {
    hide Cell;
    for i := 0 to n
      invariant forall i', j | 0 <= i' < i && 0 <= j < w ::
                Entry(y[..], w, first, i', j) == Entry(z, w, zfirst, i', j) * c
      invariant OnlyBlock(old(y[..]), y[..], w, first, i)
    {
      BlockRow(y.Length, w, first, n, i);
      BlockRow(|z|, w, zfirst, n, i);
      SetScaledRow(y, w, first + i, c, z, zfirst + i);
    }
  }

  /** One row of the fused decay-and-predict loop: srow *= g, then sk += srow * ki. */
  method DecayPredictRow(s: array<real>, w: nat, r: nat, g: real, ki: real, sk: array<real>)
    requires HasRow(s.Length, w, r) && sk.Length == w && s != sk
    modifies s, sk
    ensures forall j | 0 <= j < w :: Cell(s[..], w, r, j) == Times(Cell(old(s[..]), w, r, j), g)
    ensures forall j | 0 <= j < w :: sk[j] == MulAdd(old(sk[j]), Cell(s[..], w, r, j), ki)
    ensures OnlyRow(old(s[..]), s[..], w, r)
  {
    hide MulAdd, Times;
    ghost var was := s[..];
    DecayPredictSpan(s, r * w, w, g, ki, sk);
    FrameRows(was, s[..], w, r);
  }

  method DecayPredictSpan(s: array<real>, base: nat, w: nat, g: real, ki: real, sk: array<real>)
    requires base + w <= s.Length && sk.Length == w && s != sk
    modifies s, sk
    ensures forall p | base <= p < base + w :: s[p] == Times(old(s[p]), g)
    ensures forall p | 0 <= p < s.Length && !(base <= p < base + w) :: s[p] == old(s[p])
    ensures forall j | 0 <= j < w :: sk[j] == MulAdd(old(sk[j]), s[base + j], ki)
  {
    hide MulAdd, Times;
    for j := 0 to w
      invariant forall p | base <= p < base + j :: s[p] == Times(old(s[p]), g)
      invariant forall p | 0 <= p < s.Length && !(base <= p < base + j) :: s[p] == old(s[p])
      invariant forall p | 0 <= p < j :: sk[p] == MulAdd(old(sk[p]), s[base + p], ki)
      invariant forall p | j <= p < w :: sk[p] == old(sk[p])
    {
      s[base + j] := Times(s[base + j], g);
      sk[j] := MulAdd(sk[j], s[base + j], ki);
    }
  }

  /** The prediction after one more row. */
  lemma PredictPeel(s0: seq<real>, w: int, first: int, g: real, k: seq<real>, kr: int, i: nat, j: int, before: real,
                    e: real, after: real)
    requires before == Dot(0, i, Scaled(g, Column(s0, w, first, j)), Row(k, w, kr))
    requires e == Times(Entry(s0, w, first, i, j), g) && after == MulAdd(before, e, Cell(k, w, kr, i))
    ensures after == Dot(0, i + 1, Scaled(g, Column(s0, w, first, j)), Row(k, w, kr))
  {
    hide Cell, Dot;
    DotPeel(0, i, Scaled(g, Column(s0, w, first, j)), Row(k, w, kr));
  }

  /** Decay a head's state block and predict sk = (decayed state)^T k. */
  method DecayPredict(s: array<real>, w: nat, first: nat, g: real, k: seq<real>, kr: nat, sk: array<real>)
    requires HasBlock(s.Length, w, first, w) && sk.Length == w && s != sk && HasRow(|k|, w, kr)
    requires forall j | 0 <= j < w :: sk[j] == 0.0
    modifies s, sk
    ensures forall i, j | 0 <= i < w && 0 <= j < w ::
        Entry(s[..], w, first, i, j) == Times(Entry(old(s[..]), w, first, i, j), g)
    ensures forall j | 0 <= j < w :: sk[j] == Dot(0, w, Scaled(g, Column(old(s[..]), w, first, j)), Row(k, w, kr))
    ensures OnlyBlock(old(s[..]), s[..], w, first, w)
  {
    hide Cell, Dot, MulAdd, Scaled, Times;
    ghost var s0 := s[..];
    forall j | 0 <= j < w ensures sk[j] == Dot(0, 0, Scaled(g, Column(s0, w, first, j)), Row(k, w, kr)) {
      DotPeel(0, 0, Scaled(g, Column(s0, w, first, j)), Row(k, w, kr));
    }
    for i := 0 to w
      invariant forall i', j | 0 <= i' < i && 0 <= j < w ::
                Entry(s[..], w, first, i', j) == Times(Entry(s0, w, first, i', j), g)
      invariant OnlyBlock(s0, s[..], w, first, i)
      invariant forall j | 0 <= j < w :: sk[j] == Dot(0, i, Scaled(g, Column(s0, w, first, j)), Row(k, w, kr))
    {
      BlockRow(s.Length, w, first, w, i);
      ghost var predicted := sk[..];
      DecayPredictRow(s, w, first + i, g, At(k, w, kr, i), sk);
      forall j | 0 <= j < w ensures sk[j] == Dot(0, i + 1, Scaled(g, Column(s0, w, first, j)), Row(k, w, kr)) {
        PredictPeel(s0, w, first, g, k, kr, i, j, predicted[j], Entry(s[..], w, first, i, j), sk[j]);
      }
    }
  }
}
