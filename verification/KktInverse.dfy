/** deltanetKktSolveInverse: per chunk and head, the inverse of I + (strict-lower ungated Gram). */
module KktInverse {
  import opened Sums
  import opened Buffers
  import opened Kernels
  import opened Exponential
  import opened Triangular
  import opened ChunkAlgebra
  import opened DeltaNet
  import opened ChunkStages
  import Chunked

  function ChunkCount(T: nat, C: nat): nat
    requires C > 0
  {
    (T + C - 1) / C
  }

  /** First row of block (c,h) in the [nChunks,H,C,C] buffer seen as rows of width C. */
  function BlockStart(x: Net, C: nat, c: int, h: int): int { (c * x.H + h) * C }

  /** The ungated system of one chunk. */
  function Ungated(x: Net, c0: int, h: int): int -> int -> real { UngatedRows(x.HeadOf(h), c0) }

  /** Entry (a,m) of block (c,h): the inverse on live rows, zero on the padding of a tail chunk. */
  function InverseCell(x: Net, C: nat, c: int, h: int, a: int, m: int): real {
    if c * C + a < x.T then Inv(Ungated(x, c * C, h), a, m) else 0.0
  }

  ghost predicate BlockIs(x: Net, C: nat, a0: seq<real>, c: int, h: int) {
    forall a, m | 0 <= a < C && 0 <= m < C :: Entry(a0, C, BlockStart(x, C, c, h), a, m)
        == InverseCell(x, C, c, h, a, m)
  }

  /** The inverse hand-off buffer. */
  ghost predicate InverseBuffer(x: Net, C: nat, a0: seq<real>)
    requires C > 0
  {
    && |a0| == ChunkCount(x.T, C) * x.H * C * C
    && forall c, h | 0 <= c < ChunkCount(x.T, C) && 0 <= h < x.H :: BlockIs(x, C, a0, c, h)
  }

  /** lt[a,m] = beta_a (k_a . k_m) below the diagonal; nothing above it is written or read. */
  ghost predicate LowerIs(lt: seq<real>, C: int, n: int, L: int -> int -> real) {
    forall a, m | 0 <= a < n && 0 <= m < a :: Cell(lt, C, a, m) == L(a)(m)
  }

  method LowerGram(x: Net, h: nat, c0: nat, cs: nat, C: nat, lt: array<real>)
    requires InChunk(x, h, c0, cs) && cs <= C && lt.Length == C * C
    modifies lt
    ensures LowerIs(lt[..], C, cs, Ungated(x, c0, h))
  {
    hide Dot, Cell, Ungated;
    ghost var L := Ungated(x, c0, h);
    for a := 0 to cs
      invariant LowerIs(lt[..], C, a, L)
    {
      ChunkBounds(x, h, c0, cs, C, a);
      var b := At(x.beta, x.H, c0 + a, h);
      ghost var before := lt[..];
      for m := 0 to a
        invariant OnlyRow(before, lt[..], C, a)
        invariant forall m' | 0 <= m' < m :: Cell(lt[..], C, a, m') == L(a)(m')
      {
        ChunkBounds(x, h, c0, cs, C, m);
        var kk := Chunked.RowDot(x.k, x.S, (c0 + a) * x.H + h, x.k, (c0 + m) * x.H + h);
        LowerEntry(x, h, c0, a, m, b, kk);
        SetCell(lt, C, a, m, b * kk);
      }
    }
  }

  lemma LowerEntry(x: Net, h: nat, c0: nat, a: nat, m: nat, b: real, kk: real)
    requires b == Cell(x.beta, x.H, c0 + a, h)
    requires kk == Dot(0, x.S, Row(x.k, x.S, (c0 + a) * x.H + h), Row(x.k, x.S, (c0 + m) * x.H + h))
    ensures b * kk == Ungated(x, c0, h)(a)(m)
  {
    hide Dot, Cell;
    var hd := x.HeadOf(h);
    assert hd.k(c0 + a) == Row(x.k, x.S, (c0 + a) * x.H + h) && hd.k(c0 + m) == Row(x.k, x.S, (c0 + m) * x.H + h);
  }

  /** Rows before a are inverted, rows from a on are still zero. */
  ghost predicate InvertedTo(a0: seq<real>, C: int, first: int, a: int, L: int -> int -> real) {
    && (forall p, m | 0 <= p < a && 0 <= m < C :: Entry(a0, C, first, p, m) == Inv(L, p, m))
    && (forall p, m | a <= p < C && 0 <= m < C :: Entry(a0, C, first, p, m) == 0.0)
  }

  /** Row a with its diagonal and first m entries written. */
  ghost predicate RowInvertedTo(a0: seq<real>, C: int, first: int, a: int, m: int, L: int -> int -> real) {
    forall q | 0 <= q < C :: Entry(a0, C, first, a, q) == if q < m || q >= a then Inv(L, a, q) else 0.0
  }

  /** acc = sum_{p=m}^{a-1} lt[a,p] X[p,m]. */
  method InverseSum(lt: seq<real>, C: nat, a: nat, m: nat, a0: seq<real>, first: nat, ghost L: int -> int -> real)
    returns (acc: real)
    requires m < a < C && |lt| == C * C && HasBlock(|a0|, C, first, C)
    requires LowerIs(lt, C, a + 1, L)
    requires forall p | m <= p < a :: Entry(a0, C, first, p, m) == Inv(L, p, m)
    ensures -acc == Inv(L, a, m)
  {
    hide Cell, Inv;
    acc := 0.0;
    for p := m to a
      invariant acc == Dot(m, p, L(a), InvAbove(L, a, m))
    {
      BlockRow(|a0|, C, first, C, p);
      RowBound(a, C, C);
      acc := acc + At(lt, C, a, p) * At(a0, C, first + p, m);
    }
    InvBelow(L, a, m);
  }

  lemma InvBelow(L: int -> int -> real, a: nat, m: nat)
    requires m < a
    ensures Inv(L, a, m) == -Dot(m, a, L(a), InvAbove(L, a, m))
  {
  }

  /** Row a of the inverse, in place over the zero-filled block. */
  method InvertRow(lt: seq<real>, C: nat, cs: nat, a: nat, a0: array<real>, first: nat, ghost L: int -> int -> real)
    requires a < cs <= C && |lt| == C * C && HasBlock(a0.Length, C, first, C)
    requires LowerIs(lt, C, cs, L) && InvertedTo(a0[..], C, first, a, L)
    modifies a0
    ensures InvertedTo(a0[..], C, first, a + 1, L) && OnlyRow(old(a0[..]), a0[..], C, first + a)
  {
    hide Cell, Inv;
    ghost var before := a0[..];
    BlockRow(a0.Length, C, first, C, a);
    SetCell(a0, C, first + a, a, 1.0);
    FreshRow(before, a0[..], C, first, a, L);
    for m := 0 to a
      invariant OnlyRow(before, a0[..], C, first + a) && RowInvertedTo(a0[..], C, first, a, m, L)
    {
      AboveKept(before, a0[..], C, first, a, L);
      var acc := InverseSum(lt, C, a, m, a0[..], first, L);
      ghost var s := a0[..];
      SetCell(a0, C, first + a, m, -acc);
      RowStep(before, s, a0[..], C, first, a, m, L);
    }
    RowDone(before, a0[..], C, first, a, L);
  }

  lemma AboveKept(s: seq<real>, s': seq<real>, C: nat, first: nat, a: nat, L: int -> int -> real)
    requires InvertedTo(s, C, first, a, L) && OnlyRow(s, s', C, first + a)
    ensures forall p, m | 0 <= p < C && p != a && 0 <= m < C :: Entry(s', C, first, p, m) == if p < a then Inv(L, p, m)
            else 0.0
  {
    hide Cell, Inv;
    forall p, m | 0 <= p < C && p != a && 0 <= m < C
      ensures Entry(s', C, first, p, m) == if p < a then Inv(L, p, m) else 0.0
    {
      assert Cell(s', C, first + p, m) == Cell(s, C, first + p, m);
      assert Entry(s, C, first, p, m) == if p < a then Inv(L, p, m) else 0.0;
    }
  }

  lemma RowStep(before: seq<real>, s: seq<real>, s': seq<real>, C: nat, first: nat, a: nat, m: nat,
                L: int -> int -> real)
    requires m < a < C && OnlyRow(before, s, C, first + a) && RowInvertedTo(s, C, first, a, m, L)
    requires OnlyCell(s, s', C, first + a, m) && Cell(s', C, first + a, m) == Inv(L, a, m)
    ensures OnlyRow(before, s', C, first + a) && RowInvertedTo(s', C, first, a, m + 1, L)
  {
    hide Cell, Inv;
    forall q | 0 <= q < C ensures Entry(s', C, first, a, q) == if q < m + 1 || q >= a then Inv(L, a, q) else 0.0 {
      if q != m { assert Cell(s', C, first + a, q) == Cell(s, C, first + a, q) == Entry(s, C, first, a, q); }
    }
  }

  lemma RowDone(s: seq<real>, s': seq<real>, C: nat, first: nat, a: nat, L: int -> int -> real)
    requires a < C && InvertedTo(s, C, first, a, L) && OnlyRow(s, s', C, first + a)
             && RowInvertedTo(s', C, first, a, a, L)
    ensures InvertedTo(s', C, first, a + 1, L)
  {
    hide Cell, Inv;
    AboveKept(s, s', C, first, a, L);
  }

  lemma FreshRow(s: seq<real>, s': seq<real>, C: nat, first: nat, a: nat, L: int -> int -> real)
    requires a < C && InvertedTo(s, C, first, a, L) && OnlyCell(s, s', C, first + a, a)
             && Cell(s', C, first + a, a) == 1.0
    ensures OnlyRow(s, s', C, first + a) && RowInvertedTo(s', C, first, a, 0, L)
  {
    hide Cell;
    forall q | 0 <= q < C ensures Entry(s', C, first, a, q) == if q >= a then Inv(L, a, q) else 0.0 {
      if q != a { assert Cell(s', C, first + a, q) == Cell(s, C, first + a, q) == Entry(s, C, first, a, q); }
    }
  }

  method InvertBlock(lt: seq<real>, C: nat, cs: nat, a0: array<real>, first: nat, ghost L: int -> int -> real)
    requires cs <= C && |lt| == C * C && HasBlock(a0.Length, C, first, C) && LowerIs(lt, C, cs, L)
    modifies a0
    ensures InvertedTo(a0[..], C, first, cs, L) && OnlyBlock(old(a0[..]), a0[..], C, first, C)
  {
    hide Cell, Inv;
    ZeroBlock(a0, C, first);
    for a := 0 to cs
      invariant OnlyBlock(old(a0[..]), a0[..], C, first, C) && InvertedTo(a0[..], C, first, a, L)
    {
      InvertRow(lt, C, cs, a, a0, first, L);
    }
  }

  method ZeroBlock(a0: array<real>, C: nat, first: nat)
    requires HasBlock(a0.Length, C, first, C)
    modifies a0
    ensures OnlyBlock(old(a0[..]), a0[..], C, first, C)
    ensures forall p, m | 0 <= p < C && 0 <= m < C :: Entry(a0[..], C, first, p, m) == 0.0
  {
    hide Cell;
    for p := 0 to C
      invariant OnlyBlock(old(a0[..]), a0[..], C, first, p)
      invariant forall r, m | first <= r < first + p && 0 <= m < C :: Cell(a0[..], C, r, m) == 0.0
    {
      BlockRow(a0.Length, C, first, C, p);
      FillRow(a0, C, first + p, 0.0);
    }
  }

  /** Blocks before (c,h) in loop order are final. */
  ghost predicate BlocksSoFar(x: Net, C: nat, a0: seq<real>, c: int, h: int) {
    forall c', h' | 0 <= c' && 0 <= h' < x.H && (c' < c || (c' == c && h' < h)) :: BlockIs(x, C, a0, c', h')
  }

  lemma BlockBounds(x: Net, C: nat, c: nat, h: nat)
    requires C > 0 && c < ChunkCount(x.T, C) && h < x.H
    ensures 0 <= BlockStart(x, C, c, h) && HasBlock(ChunkCount(x.T, C) * x.H * C * C, C, BlockStart(x, C, c, h), C)
    ensures c * C < x.T
  {
    var n := ChunkCount(x.T, C);
    RowBound(c, n, x.H);
    RowBound(c * x.H + h, n * x.H, C);
    RowBoundLe(BlockStart(x, C, c, h) + C, n * x.H * C, C);
    CellOf(x.T + C - 1, C);
    RowOrder(c, n, C);
  }

  /** The finished block of chunk c holds the specified entries, padding included. */
  lemma BlockDone(x: Net, C: nat, a0: seq<real>, c: nat, h: int, cs: nat)
    requires cs <= C && (cs == C || c * C + cs == x.T) && c * C + cs <= x.T
    requires InvertedTo(a0, C, BlockStart(x, C, c, h), cs, Ungated(x, c * C, h))
    ensures BlockIs(x, C, a0, c, h)
  {
    hide Cell, Inv, BlockStart, Ungated;
    forall a, m | 0 <= a < C && 0 <= m < C ensures Entry(a0, C, BlockStart(x, C, c, h), a, m)
        == InverseCell(x, C, c, h, a, m) {
    }
  }

  /** Distinct (chunk, head) pairs own disjoint blocks. */
  lemma BlockKept(x: Net, C: nat, s: seq<real>, s': seq<real>, c: nat, h: nat, c': nat, h': nat)
    requires h < x.H && h' < x.H && (c' != c || h' != h)
    requires OnlyBlock(s, s', C, BlockStart(x, C, c, h), C) && BlockIs(x, C, s, c', h')
    ensures BlockIs(x, C, s', c', h')
  {
    hide Cell, InverseCell;
    if c != c' { RowsApart(c, c', x.H, h, h'); }
    var r, r' := c * x.H + h, c' * x.H + h';
    if r < r' { RowOrder(r, r', C); } else { RowOrder(r', r, C); }
    forall a, m | 0 <= a < C && 0 <= m < C
      ensures Entry(s', C, BlockStart(x, C, c', h'), a, m) == Entry(s, C, BlockStart(x, C, c', h'), a, m)
    {
    }
  }

  lemma BlocksStep(x: Net, C: nat, s: seq<real>, s': seq<real>, c: nat, h: nat)
    requires h < x.H && BlocksSoFar(x, C, s, c, h) && OnlyBlock(s, s', C, BlockStart(x, C, c, h), C)
             && BlockIs(x, C, s', c, h)
    ensures BlocksSoFar(x, C, s', c, h + 1)
  {
    hide BlockIs, BlockStart;
    forall c', h' | 0 <= c' && 0 <= h' < x.H && (c' < c || (c' == c && h' < h)) ensures BlockIs(x, C, s', c', h') {
      BlockKept(x, C, s, s', c, h, c', h');
    }
  }

  /** Stage 1. */
  method DeltanetKktSolveInverse(x: Net, chunkSize: nat, a0: array<real>)
    requires x.Shaped()
    requires chunkSize > 0 ==> a0.Length == ChunkCount(x.T, chunkSize) * x.H * chunkSize * chunkSize
    requires chunkSize == 0 ==> a0.Length == ChunkCount(x.T, 64) * x.H * 64 * 64
    modifies a0
    ensures chunkSize > 0 ==> InverseBuffer(x, chunkSize, a0[..])
    ensures chunkSize == 0 ==> InverseBuffer(x, 64, a0[..])
  {
    hide Cell, Inv, BlockIs, BlockStart, Ungated, BlocksSoFar;
    var C := Width(chunkSize);
    var nChunks := ChunkCount(x.T, C);
    var lt := new real[C * C];
    BlocksEmpty(x, C, a0[..]);
    for c := 0 to nChunks
      invariant BlocksSoFar(x, C, a0[..], c, 0)
    {
      for h := 0 to x.H
        invariant BlocksSoFar(x, C, a0[..], c, h)
      {
        InvertChunk(x, C, c, h, lt, a0);
      }
      BlocksNext(x, C, a0[..], c);
    }
    BlocksAll(x, C, a0[..]);
  }

  method InvertChunk(x: Net, C: nat, c: nat, h: nat, lt: array<real>, a0: array<real>)
    requires x.Shaped() && C > 0 && c < ChunkCount(x.T, C) && h < x.H && lt.Length == C * C && lt != a0
    requires a0.Length == ChunkCount(x.T, C) * x.H * C * C && BlocksSoFar(x, C, a0[..], c, h)
    modifies lt, a0
    ensures BlocksSoFar(x, C, a0[..], c, h + 1)
  {
    hide Cell, Inv, BlockIs, Ungated, BlocksSoFar;
    BlockBounds(x, C, c, h);
    var c0 := c * C;
    var cs := if C < x.T - c0 then C else x.T - c0;
    ghost var before := a0[..];
    LowerGram(x, h, c0, cs, C, lt);
    InvertBlock(lt[..], C, cs, a0, BlockStart(x, C, c, h), Ungated(x, c0, h));
    BlockDone(x, C, a0[..], c, h, cs);
    BlocksStep(x, C, before, a0[..], c, h);
  }

  lemma BlocksEmpty(x: Net, C: nat, a0: seq<real>)
    ensures BlocksSoFar(x, C, a0, 0, 0)
  {
  }

  lemma BlocksNext(x: Net, C: nat, a0: seq<real>, c: nat)
    requires BlocksSoFar(x, C, a0, c, x.H)
    ensures BlocksSoFar(x, C, a0, c + 1, 0)
  {
    hide BlockIs;
  }

  lemma BlocksAll(x: Net, C: nat, a0: seq<real>)
    requires C > 0 && BlocksSoFar(x, C, a0, ChunkCount(x.T, C), 0) && |a0| == ChunkCount(x.T, C) * x.H * C * C
    ensures InverseBuffer(x, C, a0)
  {
    hide BlockIs;
  }

  /** A written block in the buffer's own positions: element (c,h,a,m) is at ((c*H + h)*C + a)*C + m; zero above the
      diagonal and on the padding, one on the diagonal, and below it the row recurrence over
      beta_a (k_a . k_p), all read from the operands. */
  lemma BlockInSource(x: Net, C: nat, a0: seq<real>, c: nat, h: nat, a: nat, m: nat, c0: nat, first: nat,
                      at: nat, lower: int -> real, above: int -> real)
    requires C > 0 && InverseBuffer(x, C, a0) && c * C < x.T && h < x.H && a < C && m < C
    requires c0 == c * C && first == (c * x.H + h) * C && at == (first + a) * C + m
    requires forall p | m <= p < a :: lower(p) == Cell(x.beta, x.H, c0 + a, h)
               * Dot(0, x.S, Row(x.k, x.S, (c0 + a) * x.H + h), Row(x.k, x.S, (c0 + p) * x.H + h))
    requires forall p | m <= p < a :: above(p) == Cell(a0, C, first + p, m)
    ensures at < |a0|
    ensures c0 + a >= x.T || a < m ==> a0[at] == 0.0
    ensures c0 + a < x.T && a == m ==> a0[at] == 1.0
    ensures c0 + a < x.T && m < a ==> a0[at] == -Dot(m, a, lower, above)
  {
    hide *;
    var L := Ungated(x, c0, h);
    BlockEntry(x, C, a0, c, h, a, m, c0, first);
    if a < m { AboveDiagonal(L, a, m); }
    InvDiagonal(L, a);
    if c0 + a < x.T && m < a {
      LowerParts(x, c0, h, a, m, lower);
      AboveParts(x, C, a0, c, h, a, m, c0, first, above);
      InvByParts(L, a, m, lower, above);
    }
  }

  lemma LowerParts(x: Net, c0: nat, h: nat, a: nat, m: nat, lower: int -> real)
    requires forall p | m <= p < a :: lower(p) == Cell(x.beta, x.H, c0 + a, h)
               * Dot(0, x.S, Row(x.k, x.S, (c0 + a) * x.H + h), Row(x.k, x.S, (c0 + p) * x.H + h))
    ensures forall p | m <= p < a :: Ungated(x, c0, h)(a)(p) == lower(p)
  {
    hide *;
    forall p | m <= p < a ensures Ungated(x, c0, h)(a)(p) == lower(p) { UngatedIs(x, c0, h, a, p, lower(p)); }
  }

  lemma AboveParts(x: Net, C: nat, a0: seq<real>, c: nat, h: nat, a: nat, m: nat, c0: nat, first: nat,
                   above: int -> real)
    requires C > 0 && InverseBuffer(x, C, a0) && c * C < x.T && h < x.H && a < C && m < C
    requires c0 == c * C && first == (c * x.H + h) * C && c0 + a < x.T
    requires forall p | m <= p < a :: above(p) == Cell(a0, C, first + p, m)
    ensures forall p | m <= p < a :: above(p) == Inv(Ungated(x, c0, h), p, m)
  {
    hide *;
    forall p | m <= p < a ensures above(p) == Inv(Ungated(x, c0, h), p, m) {
      BlockEntry(x, C, a0, c, h, p, m, c0, first);
    }
  }

  /** The row recurrence, with its row and column given by their values. */
  lemma InvByParts(L: int -> int -> real, a: nat, m: nat, lower: int -> real, above: int -> real)
    requires m < a && forall p | m <= p < a :: L(a)(p) == lower(p) && above(p) == Inv(L, p, m)
    ensures Inv(L, a, m) == -Dot(m, a, lower, above)
  {
    hide Inv, Dot;
    InvBelow(L, a, m);
    forall p | m <= p < a ensures InvAbove(L, a, m)(p) == above(p) { InvAboveIs(L, a, m, p); }
    DotAgree(m, a, L(a), lower, InvAbove(L, a, m), above);
  }

  lemma InvAboveIs(L: int -> int -> real, a: nat, m: nat, p: int)
    requires m < a && p < a
    ensures InvAbove(L, a, m)(p) == Inv(L, p, m)
  {
    hide Inv;
  }

  /** The ungated system's entries, from the operands. */
  lemma UngatedIs(x: Net, c0: int, h: int, a: int, p: int, entry: real)
    requires entry == Cell(x.beta, x.H, c0 + a, h)
                      * Dot(0, x.S, Row(x.k, x.S, (c0 + a) * x.H + h), Row(x.k, x.S, (c0 + p) * x.H + h))
    ensures Ungated(x, c0, h)(a)(p) == entry
  {
    hide Dot, Cell;
    assert x.HeadOf(h).k(c0 + a) == Row(x.k, x.S, (c0 + a) * x.H + h);
    assert x.HeadOf(h).k(c0 + p) == Row(x.k, x.S, (c0 + p) * x.H + h);
  }

  lemma BlockEntry(x: Net, C: nat, a0: seq<real>, c: nat, h: nat, a: nat, m: nat, c0: nat, first: nat)
    requires C > 0 && InverseBuffer(x, C, a0) && c * C < x.T && h < x.H && a < C && m < C
    requires c0 == c * C && first == (c * x.H + h) * C
    ensures 0 <= (first + a) * C + m < |a0|
    ensures a0[(first + a) * C + m] == Cell(a0, C, first + a, m)
         == if c0 + a < x.T then Inv(Ungated(x, c0, h), a, m) else 0.0
  {
    hide Inv, Ungated, Cell, ChunkCount;
    CountCovers(x.T, C, c);
    BlockBounds(x, C, c, h);
    BlockRow(|a0|, C, first, C, a);
    PositionIn(|a0|, C, first + a, m);
    CellAt(a0, C, first + a, m);
    assert BlockIs(x, C, a0, c, h);
    assert Entry(a0, C, first, a, m) == InverseCell(x, C, c, h, a, m);
  }

  lemma PositionIn(len: int, w: nat, r: int, j: nat)
    requires HasRow(len, w, r) && j < w
    ensures 0 <= r * w + j < len
  {
    RowBoundLe(0, r, w);
  }

  lemma CountCovers(T: nat, C: nat, c: nat)
    requires C > 0 && c * C < T
    ensures c < ChunkCount(T, C)
  {
    var p := T + C - 1;
    CellOf(p, C);
    if p / C <= c { RowBoundLe(p / C, c, C); }
  }

  /** The live rows of chunk c. */
  function LiveRows(x: Net, C: nat, c: nat): int { if C < x.T - c * C then C else x.T - c * C }

  /** A written block is unit lower triangular, zero on its padding, and both a left and a right
      inverse of I + (strict-lower ungated Gram) on its live rows. */
  lemma BlockInverts(x: Net, C: nat, a0: seq<real>, c: nat, h: nat, a: nat, m: nat)
    requires C > 0 && InverseBuffer(x, C, a0) && c < ChunkCount(x.T, C) && h < x.H && a < C && m < C
    ensures var first, n, L := BlockStart(x, C, c, h), LiveRows(x, C, c), Ungated(x, c * C, h);
            && (a >= n || a < m ==> Entry(a0, C, first, a, m) == 0.0)
            && (a == m < n ==> Entry(a0, C, first, a, m) == 1.0)
            && (a < n && m < n ==> Dot(0, n, Full(L)(a), Column(a0, C, first, m)) == Unit(a, m))
            && (a < n && m < n ==> Dot(0, n, Row(a0, C, first + a), FullCol(L, m)) == Unit(a, m))
  {
    var first, n, L := BlockStart(x, C, c, h), LiveRows(x, C, c), Ungated(x, c * C, h);
    assert BlockIs(x, C, a0, c, h);
    assert Entry(a0, C, first, a, m) == InverseCell(x, C, c, h, a, m);
    if a < n && m < n {
      BlockColumn(x, C, a0, c, h, m);
      BlockRowIs(x, C, a0, c, h, a);
      hide *;
      DotAgree(0, n, Full(L)(a), Full(L)(a), Column(a0, C, first, m), InvCol(L, m));
      RightInverse(L, n, a, m);
      DotAgree(0, n, Row(a0, C, first + a), InvRow(L, a), FullCol(L, m), FullCol(L, m));
      LeftInverse(L, n, a, m);
    }
  }

  lemma BlockColumn(x: Net, C: nat, a0: seq<real>, c: nat, h: nat, m: nat)
    requires m < C && BlockIs(x, C, a0, c, h)
    ensures Agree(0, LiveRows(x, C, c), Column(a0, C, BlockStart(x, C, c, h), m), InvCol(Ungated(x, c * C, h), m))
  {
    hide Cell, Inv, BlockStart, Ungated;
    forall p | 0 <= p < LiveRows(x, C, c)
      ensures Column(a0, C, BlockStart(x, C, c, h), m)(p) == InvCol(Ungated(x, c * C, h), m)(p)
    {
      assert Entry(a0, C, BlockStart(x, C, c, h), p, m) == InverseCell(x, C, c, h, p, m);
    }
  }

  lemma BlockRowIs(x: Net, C: nat, a0: seq<real>, c: nat, h: nat, a: nat)
    requires a < LiveRows(x, C, c) && BlockIs(x, C, a0, c, h)
    ensures Agree(0, C, Row(a0, C, BlockStart(x, C, c, h) + a), InvRow(Ungated(x, c * C, h), a))
  {
    hide Cell, Inv, BlockStart, Ungated;
    forall m | 0 <= m < C
      ensures Row(a0, C, BlockStart(x, C, c, h) + a)(m) == InvRow(Ungated(x, c * C, h), a)(m)
    {
      assert Entry(a0, C, BlockStart(x, C, c, h), a, m) == InverseCell(x, C, c, h, a, m);
    }
  }

  /** Column m of the block with the gate put back entrywise. */
  function Regated(x: Net, a0: seq<real>, C: nat, c: int, h: int, m: int): int -> real {
    p => Entry(a0, C, BlockStart(x, C, c, h), p, m) * Decay(x.HeadOf(h), c * C, p, m)
  }

  function RegatedAcross(x: Net, a0: seq<real>, C: nat, c: int, h: int, a: int): int -> real {
    m => Entry(a0, C, BlockStart(x, C, c, h), a, m) * Decay(x.HeadOf(h), c * C, a, m)
  }

  /** Scaled by exp(G_a - G_m), the block inverts (from both sides) the gated system that the
      monolithic form solves by forward substitution. */
  lemma RegatedInverts(x: Net, C: nat, a0: seq<real>, c: nat, h: nat, a: nat, m: nat)
    requires C > 0 && InverseBuffer(x, C, a0) && c < ChunkCount(x.T, C) && h < x.H && IsExp(x.exp)
    requires a < LiveRows(x, C, c) && m < LiveRows(x, C, c)
    ensures var n, A := LiveRows(x, C, c), GatedRows(x.HeadOf(h), c * C);
            && Dot(0, n, Full(A)(a), Regated(x, a0, C, c, h, m)) == Unit(a, m)
            && Dot(0, n, RegatedAcross(x, a0, C, c, h, a), FullCol(A, m)) == Unit(a, m)
  {
    hide Dot, Inv, InverseBuffer, GatedRows, Full, Cell, Entry, Decay, LiveRows, ChunkCount, BlockStart;
    var n, A := LiveRows(x, C, c), GatedRows(x.HeadOf(h), c * C);
    forall p | 0 <= p < n ensures Regated(x, a0, C, c, h, m)(p)
        == InvCol(A, m)(p) { RegatedEntry(x, C, a0, c, h, p, m); }
    forall p | 0 <= p < n ensures RegatedAcross(x, a0, C, c, h, a)(p)
        == InvRow(A, a)(p) { RegatedEntry(x, C, a0, c, h, a, p); }
    DotAgree(0, n, Full(A)(a), Full(A)(a), Regated(x, a0, C, c, h, m), InvCol(A, m));
    RightInverse(A, n, a, m);
    DotAgree(0, n, RegatedAcross(x, a0, C, c, h, a), InvRow(A, a), FullCol(A, m), FullCol(A, m));
    LeftInverse(A, n, a, m);
  }

  lemma LiveEntry(x: Net, C: nat, a0: seq<real>, c: nat, h: nat, a: nat, m: nat)
    requires C > 0 && InverseBuffer(x, C, a0) && c < ChunkCount(x.T, C) && h < x.H
    requires a < LiveRows(x, C, c) && m < LiveRows(x, C, c)
    ensures Entry(a0, C, BlockStart(x, C, c, h), a, m) == Inv(Ungated(x, c * C, h), a, m)
  {
    hide Cell, Entry, Inv, Ungated, BlockStart;
    assert BlockIs(x, C, a0, c, h);
    assert Entry(a0, C, BlockStart(x, C, c, h), a, m) == InverseCell(x, C, c, h, a, m);
  }

  lemma RegatedEntry(x: Net, C: nat, a0: seq<real>, c: nat, h: nat, a: nat, m: nat)
    requires C > 0 && InverseBuffer(x, C, a0) && c < ChunkCount(x.T, C) && h < x.H && IsExp(x.exp)
    requires a < LiveRows(x, C, c) && m < LiveRows(x, C, c)
    ensures Entry(a0, C, BlockStart(x, C, c, h), a, m) * Decay(x.HeadOf(h), c * C, a, m)
            == Inv(GatedRows(x.HeadOf(h), c * C), a, m)
  {
    hide Entry, Inv, InverseBuffer, Decay, UngatedRows, GatedRows, ChunkCount, BlockStart;
    LiveEntry(x, C, a0, c, h, a, m);
    if m <= a {
      GatedInverse(x.HeadOf(h), c * C, a, m);
    } else {
      AboveDiagonal(Ungated(x, c * C, h), a, m);
      AboveDiagonal(GatedRows(x.HeadOf(h), c * C), a, m);
    }
  }

  lemma AboveDiagonal(L: int -> int -> real, a: nat, m: nat)
    requires a < m
    ensures Inv(L, a, m) == 0.0
  {
  }
}
