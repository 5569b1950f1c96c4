/** Split-K decode attention: per-tile (max, mass, weighted output) partials, their merge, and the
    untiled computation they must reproduce. */
module FlashMerge {
  import opened Sums
  import opened Buffers
  import opened Kernels
  import opened Exponential
  import opened Softmax
  import opened Attention

  /** The live window of the query at position curLen. */
  function Lo(curLen: nat, window: nat): nat { WindowStart(curLen, curLen + 1, window) }

  function TileCount(curLen: nat, tile: nat): nat
    requires tile > 0
  {
    (curLen + 1 + tile - 1) / tile
  }

  /** First and one-past-last key of tile kt, clipped to the window. */
  function TileStart(curLen: nat, tile: nat, window: nat, kt: nat): nat {
    if kt * tile > Lo(curLen, window) then kt * tile else Lo(curLen, window)
  }

  function TileEnd(curLen: nat, tile: nat, kt: nat): nat { Min(kt * tile + tile, curLen + 1) }

  /** Boundary before tile kt after clipping to the window from both sides. */
  function Edge(curLen: nat, tile: nat, window: nat, kt: nat): int {
    var lo := Lo(curLen, window);
    if kt * tile < lo then lo else Min(kt * tile, curLen + 1)
  }

  lemma LoBound(curLen: nat, window: nat)
    ensures Lo(curLen, window) <= curLen
  {
  }

  /** A non-empty tile is the stretch between its edges; an empty tile has equal edges. */
  lemma TileIsStretch(curLen: nat, tile: nat, window: nat, kt: nat)
    requires tile > 0 && kt < TileCount(curLen, tile)
    ensures Edge(curLen, tile, window, kt) <= Edge(curLen, tile, window, kt + 1)
    ensures var s, e := TileStart(curLen, tile, window, kt), TileEnd(curLen, tile, kt);
            if s < e then s == Edge(curLen, tile, window, kt) && e == Edge(curLen, tile, window, kt + 1)
            else Edge(curLen, tile, window, kt) == Edge(curLen, tile, window, kt + 1)
  {
    LoBound(curLen, window);
    TileBelowEnd(curLen, tile, kt);
    assert (kt + 1) * tile == kt * tile + tile;
    hide WindowStart, Lo;
  }

  lemma TileBelowEnd(curLen: nat, tile: nat, kt: nat)
    requires tile > 0 && kt < TileCount(curLen, tile)
    ensures kt * tile <= curLen
  {
    var p := curLen + 1 + tile - 1;
    CellOf(p, tile);
    RowOrder(kt, p / tile, tile);
  }

  lemma LastEdge(curLen: nat, tile: nat, window: nat)
    requires tile > 0
    ensures Edge(curLen, tile, window, 0) == Lo(curLen, window)
    ensures Edge(curLen, tile, window, TileCount(curLen, tile)) == curLen + 1
  {
    LoBound(curLen, window);
    CellOf(curLen + 1 + tile - 1, tile);
    hide WindowStart, Lo;
  }

  /** The clipped tiles partition the window: key k is in tile k/tile and in no other. */
  lemma TilesPartition(curLen: nat, tile: nat, window: nat, k: nat, kt: nat)
    requires tile > 0 && Lo(curLen, window) <= k <= curLen
    ensures k / tile < TileCount(curLen, tile)
    ensures TileStart(curLen, tile, window, kt) <= k < TileEnd(curLen, tile, kt) <==> kt == k / tile
  {
    hide WindowStart, Lo;
    CellOf(k, tile);
    CellOf(curLen + 1 + tile - 1, tile);
    if k / tile >= TileCount(curLen, tile) { RowBoundLe(TileCount(curLen, tile), k / tile, tile); }
    if kt < k / tile { RowOrder(kt, k / tile, tile); }
    if k / tile < kt { RowOrder(k / tile, kt, tile); }
  }

  /** The newest key is always live, so at least one tile is non-empty. */
  lemma SomeTileLive(curLen: nat, tile: nat, window: nat)
    requires tile > 0
    ensures var kt := curLen / tile;
        kt < TileCount(curLen, tile) && TileStart(curLen, tile, window, kt) < TileEnd(curLen, tile, kt)
  {
    LoBound(curLen, window);
    TilesPartition(curLen, tile, window, curLen, curLen / tile);
  }

  /** Slot j of row r in the partial buffer; minus infinity is a possible entry. */
  function Slot(s: seq<Extended>, w: int, r: int, j: int): Extended {
    if 0 <= r * w + j < |s| then s[r * w + j] else NegInf
  }

  /** The slot of output coordinate d, after the max and the mass. */
  function ValueSlot(s: seq<Extended>, D: nat, r: int, d: int): Extended { Slot(s, 2 + D, r, 2 + d) }

  ghost predicate OnlySlots(s: seq<Extended>, s': seq<Extended>, w: int, r: int) {
    |s| == |s'| && forall r', j | r' != r && 0 <= j < w :: Slot(s', w, r', j) == Slot(s, w, r', j)
  }

  method SetSlot(y: array<Extended>, w: nat, r: nat, j: nat, v: Extended)
    requires HasRow(y.Length, w, r) && j < w
    modifies y
    ensures Slot(y[..], w, r, j) == v && OnlySlots(old(y[..]), y[..], w, r)
    ensures forall j' | 0 <= j' < w && j' != j :: Slot(y[..], w, r, j') == Slot(old(y[..]), w, r, j')
  {
    y[r * w + j] := v;
    forall r', j' | r' != r && 0 <= j' < w ensures Slot(y[..], w, r', j') == Slot(old(y[..]), w, r', j') {
      RowsApart(r, r', w, j, j');
    }
  }

  /** What a tile's slot must hold: the neutral triple on an empty range; otherwise the range's
      greatest score, and the mass and weighted values taken relative to it. */
  ghost predicate PartialIs(a: Attn, s: int -> real, kvh: int, lo: int, hi: int, mlo: seq<Extended>, r: int) {
    var w := 2 + a.D;
    if lo >= hi then
      && Slot(mlo, w, r, 0) == NegInf && Slot(mlo, w, r, 1) == Fin(0.0)
      && forall d | 0 <= d < a.D :: ValueSlot(mlo, a.D, r, d) == Fin(0.0)
    else
      && Slot(mlo, w, r, 0).Fin? && IsMax(s, lo, hi, Slot(mlo, w, r, 0).value)
      && Slot(mlo, w, r, 1) == Fin(Mass(a.exp, lo, hi, s, Slot(mlo, w, r, 0).value))
      && forall d | 0 <= d < a.D :: ValueSlot(mlo, a.D, r, d)
          == Fin(Mixed(a.exp, lo, hi, s, Slot(mlo, w, r, 0).value, Values(a, kvh, d)))
  }

  function HeadScores(a: Attn, hq: nat): int -> real
    requires a.nHeads > 0
  {
    ScaledScores(a, hq, KvHead(a, hq), a.scale)
  }

  /** Slot (hq,kt) of the buffer. */
  ghost predicate TileIs(a: Attn, curLen: nat, tile: nat, window: nat, mlo: seq<Extended>, hq: nat, kt: nat)
    requires a.nHeads > 0 && tile > 0
  {
    PartialIs(a, HeadScores(a, hq), KvHead(a, hq), TileStart(curLen, tile, window, kt), TileEnd(curLen, tile, kt),
              mlo, hq * TileCount(curLen, tile) + kt)
  }

  /** Shapes: one query row per head, a cache of at least curLen+1 slots. */
  ghost predicate DecodeShaped(a: Attn, slots: nat, curLen: nat) {
    a.ValidHeads() && a.Shaped(1, slots) && curLen < slots && IsExp(a.exp)
  }

  /** The shapes a decode call demands, and nothing else. */
  lemma DecodeShapedFrom(a: Attn, slots: nat, curLen: nat)
    requires a.nKv != 0 && a.nHeads != 0 && a.nHeads % a.nKv == 0 && curLen < slots && IsExp(a.exp)
    requires |a.q| == a.nHeads * a.D && |a.k| == |a.v| == slots * a.nKv * a.D
    ensures DecodeShaped(a, slots, curLen)
  {
  }

  function Shifted(f: int -> real, start: int): int -> real { i => f(start + i) }

  lemma {:induction false} DotShift(n: nat, start: int, f: int -> real, g: int -> real)
    ensures Dot(0, n, Shifted(f, start), Shifted(g, start)) == Dot(start, start + n, f, g)
  {
    if n > 0 { DotShift(n - 1, start, f, g); }
  }

  /** A tile's scores in a vector of its own, and their maximum. */
  method TileScores(a: Attn, slots: nat, hq: nat, kvh: nat, start: nat, n: nat, scores: array<real>) returns (m: real)
    requires a.Shaped(1, slots) && start + n <= slots && hq < a.nHeads && kvh < a.nKv && n > 0 && scores.Length == n
    modifies scores
    ensures forall i | 0 <= i < n :: scores[i] == Shifted(ScaledScores(a, hq, kvh, a.scale), start)(i)
    ensures IsMax(ScaledScores(a, hq, kvh, a.scale), start, start + n, m)
  {
    hide Dot, Cell;
    ghost var s := ScaledScores(a, hq, kvh, a.scale);
    RowBound(hq, a.nHeads, a.D);
    for kk := 0 to n
      invariant forall i | 0 <= i < kk :: scores[i] == Shifted(s, start)(i)
    {
      KvRow(a, slots, start + kk, kvh);
      var x := ScoreOf(a, hq, (start + kk) * a.nKv + kvh, a.scale);
      assert x == s(start + kk);
      scores[kk] := x;
    }
    m := MaxOf(scores, s, start);
  }

  method MaxOf(scores: array<real>, ghost s: int -> real, start: nat) returns (m: real)
    requires scores.Length > 0 && forall i | 0 <= i < scores.Length :: scores[i] == Shifted(s, start)(i)
    ensures IsMax(s, start, start + scores.Length, m)
  {
    hide IsMax;
    var best := NegInf;
    for kk := 0 to scores.Length
      invariant if kk == 0 then best.NegInf? else best.Fin? && IsMax(s, start, start + kk, best.value)
    {
      assert scores[kk] == s(start + kk);
      if kk == 0 { MaxFirst(s, start); } else { MaxStep(s, start, start + kk, best.value); }
      best := Max(best, scores[kk]);
    }
    m := best.value;
  }

  method TileValueSum(a: Attn, slots: nat, kvh: nat, start: nat, n: nat, weights: seq<real>, ghost w: int -> real,
                      d: nat) returns (acc: real)
    requires a.Shaped(1, slots) && start + n <= slots && kvh < a.nKv && d < a.D && |weights| == n
    requires forall i | 0 <= i < n :: weights[i] == w(i)
    ensures acc == Dot(0, n, w, Shifted(Values(a, kvh, d), start))
  {
    hide Dot, Cell;
    acc := 0.0;
    DotPeel(0, 0, w, Shifted(Values(a, kvh, d), start));
    for kk := 0 to n
      invariant acc == Dot(0, kk, w, Shifted(Values(a, kvh, d), start))
    {
      KvRow(a, slots, start + kk, kvh);
      DotPeel(0, kk, w, Shifted(Values(a, kvh, d), start));
      acc := acc + weights[kk] * At(a.v, a.D, (start + kk) * a.nKv + kvh, d);
    }
  }

  lemma ShiftedSums(exp: real -> real, start: int, n: nat, s: int -> real, m: real, v: int -> real)
    ensures Mass(exp, 0, n, Shifted(s, start), m) == Mass(exp, start, start + n, s, m)
    ensures Dot(0, n, Weights(exp, Shifted(s, start), m), Shifted(v, start)) == Mixed(exp, start, start + n, s, m, v)
  {
    hide Dot;
    var w := Weights(exp, Shifted(s, start), m);
    DotAgree(0, n, w, Shifted(Weights(exp, s, m), start), One(), Shifted(One(), start));
    DotAgree(0, n, w, Shifted(Weights(exp, s, m), start), Shifted(v, start), Shifted(v, start));
    DotShift(n, start, Weights(exp, s, m), One());
    DotShift(n, start, Weights(exp, s, m), v);
  }

  /** The neutral slot of an empty tile. */
  method WriteNeutral(a: Attn, mlo: array<Extended>, r: nat)
    requires HasRow(mlo.Length, 2 + a.D, r)
    modifies mlo
    ensures Slot(mlo[..], 2 + a.D, r, 0) == NegInf && Slot(mlo[..], 2 + a.D, r, 1) == Fin(0.0)
    ensures forall d | 0 <= d < a.D :: ValueSlot(mlo[..], a.D, r, d) == Fin(0.0)
    ensures OnlySlots(old(mlo[..]), mlo[..], 2 + a.D, r)
  {
    hide Slot;
    SetSlot(mlo, 2 + a.D, r, 0, NegInf);
    SetSlot(mlo, 2 + a.D, r, 1, Fin(0.0));
    for d := 0 to a.D
      invariant Slot(mlo[..], 2 + a.D, r, 0) == NegInf && Slot(mlo[..], 2 + a.D, r, 1) == Fin(0.0)
      invariant forall d' | 0 <= d' < d :: ValueSlot(mlo[..], a.D, r, d') == Fin(0.0)
      invariant OnlySlots(old(mlo[..]), mlo[..], 2 + a.D, r)
    {
      ghost var before := mlo[..];
      SetSlot(mlo, 2 + a.D, r, 2 + d, Fin(0.0));
      forall d' | 0 <= d' < d ensures ValueSlot(mlo[..], a.D, r, d') == Fin(0.0) {
        assert Slot(mlo[..], 2 + a.D, r, 2 + d') == Slot(before, 2 + a.D, r, 2 + d') == ValueSlot(before, a.D, r, d');
      }
    }
  }

  /** The slot of a live tile. */
  method WriteLive(a: Attn, slots: nat, hq: nat, kvh: nat, start: nat, end: nat, mlo: array<Extended>, r: nat)
    requires a.Shaped(1, slots) && start < end <= slots && hq < a.nHeads && kvh < a.nKv
             && HasRow(mlo.Length, 2 + a.D, r)
    modifies mlo
    ensures PartialIs(a, ScaledScores(a, hq, kvh, a.scale), kvh, start, end, mlo[..], r)
    ensures OnlySlots(old(mlo[..]), mlo[..], 2 + a.D, r)
  {
    hide Slot, Dot, Mass, Mixed, Weights, ScaledScores, Values, IsMax;
    var n := end - start;
    ghost var s := ScaledScores(a, hq, kvh, a.scale);
    var scores := new real[n];
    var m := TileScores(a, slots, hq, kvh, start, n, scores);
    var l := Exponentiate(a.exp, 0, n, scores, Shifted(s, start), m);
    ShiftedSums(a.exp, start, n, s, m, One());
    SetSlot(mlo, 2 + a.D, r, 0, Fin(m));
    SetSlot(mlo, 2 + a.D, r, 1, Fin(l));
    var weights := scores[..];
    for d := 0 to a.D
      invariant Slot(mlo[..], 2 + a.D, r, 0) == Fin(m) && Slot(mlo[..], 2 + a.D, r, 1) == Fin(l)
      invariant forall d' | 0 <= d' < d ::
          ValueSlot(mlo[..], a.D, r, d') == Fin(Mixed(a.exp, start, end, s, m, Values(a, kvh, d')))
      invariant OnlySlots(old(mlo[..]), mlo[..], 2 + a.D, r)
    {
      var acc := TileValueSum(a, slots, kvh, start, n, weights, Weights(a.exp, Shifted(s, start), m), d);
      ShiftedSums(a.exp, start, n, s, m, Values(a, kvh, d));
      SetSlot(mlo, 2 + a.D, r, 2 + d, Fin(acc));
    }
  }

  /** Tiles before (hq,kt) in loop order are written. */
  ghost predicate TilesSoFar(a: Attn, curLen: nat, tile: nat, window: nat, mlo: seq<Extended>, hq: nat, kt: nat)
    requires a.nHeads > 0 && tile > 0
  {
    forall h, t | 0 <= h < a.nHeads && 0 <= t < TileCount(curLen, tile) && (h < hq || (h == hq && t < kt)) ::
      TileIs(a, curLen, tile, window, mlo, h, t)
  }

  ghost predicate AllTiles(a: Attn, curLen: nat, tile: nat, window: nat, mlo: seq<Extended>)
    requires a.nHeads > 0 && tile > 0
  {
    |mlo| == a.nHeads * TileCount(curLen, tile) * (2 + a.D) && TilesSoFar(a, curLen, tile, window, mlo, a.nHeads, 0)
  }

  lemma TileKept(a: Attn, curLen: nat, tile: nat, window: nat, m1: seq<Extended>, m2: seq<Extended>, r: nat, h: nat,
                 t: nat)
    requires a.nHeads > 0 && tile > 0 && TileIs(a, curLen, tile, window, m1, h, t)
    requires OnlySlots(m1, m2, 2 + a.D, r) && h * TileCount(curLen, tile) + t != r
    ensures TileIs(a, curLen, tile, window, m2, h, t)
  {
    hide Slot, HeadScores, KvHead, TileStart, TileEnd, TileCount, Mass, Mixed, IsMax;
    var r', w := h * TileCount(curLen, tile) + t, 2 + a.D;
    assert forall j | 0 <= j < w :: Slot(m2, w, r', j) == Slot(m1, w, r', j);
    forall d | 0 <= d < a.D ensures ValueSlot(m2, a.D, r', d) == ValueSlot(m1, a.D, r', d) {
      assert Slot(m2, w, r', 2 + d) == Slot(m1, w, r', 2 + d);
    }
  }

  lemma TilesStep(a: Attn, curLen: nat, tile: nat, window: nat, m1: seq<Extended>, m2: seq<Extended>, hq: nat, kt: nat)
    requires a.nHeads > 0 && tile > 0 && hq < a.nHeads && kt < TileCount(curLen, tile)
    requires TilesSoFar(a, curLen, tile, window, m1, hq, kt) && TileIs(a, curLen, tile, window, m2, hq, kt)
    requires OnlySlots(m1, m2, 2 + a.D, hq * TileCount(curLen, tile) + kt)
    ensures TilesSoFar(a, curLen, tile, window, m2, hq, kt + 1)
  {
    hide TileIs, TileCount;
    forall h, t | 0 <= h < a.nHeads && 0 <= t < TileCount(curLen, tile) && (h < hq || (h == hq && t < kt))
      ensures TileIs(a, curLen, tile, window, m2, h, t)
    {
      if h != hq { RowsApart(h, hq, TileCount(curLen, tile), t, kt); }
      TileKept(a, curLen, tile, window, m1, m2, hq * TileCount(curLen, tile) + kt, h, t);
    }
  }

  method WriteTile(a: Attn, slots: nat, curLen: nat, tile: nat, window: nat, hq: nat, kt: nat, mlo: array<Extended>)
    requires DecodeShaped(a, slots, curLen) && tile > 0 && hq < a.nHeads && kt < TileCount(curLen, tile)
    requires mlo.Length == a.nHeads * TileCount(curLen, tile) * (2 + a.D)
    modifies mlo
    ensures TileIs(a, curLen, tile, window, mlo[..], hq, kt)
    ensures OnlySlots(old(mlo[..]), mlo[..], 2 + a.D, hq * TileCount(curLen, tile) + kt)
  {
    hide Slot, ScaledScores, IsMax, Mass, Mixed, WindowStart, Cell;
    RowBound(hq, a.nHeads, TileCount(curLen, tile));
    RowBound(hq * TileCount(curLen, tile) + kt, a.nHeads * TileCount(curLen, tile), 2 + a.D);
    KvHeadBound(a, hq);
    var r, start, end := hq * TileCount(curLen, tile) + kt, TileStart(curLen, tile, window, kt),
        TileEnd(curLen, tile, kt);
    if start >= end {
      WriteNeutral(a, mlo, r);
    } else {
      WriteLive(a, slots, hq, KvHead(a, hq), start, end, mlo, r);
    }
  }

  /** The partial pass. */
  method BuildPartial(a: Attn, slots: nat, curLen: nat, tile: nat, window: nat, mlo: array<Extended>)
    requires DecodeShaped(a, slots, curLen) && tile > 0 && mlo.Length == a.nHeads * TileCount(curLen, tile) * (2 + a.D)
    modifies mlo
    ensures AllTiles(a, curLen, tile, window, mlo[..])
  {
    hide TileIs, TileCount;
    for hq := 0 to a.nHeads
      invariant TilesSoFar(a, curLen, tile, window, mlo[..], hq, 0)
    {
      for kt := 0 to TileCount(curLen, tile)
        invariant TilesSoFar(a, curLen, tile, window, mlo[..], hq, kt)
      {
        ghost var before := mlo[..];
        WriteTile(a, slots, curLen, tile, window, hq, kt, mlo);
        TilesStep(a, curLen, tile, window, before, mlo[..], hq, kt);
      }
    }
  }

  /** beta_t: re-aligns a tile to the global bias; 0 for a neutral tile. */
  function Beta(exp: real -> real, m: Extended, mFinal: real): real { if m.NegInf? then 0.0 else exp(m.value - mFinal) }

  /** A tile's scaled mass and scaled values are the window's sums over the tile's stretch. */
  lemma TileRebased(a: Attn, curLen: nat, tile: nat, window: nat, mlo: seq<Extended>, hq: nat, kt: nat, mFinal: real,
                    d: nat)
    requires a.nHeads > 0 && tile > 0 && IsExp(a.exp) && kt < TileCount(curLen, tile)
             && TileIs(a, curLen, tile, window, mlo, hq, kt)
    ensures var r, e0, e1 := hq * TileCount(curLen, tile) + kt, Edge(curLen, tile, window, kt),
            Edge(curLen, tile, window, kt + 1);
            var s, beta := HeadScores(a, hq), Beta(a.exp, Slot(mlo, 2 + a.D, r, 0), mFinal);
            && e0 <= e1 && Slot(mlo, 2 + a.D, r, 1).Fin?
            && beta * Slot(mlo, 2 + a.D, r, 1).value == Mass(a.exp, e0, e1, s, mFinal)
            && (d < a.D ==> ValueSlot(mlo, a.D, r, d).Fin?
                            && beta * ValueSlot(mlo, a.D, r, d).value
                                == Mixed(a.exp, e0, e1, s, mFinal, Values(a, KvHead(a, hq), d)))
  {
    hide Slot, Dot, HeadScores, KvHead, Values, Edge, TileStart, TileEnd, TileCount, Weights, IsMax, IsExp;
    var s, r := HeadScores(a, hq), hq * TileCount(curLen, tile) + kt;
    var start, end := TileStart(curLen, tile, window, kt), TileEnd(curLen, tile, kt);
    var e0, e1 := Edge(curLen, tile, window, kt), Edge(curLen, tile, window, kt + 1);
    var v := Values(a, KvHead(a, hq), d);
    TileIsStretch(curLen, tile, window, kt);
    if start >= end {
      DotPeel(e0, e1, Weights(a.exp, s, mFinal), One());
      DotPeel(e0, e1, Weights(a.exp, s, mFinal), v);
    } else {
      var m := Slot(mlo, 2 + a.D, r, 0).value;
      Rebias(a.exp, start, end, s, m, mFinal, One());
      Rebias(a.exp, start, end, s, m, mFinal, v);
    }
  }

  /** The maximum stored for tile t of a head whose slots start at row `first`. */
  function TileMax(mlo: seq<Extended>, w: int, first: int, t: int): Extended { Slot(mlo, w, first + t, 0) }

  /** best is the largest of the first n tile maxima, minus infinity if all those tiles are neutral. */
  ghost predicate BestOf(mlo: seq<Extended>, w: int, first: int, n: int, best: Extended) {
    && (best.Fin? ==> exists t :: 0 <= t < n && TileMax(mlo, w, first, t) == best)
    && forall t | 0 <= t < n :: TileMax(mlo, w, first, t).Fin? ==>
        best.Fin? && TileMax(mlo, w, first, t).value <= best.value
  }

  lemma BestNone(mlo: seq<Extended>, w: int, first: int)
    ensures BestOf(mlo, w, first, 0, NegInf)
  {
  }

  lemma BestStep(mlo: seq<Extended>, w: int, first: int, n: nat, best: Extended, mt: Extended)
    requires BestOf(mlo, w, first, n, best) && mt == TileMax(mlo, w, first, n)
    ensures BestOf(mlo, w, first, n + 1, if mt.Fin? then Max(best, mt.value) else best)
  {
    hide TileMax;
  }

  /** A tile's stored maximum is minus infinity exactly on an empty tile, otherwise the tile's greatest score. */
  lemma TileMaxIs(a: Attn, curLen: nat, tile: nat, window: nat, mlo: seq<Extended>, hq: nat, t: nat)
    requires a.nHeads > 0 && tile > 0 && hq < a.nHeads && t < TileCount(curLen, tile)
             && AllTiles(a, curLen, tile, window, mlo)
    ensures var m, s, e := TileMax(mlo, 2 + a.D, hq * TileCount(curLen, tile), t), TileStart(curLen, tile, window, t),
            TileEnd(curLen, tile, t);
            if s < e then m.Fin? && IsMax(HeadScores(a, hq), s, e, m.value) else m.NegInf?
  {
    hide Slot, HeadScores, TileCount, TileStart, TileEnd, Mass, Mixed, IsMax, KvHead;
    assert TileIs(a, curLen, tile, window, mlo, hq, t);
  }

  /** The largest tile maximum is the greatest score of the whole window. */
  lemma BestIsMax(a: Attn, curLen: nat, tile: nat, window: nat, mlo: seq<Extended>, hq: nat, best: Extended)
    requires a.nHeads > 0 && tile > 0 && hq < a.nHeads && AllTiles(a, curLen, tile, window, mlo)
    requires BestOf(mlo, 2 + a.D, hq * TileCount(curLen, tile), TileCount(curLen, tile), best)
    ensures best.Fin? && IsMax(HeadScores(a, hq), Lo(curLen, window), curLen + 1, best.value)
  {
    hide HeadScores, TileCount, Lo, AllTiles, BestOf;
    SomeTileLive(curLen, tile, window);
    KeyBelowBest(a, curLen, tile, window, mlo, hq, best, curLen, curLen / tile);
    BestAttained(a, curLen, tile, window, mlo, hq, best);
    forall k | Lo(curLen, window) <= k < curLen + 1 ensures HeadScores(a, hq)(k) <= best.value {
      TilesPartition(curLen, tile, window, k, k / tile);
      KeyBelowBest(a, curLen, tile, window, mlo, hq, best, k, k / tile);
    }
  }

  /** No score of a live tile exceeds the best tile maximum. */
  lemma KeyBelowBest(a: Attn, curLen: nat, tile: nat, window: nat, mlo: seq<Extended>, hq: nat, best: Extended, k: nat,
                     kt: nat)
    requires a.nHeads > 0 && tile > 0 && hq < a.nHeads && AllTiles(a, curLen, tile, window, mlo)
    requires BestOf(mlo, 2 + a.D, hq * TileCount(curLen, tile), TileCount(curLen, tile), best)
    requires kt < TileCount(curLen, tile) && TileStart(curLen, tile, window, kt) < TileEnd(curLen, tile, kt)
    ensures best.Fin?
    ensures TileStart(curLen, tile, window, kt) <= k < TileEnd(curLen, tile, kt) ==> HeadScores(a, hq)(k) <= best.value
  {
    hide TileMax, HeadScores, TileCount, TileStart, TileEnd, AllTiles;
    TileMaxIs(a, curLen, tile, window, mlo, hq, kt);
  }

  /** The best tile maximum is a score of the window. */
  lemma BestAttained(a: Attn, curLen: nat, tile: nat, window: nat, mlo: seq<Extended>, hq: nat, best: Extended)
    requires a.nHeads > 0 && tile > 0 && hq < a.nHeads && AllTiles(a, curLen, tile, window, mlo)
    requires BestOf(mlo, 2 + a.D, hq * TileCount(curLen, tile), TileCount(curLen, tile), best) && best.Fin?
    ensures exists k :: Lo(curLen, window) <= k < curLen + 1 && HeadScores(a, hq)(k) == best.value
  {
    hide TileMax, HeadScores, TileCount, TileStart, TileEnd, AllTiles, Lo;
    var n, first, w := TileCount(curLen, tile), hq * TileCount(curLen, tile), 2 + a.D;
    var t :| 0 <= t < n && TileMax(mlo, w, first, t) == best;
    TileMaxIs(a, curLen, tile, window, mlo, hq, t);
    TileInWindow(curLen, tile, window, t);
  }

  lemma TileInWindow(curLen: nat, tile: nat, window: nat, kt: nat)
    ensures Lo(curLen, window) <= TileStart(curLen, tile, window, kt) && TileEnd(curLen, tile, kt) <= curLen + 1
  {
  }

  /** The merge's bias: the greatest score of the window. The all-neutral fallback is never taken. */
  method FinalMax(a: Attn, curLen: nat, tile: nat, window: nat, mlo: seq<Extended>, hq: nat) returns (mFinal: real)
    requires a.nHeads > 0 && tile > 0 && hq < a.nHeads && AllTiles(a, curLen, tile, window, mlo)
    ensures IsMax(HeadScores(a, hq), Lo(curLen, window), curLen + 1, mFinal)
  {
    hide Slot, TileCount, TilesSoFar, HeadScores, Lo, BestOf;
    TileRows(a, curLen, tile, hq, |mlo|);
    BestNone(mlo, 2 + a.D, hq * TileCount(curLen, tile));
    var first, n := hq * TileCount(curLen, tile), TileCount(curLen, tile);
    var best := NegInf;
    for t := 0 to n
      invariant BestOf(mlo, 2 + a.D, first, t, best)
    {
      BlockRow(|mlo|, 2 + a.D, first, n, t);
      var mt := ReadSlot(mlo, 2 + a.D, first + t, 0);
      BestStep(mlo, 2 + a.D, first, t, best, mt);
      if mt.Fin? { best := Max(best, mt.value); }
    }
    BestIsMax(a, curLen, tile, window, mlo, hq, best);
    mFinal := if best.NegInf? then 0.0 else best.value;
  }

  lemma TileRows(a: Attn, curLen: nat, tile: nat, hq: nat, len: nat)
    requires tile > 0 && hq < a.nHeads && len == a.nHeads * TileCount(curLen, tile) * (2 + a.D)
    ensures 0 <= hq * TileCount(curLen, tile) && HasBlock(len, 2 + a.D, hq * TileCount(curLen, tile),
            TileCount(curLen, tile))
  {
    hide TileCount;
    var n := TileCount(curLen, tile);
    RowBound(hq, a.nHeads, n);
    RowBoundLe(hq * n + n, a.nHeads * n, 2 + a.D);
  }

  /** The prelude: betas and the global mass. */
  method FoldMass(a: Attn, curLen: nat, tile: nat, window: nat, mlo: seq<Extended>, hq: nat, mFinal: real,
                  alphas: array<real>) returns (lFinal: real)
    requires a.nHeads > 0 && tile > 0 && IsExp(a.exp) && hq < a.nHeads && AllTiles(a, curLen, tile, window, mlo)
    requires alphas.Length == TileCount(curLen, tile)
    modifies alphas
    ensures lFinal == Mass(a.exp, Lo(curLen, window), curLen + 1, HeadScores(a, hq), mFinal)
    ensures forall t | 0 <= t < alphas.Length ::
              alphas[t] == Beta(a.exp, Slot(mlo, 2 + a.D, hq * TileCount(curLen, tile) + t, 0), mFinal)
  {
    hide Slot, Dot, HeadScores, Edge, TileCount, Weights, TileIs, Beta, Lo, IsExp;
    ghost var s, lo := HeadScores(a, hq), Lo(curLen, window);
    var w, first := 2 + a.D, hq * TileCount(curLen, tile);
    TileRows(a, curLen, tile, hq, |mlo|);
    LastEdge(curLen, tile, window);
    lFinal := 0.0;
    DotPeel(lo, lo, Weights(a.exp, s, mFinal), One());
    for t := 0 to TileCount(curLen, tile)
      invariant lo <= Edge(curLen, tile, window, t) && lFinal
                == Mass(a.exp, lo, Edge(curLen, tile, window, t), s, mFinal)
      invariant forall t' | 0 <= t' < t :: alphas[t'] == Beta(a.exp, Slot(mlo, w, first + t', 0), mFinal)
    {
      BlockRow(|mlo|, w, first, TileCount(curLen, tile), t);
      TileRebased(a, curLen, tile, window, mlo, hq, t, mFinal, a.D);
      DotSplit(lo, Edge(curLen, tile, window, t), Edge(curLen, tile, window, t + 1), Weights(a.exp, s, mFinal), One());
      var beta := Beta(a.exp, ReadSlot(mlo, w, first + t, 0), mFinal);
      alphas[t] := beta;
      lFinal := lFinal + beta * ReadSlot(mlo, w, first + t, 1).value;
    }
  }

  function ReadSlot(s: seq<Extended>, w: nat, r: nat, j: nat): (x: Extended)
    requires HasRow(|s|, w, r) && j < w
    ensures x == Slot(s, w, r, j)
  {
    s[r * w + j]
  }

  /** sum_t beta_t o_t[d]. */
  method FoldValues(a: Attn, curLen: nat, tile: nat, window: nat, mlo: seq<Extended>, hq: nat, mFinal: real,
                    alphas: seq<real>, d: nat) returns (acc: real)
    requires a.nHeads > 0 && tile > 0 && IsExp(a.exp) && hq < a.nHeads && d < a.D
             && AllTiles(a, curLen, tile, window, mlo)
    requires |alphas| == TileCount(curLen, tile)
    requires forall t | 0 <= t < |alphas| ::
               alphas[t] == Beta(a.exp, Slot(mlo, 2 + a.D, hq * TileCount(curLen, tile) + t, 0), mFinal)
    ensures acc == Mixed(a.exp, Lo(curLen, window), curLen + 1, HeadScores(a, hq), mFinal, Values(a, KvHead(a, hq), d))
  {
    hide Slot, Dot, HeadScores, Edge, TileCount, Weights, TileIs, Beta, Lo, Values, KvHead, IsExp;
    ghost var s, v, lo := HeadScores(a, hq), Values(a, KvHead(a, hq), d), Lo(curLen, window);
    var w, first := 2 + a.D, hq * TileCount(curLen, tile);
    TileRows(a, curLen, tile, hq, |mlo|);
    LastEdge(curLen, tile, window);
    acc := 0.0;
    DotPeel(lo, lo, Weights(a.exp, s, mFinal), v);
    for t := 0 to TileCount(curLen, tile)
      invariant lo <= Edge(curLen, tile, window, t) && acc
                == Mixed(a.exp, lo, Edge(curLen, tile, window, t), s, mFinal, v)
    {
      BlockRow(|mlo|, w, first, TileCount(curLen, tile), t);
      TileRebased(a, curLen, tile, window, mlo, hq, t, mFinal, d);
      DotSplit(lo, Edge(curLen, tile, window, t), Edge(curLen, tile, window, t + 1), Weights(a.exp, s, mFinal), v);
      acc := acc + alphas[t] * ReadSlot(mlo, w, first + t, 2 + d).value;
    }
  }

  /** The decode output of head hq: the softmax mean over the live window. */
  ghost predicate DecodeRow(a: Attn, curLen: nat, window: nat, out: seq<real>, hq: nat)
    requires a.nHeads > 0
  {
    forall d | 0 <= d < a.D :: Cell(out, a.D, hq, d)
      == Mean(a.exp, Lo(curLen, window), curLen + 1, HeadScores(a, hq), Values(a, KvHead(a, hq), d))
  }

  ghost predicate DecodeRows(a: Attn, curLen: nat, window: nat, out: seq<real>, n: nat)
    requires a.nHeads > 0
  {
    forall h | 0 <= h < n :: DecodeRow(a, curLen, window, out, h)
  }

  lemma DecodeRowsStep(a: Attn, curLen: nat, window: nat, o1: seq<real>, o2: seq<real>, h: nat)
    requires a.nHeads > 0 && DecodeRows(a, curLen, window, o1, h) && OnlyRow(o1, o2, a.D, h)
             && DecodeRow(a, curLen, window, o2, h)
    ensures DecodeRows(a, curLen, window, o2, h + 1)
  {
    hide Cell, Mean, HeadScores, KvHead, Values, Lo;
    forall h' | 0 <= h' < h ensures DecodeRow(a, curLen, window, o2, h') {
      assert DecodeRow(a, curLen, window, o1, h');
    }
  }

  /** The merge kernel for one head. */
  method MergeHead(a: Attn, curLen: nat, tile: nat, window: nat, mlo: seq<Extended>, hq: nat, alphas: array<real>,
                   out: array<real>)
    requires a.nHeads > 0 && tile > 0 && IsExp(a.exp) && hq < a.nHeads && AllTiles(a, curLen, tile, window, mlo)
    requires alphas.Length == TileCount(curLen, tile) && out.Length == a.nHeads * a.D && out != alphas
    modifies alphas, out
    ensures DecodeRow(a, curLen, window, out[..], hq) && OnlyRow(old(out[..]), out[..], a.D, hq)
  {
    hide Slot, Dot, HeadScores, TileCount, Weights, TileIs, TilesSoFar, Beta, Lo, Values, KvHead, Mass, Mixed, Mean,
        Cell;
    ghost var s, lo := HeadScores(a, hq), Lo(curLen, window);
    LoBound(curLen, window);
    RowBound(hq, a.nHeads, a.D);
    TileRows(a, curLen, tile, hq, |mlo|);
    var mFinal := FinalMax(a, curLen, tile, window, mlo, hq);
    var lFinal := FoldMass(a, curLen, tile, window, mlo, hq, mFinal, alphas);
    var betas := alphas[..];
    var invL := if lFinal > 0.0 then 1.0 / lFinal else 0.0;
    for d := 0 to a.D
      invariant forall d' | 0 <= d' < d ::
          Cell(out[..], a.D, hq, d') == Mean(a.exp, lo, curLen + 1, s, Values(a, KvHead(a, hq), d'))
      invariant OnlyRow(old(out[..]), out[..], a.D, hq)
    {
      var acc := FoldValues(a, curLen, tile, window, mlo, hq, mFinal, betas, d);
      BiasCancels(a.exp, lo, curLen + 1, s, mFinal, Values(a, KvHead(a, hq), d));
      DivideIsTimes(acc, lFinal);
      SetCell(out, a.D, hq, d, acc * invL);
    }
  }

  method MergePartials(a: Attn, curLen: nat, tile: nat, window: nat, mlo: seq<Extended>, out: array<real>)
    requires a.nHeads > 0 && tile > 0 && IsExp(a.exp) && AllTiles(a, curLen, tile, window, mlo)
             && out.Length == a.nHeads * a.D
    modifies out
    ensures DecodeRows(a, curLen, window, out[..], a.nHeads)
  {
    hide TileCount, TilesSoFar, DecodeRow;
    var alphas := new real[TileCount(curLen, tile)];
    for hq := 0 to a.nHeads
      invariant DecodeRows(a, curLen, window, out[..], hq)
    {
      ghost var before := out[..];
      MergeHead(a, curLen, tile, window, mlo, hq, alphas, out);
      DecodeRowsStep(a, curLen, window, before, out[..], hq);
    }
  }

  /** The untiled reference: one window, one maximum, divide at the end. */
  method MonolithicHead(a: Attn, slots: nat, curLen: nat, window: nat, hq: nat, out: array<real>)
    requires DecodeShaped(a, slots, curLen) && hq < a.nHeads && out.Length == a.nHeads * a.D
    modifies out
    ensures DecodeRow(a, curLen, window, out[..], hq) && OnlyRow(old(out[..]), out[..], a.D, hq)
  {
    hide Dot, HeadScores, Weights, Lo, Values, Mass, Mixed, Mean, Cell, IsMax, Shifted;
    LoBound(curLen, window);
    KvHeadBound(a, hq);
    RowBound(hq, a.nHeads, a.D);
    ghost var s := HeadScores(a, hq);
    var lo, kvh := Lo(curLen, window), KvHead(a, hq);
    var n := curLen + 1 - lo;
    var scores := new real[n];
    assert s == ScaledScores(a, hq, kvh, a.scale) by { HeadScoresAre(a, hq); }
    var m := TileScores(a, slots, hq, kvh, lo, n, scores);
    var l := Exponentiate(a.exp, 0, n, scores, Shifted(s, lo), m);
    ShiftedSums(a.exp, lo, n, s, m, One());
    MassPositive(a.exp, lo, curLen + 1, s, m);
    var weights := scores[..];
    for d := 0 to a.D
      invariant forall d' | 0 <= d' < d ::
          Cell(out[..], a.D, hq, d') == Mean(a.exp, lo, curLen + 1, s, Values(a, kvh, d'))
      invariant OnlyRow(old(out[..]), out[..], a.D, hq)
    {
      var acc := TileValueSum(a, slots, kvh, lo, n, weights, Weights(a.exp, Shifted(s, lo), m), d);
      ShiftedSums(a.exp, lo, n, s, m, Values(a, kvh, d));
      BiasCancels(a.exp, lo, curLen + 1, s, m, Values(a, kvh, d));
      SetCell(out, a.D, hq, d, acc / l);
    }
  }

  lemma HeadScoresAre(a: Attn, hq: nat)
    requires a.nHeads > 0
    ensures HeadScores(a, hq) == ScaledScores(a, hq, KvHead(a, hq), a.scale)
  {
  }

  method MonolithicAttention(a: Attn, slots: nat, curLen: nat, window: nat, out: array<real>)
    requires DecodeShaped(a, slots, curLen) && out.Length == a.nHeads * a.D
    modifies out
    ensures DecodeRows(a, curLen, window, out[..], a.nHeads)
  {
    hide DecodeRow;
    for hq := 0 to a.nHeads
      invariant DecodeRows(a, curLen, window, out[..], hq)
    {
      ghost var before := out[..];
      MonolithicHead(a, slots, curLen, window, hq, out);
      DecodeRowsStep(a, curLen, window, before, out[..], hq);
    }
  }

  /** Partials, then merge: equal to the untiled output, cell for cell. */
  method FlashDecode(a: Attn, slots: nat, curLen: nat, tile: nat, window: nat)
    returns (flash: array<real>, whole: array<real>)
    requires DecodeShaped(a, slots, curLen) && tile > 0
    ensures flash.Length == whole.Length == a.nHeads * a.D && flash[..] == whole[..]
    ensures DecodeRows(a, curLen, window, flash[..], a.nHeads)
  {
    hide TileCount, TilesSoFar, DecodeRows;
    var mlo := new Extended[a.nHeads * TileCount(curLen, tile) * (2 + a.D)];
    flash, whole := new real[a.nHeads * a.D], new real[a.nHeads * a.D];
    BuildPartial(a, slots, curLen, tile, window, mlo);
    MergePartials(a, curLen, tile, window, mlo[..], flash);
    MonolithicAttention(a, slots, curLen, window, whole);
    DecodeRowsDetermine(a, curLen, window, flash[..], whole[..]);
  }

  lemma DecodeRowsDetermine(a: Attn, curLen: nat, window: nat, o1: seq<real>, o2: seq<real>)
    requires a.nHeads > 0 && |o1| == |o2| == a.nHeads * a.D
    requires DecodeRows(a, curLen, window, o1, a.nHeads) && DecodeRows(a, curLen, window, o2, a.nHeads)
    ensures o1 == o2
  {
    forall i | 0 <= i < |o1| ensures o1[i] == o2[i] {
      hide Mean, HeadScores, KvHead, Values, Lo;
      QuotientBound(i, a.D, a.nHeads);
      CellOf(i, a.D);
      assert DecodeRow(a, curLen, window, o1, i / a.D) && DecodeRow(a, curLen, window, o2, i / a.D);
      assert Cell(o1, a.D, i / a.D, i % a.D) == Cell(o2, a.D, i / a.D, i % a.D);
    }
  }

  /** The decode row is multiHeadAttention's row for the same query at position curLen, whatever
      cache length beyond curLen the call is given. */
  lemma DecodeIsAttention(a: Attn, curLen: nat, window: nat, out: seq<real>, hq: nat, Tk: nat)
    requires a.nHeads > 0 && a.scale > 0.0 && Tk > curLen
    ensures DecodeRow(a, curLen, window, out, hq) <==> RowDone(a, out, 0, hq, curLen, Tk, window)
  {
    hide Mean, KvHead, Values, WindowStart, ScaledScores, Cell;
    var lo, hi := WindowStart(curLen + 0, Tk, window), WindowEnd(curLen + 0, Tk);
    SameStart(curLen, Tk, window);
    assert RowDone(a, out, 0, hq, curLen, Tk, window) == RowOut(a, out, 0, hq, lo, hi);
    forall d ensures OutAt(a, out, 0, hq, d) == Cell(out, a.D, hq, d) { }
    if DecodeRow(a, curLen, window, out, hq) {
      forall d | 0 <= d < a.D ensures OutAt(a, out, 0, hq, d) == HeadOut(a, 0, hq, lo, hi, d) { }
    }
    if RowOut(a, out, 0, hq, lo, hi) {
      forall d | 0 <= d < a.D ensures Cell(out, a.D, hq, d)
          == Mean(a.exp, Lo(curLen, window), curLen + 1, HeadScores(a, hq), Values(a, KvHead(a, hq), d)) {
        assert OutAt(a, out, 0, hq, d) == HeadOut(a, 0, hq, lo, hi, d);
      }
    }
  }

  lemma SameStart(curLen: nat, Tk: nat, window: nat)
    requires Tk > curLen
    ensures WindowStart(curLen + 0, Tk, window) == Lo(curLen, window) && WindowEnd(curLen + 0, Tk) == curLen + 1
  {
  }

  /** A decode row from the operands: over the last `window` keys of the cache up to curLen (all of them without a
      window), the mean of v weighted by the exponential of the scaled dot product of the query with each key. */
  lemma DecodeInSource(a: Attn, curLen: nat, window: nat, out: seq<real>, hq: nat, lo: int, d: nat,
                       s: int -> real, v: int -> real)
    requires a.nHeads > 0 && IsExp(a.exp) && d < a.D && DecodeRow(a, curLen, window, out, hq)
    requires lo == if window == 0 || curLen + 1 <= window then 0 else curLen + 1 - window
    requires forall kk | lo <= kk <= curLen :: s(kk) == a.scale * Dot(0, a.D, Row(a.q, a.D, hq),
                                                                     Row(a.k, a.D, kk * a.nKv + hq * a.nKv / a.nHeads))
    requires forall kk | lo <= kk <= curLen :: v(kk) == Cell(a.v, a.D, kk * a.nKv + hq * a.nKv / a.nHeads, d)
    ensures lo <= curLen && Cell(out, a.D, hq, d) * Dot(lo, curLen + 1, kk => a.exp(s(kk)), _ => 1.0)
                         == Dot(lo, curLen + 1, kk => a.exp(s(kk)), v)
  {
    hide *;
    var hi, kvh, e := curLen + 1, hq * a.nKv / a.nHeads, kk => a.exp(s(kk));
    var w := Weights(a.exp, HeadScores(a, hq), 0.0);
    DecodeMean(a, curLen, window, out, hq, lo, d);
    MeanInSource(a.exp, lo, hi, HeadScores(a, hq), Values(a, kvh, d));
    forall kk | lo <= kk < hi ensures w(kk) == e(kk) { ScoreWeightIs(a, hq, kk, 0.0, s(kk), s(kk)); }
    forall kk | lo <= kk < hi ensures Values(a, kvh, d)(kk) == v(kk) { ValueIs(a, kvh, d, kk); }
    OneIs(lo, hi, _ => 1.0);
    AgreeFrom(lo, hi, w, e);
    AgreeFrom(lo, hi, Values(a, kvh, d), v);
    DotAgree(lo, hi, w, e, One(), _ => 1.0);
    DotAgree(lo, hi, w, e, Values(a, kvh, d), v);
  }

  lemma DecodeMean(a: Attn, curLen: nat, window: nat, out: seq<real>, hq: nat, lo: int, d: nat)
    requires a.nHeads > 0 && d < a.D && DecodeRow(a, curLen, window, out, hq)
    requires lo == if window == 0 || curLen + 1 <= window then 0 else curLen + 1 - window
    ensures lo <= curLen && Cell(out, a.D, hq, d)
         == Mean(a.exp, lo, curLen + 1, HeadScores(a, hq), Values(a, hq * a.nKv / a.nHeads, d))
  {
    hide Cell, Mean, HeadScores, Values;
  }

  lemma ScoreWeightIs(a: Attn, hq: nat, kk: int, bias: real, x: real, y: real)
    requires a.nHeads > 0 && y == x - bias
    requires x == a.scale * Dot(0, a.D, Row(a.q, a.D, hq), Row(a.k, a.D, kk * a.nKv + hq * a.nKv / a.nHeads))
    ensures HeadScores(a, hq)(kk) == x && Weights(a.exp, HeadScores(a, hq), bias)(kk) == a.exp(y)
  {
    hide Dot, Row;
    var z := HeadScores(a, hq)(kk);
    assert z == x;
    assert z - bias == y;
  }

  /** The element a slot stands for, by position. */
  lemma SlotAt(s: seq<Extended>, w: int, r: int, j: int)
    requires 0 <= r * w + j < |s|
    ensures Slot(s, w, r, j) == s[r * w + j]
  {
  }

  /** A tile's slot (hq,kt) from the operands, its keys clipped to the window on the left and the cache on the right:
      minus infinity and zeros if no key is left, otherwise the greatest scaled score, the sum of the exponentials
      relative to it, and the values weighted by them. */
  lemma TileInSource(a: Attn, curLen: nat, tile: nat, window: nat, mlo: seq<Extended>, hq: nat, kt: nat, lo: int,
                     start: int, end: int, d: nat, s: int -> real, v: int -> real)
    requires a.nHeads > 0 && tile > 0 && hq < a.nHeads && kt * tile <= curLen && d < a.D
    requires AllTiles(a, curLen, tile, window, mlo)
    requires lo == if window == 0 || curLen + 1 <= window then 0 else curLen + 1 - window
    requires start == (if kt * tile > lo then kt * tile else lo)
    requires end == (if kt * tile + tile < curLen + 1 then kt * tile + tile else curLen + 1)
    requires forall kk | start <= kk < end :: s(kk) == a.scale * Dot(0, a.D, Row(a.q, a.D, hq),
                                                                    Row(a.k, a.D, kk * a.nKv + hq * a.nKv / a.nHeads))
    requires forall kk | start <= kk < end :: v(kk) == Cell(a.v, a.D, kk * a.nKv + hq * a.nKv / a.nHeads, d)
    ensures var w, r := 2 + a.D, hq * ((curLen + tile) / tile) + kt;
            && (end <= start ==>
                 Slot(mlo, w, r, 0) == NegInf && Slot(mlo, w, r, 1) == Slot(mlo, w, r, 2 + d) == Fin(0.0))
            && (start < end ==>
                 && Slot(mlo, w, r, 0).Fin?
                 && var m := Slot(mlo, w, r, 0).value;
                    && (forall kk | start <= kk < end :: s(kk) <= m)
                    && (exists kk :: start <= kk < end && s(kk) == m)
                    && Slot(mlo, w, r, 1) == Fin(Dot(start, end, kk => a.exp(s(kk) - m), _ => 1.0))
                    && Slot(mlo, w, r, 2 + d) == Fin(Dot(start, end, kk => a.exp(s(kk) - m), v)))
  {
    hide *;
    var r := hq * ((curLen + tile) / tile) + kt;
    TileSlot(a, curLen, tile, window, mlo, hq, kt, lo, start, end, d);
    if start < end {
      var m, sc, kvh := Slot(mlo, 2 + a.D, r, 0).value, HeadScores(a, hq), hq * a.nKv / a.nHeads;
      var e := kk => a.exp(s(kk) - m);
      var w := Weights(a.exp, sc, m);
      forall kk | start <= kk < end ensures sc(kk) == s(kk) && w(kk) == e(kk) {
        ScoreWeightIs(a, hq, kk, m, s(kk), s(kk) - m);
      }
      forall kk | start <= kk < end ensures Values(a, kvh, d)(kk) == v(kk) { ValueIs(a, kvh, d, kk); }
      OneIs(start, end, _ => 1.0);
      AgreeFrom(start, end, w, e);
      AgreeFrom(start, end, Values(a, kvh, d), v);
      DotAgree(start, end, w, e, One(), _ => 1.0);
      DotAgree(start, end, w, e, Values(a, kvh, d), v);
    }
  }

  lemma TileSlot(a: Attn, curLen: nat, tile: nat, window: nat, mlo: seq<Extended>, hq: nat, kt: nat, lo: int,
                 start: int, end: int, d: nat)
    requires a.nHeads > 0 && tile > 0 && hq < a.nHeads && kt * tile <= curLen && d < a.D
    requires AllTiles(a, curLen, tile, window, mlo)
    requires lo == if window == 0 || curLen + 1 <= window then 0 else curLen + 1 - window
    requires start == (if kt * tile > lo then kt * tile else lo)
    requires end == (if kt * tile + tile < curLen + 1 then kt * tile + tile else curLen + 1)
    ensures var w, r, sc := 2 + a.D, hq * ((curLen + tile) / tile) + kt, HeadScores(a, hq);
            && (end <= start ==>
                 Slot(mlo, w, r, 0) == NegInf && Slot(mlo, w, r, 1) == Slot(mlo, w, r, 2 + d) == Fin(0.0))
            && (start < end ==>
                 && Slot(mlo, w, r, 0).Fin?
                 && var m := Slot(mlo, w, r, 0).value;
                    && (forall kk | start <= kk < end :: sc(kk) <= m)
                    && (exists kk :: start <= kk < end && sc(kk) == m)
                    && Slot(mlo, w, r, 1) == Fin(Dot(start, end, Weights(a.exp, sc, m), One()))
                    && Slot(mlo, w, r, 2 + d) == Fin(Dot(start, end, Weights(a.exp, sc, m),
                                                         Values(a, hq * a.nKv / a.nHeads, d))))
  {
    CountIs(curLen, tile, kt);
    hide Slot, Dot, HeadScores, Weights, Values, TileCount;
    assert TileIs(a, curLen, tile, window, mlo, hq, kt);
    assert ValueSlot(mlo, a.D, hq * TileCount(curLen, tile) + kt, d)
        == Slot(mlo, 2 + a.D, hq * TileCount(curLen, tile) + kt, 2 + d);
  }

  lemma CountIs(curLen: nat, tile: nat, kt: nat)
    requires tile > 0
    ensures TileCount(curLen, tile) == (curLen + tile) / tile
    ensures kt * tile <= curLen ==> kt < TileCount(curLen, tile)
  {
    var p := curLen + tile;
    CellOf(p, tile);
    if p / tile <= kt { RowBoundLe(p / tile, kt, tile); }
  }
}
