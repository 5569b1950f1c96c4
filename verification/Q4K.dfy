/** Q4_K: the 6-bit scale/min unpack and the pair/lane row dot product. */
module Q4K {
  import opened Sums
  import opened SixBits

  const BLOCK_BYTES: nat := 144
  const BLOCK_ELEMS: nat := 256

  /** getScaleMinK4 over the 12 packed bytes. */
  function GetScaleMinK4(j: nat, q: seq<bv8>): (bv8, bv8)
    requires |q| == 12 && j < 8
  {
    if j < 4 then (q[j] & 0x3F, q[j + 4] & 0x3F)
    else ((q[j + 4] & 0x0F) | ((q[j - 4] >> 6) << 4), (q[j + 4] >> 4) | ((q[j] >> 6) << 4))
  }

  /** The inverse packer: 8 scales and 8 mins, six bits each, into 12 bytes. */
  function PackScaleMin(sc: seq<bv8>, mn: seq<bv8>): (q: seq<bv8>)
    requires |sc| == |mn| == 8
    ensures |q| == 12
  {
    seq(12, i requires 0 <= i < 12 =>
      if i < 4 then PackWhole(sc[i], sc[i + 4])
      else if i < 8 then PackWhole(mn[i - 4], mn[i])
      else PackNibbles(sc[i - 4], mn[i - 4]))
  }

  /** Lane i of the 12 bytes holds fields i and 4+i of both lists. */
  lemma FieldLanes(q: seq<bv8>, i: nat)
    requires |q| == 12 && i < 4
    ensures GetScaleMinK4(i, q) == (Whole(q[i]), Whole(q[4 + i]))
    ensures GetScaleMinK4(4 + i, q) == (LowSplit(q[8 + i], q[i]), HighSplit(q[8 + i], q[4 + i]))
  {
    assert 4 + i + 4 == 8 + i && 4 + i - 4 == i && i + 4 == 4 + i;
  }

  lemma PackLanes(sc: seq<bv8>, mn: seq<bv8>, i: nat)
    requires |sc| == |mn| == 8 && i < 4
    ensures var q := PackScaleMin(sc, mn);
            q[i] == PackWhole(sc[i], sc[4 + i]) && q[4 + i] == PackWhole(mn[i], mn[4 + i])
                && q[8 + i] == PackNibbles(sc[4 + i], mn[4 + i])
  {
    hide PackWhole, PackNibbles;
    assert 4 + i - 4 == i && 8 + i - 4 == 4 + i && i + 4 == 4 + i;
  }

  lemma LaneUnpack(sc: seq<bv8>, mn: seq<bv8>, i: nat)
    requires |sc| == |mn| == 8 && i < 4 && forall j | 0 <= j < 8 :: IsSix(sc[j]) && IsSix(mn[j])
    ensures GetScaleMinK4(i, PackScaleMin(sc, mn)) == (sc[i], mn[i])
    ensures GetScaleMinK4(4 + i, PackScaleMin(sc, mn)) == (sc[4 + i], mn[4 + i])
  {
    hide PackScaleMin, GetScaleMinK4, PackWhole, PackNibbles, Whole, LowSplit, HighSplit, IsSix;
    PackLanes(sc, mn, i);
    FieldLanes(PackScaleMin(sc, mn), i);
    SplitUnpacks(sc[i], mn[i], sc[4 + i], mn[4 + i]);
  }

  /** Packing then reading gives every scale and min back. */
  lemma UnpackOfPack(sc: seq<bv8>, mn: seq<bv8>, j: nat)
    requires |sc| == |mn| == 8 && j < 8 && forall k | 0 <= k < 8 :: IsSix(sc[k]) && IsSix(mn[k])
    ensures GetScaleMinK4(j, PackScaleMin(sc, mn)) == (sc[j], mn[j])
  {
    hide PackScaleMin, GetScaleMinK4, IsSix;
    LaneUnpack(sc, mn, j % 4);
  }

  function AllScales(q: seq<bv8>): seq<bv8>
    requires |q| == 12
  {
    seq(8, j requires 0 <= j < 8 => GetScaleMinK4(j, q).0)
  }

  function AllMins(q: seq<bv8>): seq<bv8>
    requires |q| == 12
  {
    seq(8, j requires 0 <= j < 8 => GetScaleMinK4(j, q).1)
  }

  /** Reading then packing gives every byte back: no stored bit is unused or used twice. */
  lemma PackOfUnpack(q: seq<bv8>)
    requires |q| == 12
    ensures |AllScales(q)| == |AllMins(q)| == 8 && PackScaleMin(AllScales(q), AllMins(q)) == q
    ensures forall j | 0 <= j < 8 :: IsSix(AllScales(q)[j]) && IsSix(AllMins(q)[j])
  {
    hide PackScaleMin, GetScaleMinK4, IsSix;
    forall i | 0 <= i < 12 ensures PackScaleMin(AllScales(q), AllMins(q))[i] == q[i] { LanePack(q, i % 4); }
    forall j | 0 <= j < 8 ensures IsSix(AllScales(q)[j]) && IsSix(AllMins(q)[j]) { LanePack(q, j % 4); }
  }

  lemma LanePack(q: seq<bv8>, i: nat)
    requires |q| == 12 && i < 4
    ensures var p := PackScaleMin(AllScales(q), AllMins(q));
        p[i] == q[i] && p[4 + i] == q[4 + i] && p[8 + i] == q[8 + i]
    ensures IsSix(AllScales(q)[i]) && IsSix(AllScales(q)[4 + i]) && IsSix(AllMins(q)[i]) && IsSix(AllMins(q)[4 + i])
  {
    hide PackScaleMin, GetScaleMinK4, PackWhole, PackNibbles, Whole, LowSplit, HighSplit, IsSix;
    FieldLanes(q, i);
    PackLanes(AllScales(q), AllMins(q), i);
    SplitPacks(q[i], q[4 + i], q[8 + i]);
  }

  /** d * scale * nibble - dmin * min. */
  function Weight4(d: real, dmin: real, sm: (bv8, bv8), nibble: bv8): real {
    Weight(d, dmin, sm.0 as int, sm.1 as int, nibble as int)
  }

  function Weight(d: real, dmin: real, scale: int, min: int, nibble: int): real {
    d * scale as real * nibble as real - dmin * min as real
  }

  /** Element r of the super-block at `at`, in stored order: sub-block r/32, low nibbles before high. */
  function Dequant(row: seq<bv8>, half: (bv8, bv8) -> real, at: nat, r: nat): real
    requires at + BLOCK_BYTES <= |row| && r < BLOCK_ELEMS
  {
    var j := r / 32;
    var qb := row[at + 16 + j / 2 * 32 + r % 32];
    Weight4(half(row[at], row[at + 1]), half(row[at + 2], row[at + 3]), GetScaleMinK4(j, row[at + 4..at + 16]),
            if j % 2 == 0 then qb & 0x0F else qb >> 4)
  }

  /** The dequantised row as a vector. */
  function RowVector(row: seq<bv8>, half: (bv8, bv8) -> real): int -> real {
    e => if 0 <= e && e / BLOCK_ELEMS * BLOCK_BYTES + BLOCK_BYTES <= |row|
         then Dequant(row, half, e / BLOCK_ELEMS * BLOCK_BYTES, e % BLOCK_ELEMS) else 0.0
  }

  function Vector(x: seq<real>): int -> real { e => if 0 <= e < |x| then x[e] else 0.0 }

  /** The traversal's weights are the in-order elements. */
  lemma LaneElement(row: seq<bv8>, half: (bv8, bv8) -> real, b: nat, pair: nat, l: nat)
    requires (b + 1) * BLOCK_BYTES <= |row| && pair < 4 && l < 32
    ensures var at, e := b * BLOCK_BYTES, b * BLOCK_ELEMS + 64 * pair + l;
            var d, dmin, qb := half(row[at], row[at + 1]), half(row[at + 2], row[at + 3]), row[at + 16 + pair * 32 + l];
            && RowVector(row, half)(e) == Weight4(d, dmin, GetScaleMinK4(2 * pair, row[at + 4..at + 16]), qb & 0x0F)
            && RowVector(row, half)(e + 32) == Weight4(d, dmin, GetScaleMinK4(2 * pair + 1, row[at + 4..at + 16]),
                qb >> 4)
  {
    hide Weight4, GetScaleMinK4;
    LaneIndex(b, pair, l);
  }

  lemma LaneIndex(b: nat, pair: nat, l: nat)
    requires pair < 4 && l < 32
    ensures var e := b * 256 + 64 * pair + l;
        e / 256 == b && e % 256 == 64 * pair + l && (e + 32) / 256 == b && (e + 32) % 256 == 64 * pair + l + 32
    ensures (64 * pair + l) / 32 == 2 * pair && (64 * pair + l) % 32 == l
    ensures (64 * pair + l + 32) / 32 == 2 * pair + 1 && (64 * pair + l + 32) % 32 == l
  {
  }

  /** One pair of sub-blocks: 32 lanes, low and high nibble interleaved. */
  method PairDot(row: seq<bv8>, half: (bv8, bv8) -> real, x: seq<real>, b: nat, pair: nat, acc0: real)
    returns (acc: real)
    requires (b + 1) * BLOCK_BYTES <= |row| && (b + 1) * BLOCK_ELEMS <= |x| && pair < 4
    requires acc0 == Dot(0, b * BLOCK_ELEMS + 64 * pair, Vector(x), RowVector(row, half))
    ensures acc == Dot(0, b * BLOCK_ELEMS + 64 * pair + 64, Vector(x), RowVector(row, half))
  {
    hide Dot, Term, Weight4, GetScaleMinK4, RowVector;
    var at, lo := b * BLOCK_BYTES, b * BLOCK_ELEMS + 64 * pair;
    var hi := lo + 32;
    ghost var X, W := Vector(x), RowVector(row, half);
    var d, dmin := half(row[at], row[at + 1]), half(row[at + 2], row[at + 3]);
    var low, high := GetScaleMinK4(2 * pair, row[at + 4..at + 16]), GetScaleMinK4(2 * pair + 1, row[at + 4..at + 16]);
    acc := acc0;
    DotPeel(lo, lo, X, W);
    DotPeel(hi, hi, X, W);
    for l := 0 to 32
      invariant acc == Dot(0, lo, X, W) + Dot(lo, lo + l, X, W) + Dot(hi, hi + l, X, W)
    {
      var qb := row[at + 16 + pair * 32 + l];
      LaneElement(row, half, b, pair, l);
      PeelTerm(lo, lo + l, X, W);
      PeelTerm(hi, hi + l, X, W);
      assert W(lo + l) == Weight4(d, dmin, low, qb & 0x0F) && W(hi + l) == Weight4(d, dmin, high, qb >> 4);
      acc := acc + Term(x[lo + l], Weight4(d, dmin, low, qb & 0x0F));
      acc := acc + Term(x[hi + l], Weight4(d, dmin, high, qb >> 4));
    }
    DotSplit(0, lo, hi, X, W);
    DotSplit(0, hi, hi + 32, X, W);
  }

  /** q4kRowDot equals the in-order dot product of the dequantised row, for any number of blocks. */
  method Q4kRowDot(row: seq<bv8>, half: (bv8, bv8) -> real, x: seq<real>, dModel: nat) returns (acc: real)
    requires dModel / BLOCK_ELEMS * BLOCK_BYTES <= |row| && dModel <= |x|
    ensures acc == Dot(0, dModel / BLOCK_ELEMS * BLOCK_ELEMS, Vector(x), RowVector(row, half))
  {
    hide Dot, RowVector;
    acc := 0.0;
    DotPeel(0, 0, Vector(x), RowVector(row, half));
    for b := 0 to dModel / BLOCK_ELEMS
      invariant acc == Dot(0, b * BLOCK_ELEMS, Vector(x), RowVector(row, half))
    {
      for pair := 0 to 4
        invariant acc == Dot(0, b * BLOCK_ELEMS + 64 * pair, Vector(x), RowVector(row, half))
      {
        acc := PairDot(row, half, x, b, pair, acc);
      }
    }
  }

  /** The layout of the 12 scale bytes: six low bits for sub-blocks 0..3; for 4..7 a nibble, completed by the two top
      bits of the byte four places (min) or eight places (scale) earlier. */
  lemma ScaleMinInSource(q: seq<bv8>, j: nat)
    requires |q| == 12 && j < 8
    ensures GetScaleMinK4(j, q) == if j < 4 then (q[j] % 64, q[j + 4] % 64)
                                   else (q[j + 4] % 16 + 16 * (q[j - 4] / 64), q[j + 4] / 16 + 16 * (q[j] / 64))
  {
    if j < 4 { FieldValues(q[j], q[j + 4], 0); } else { FieldValues(q[j - 4], q[j], q[j + 4]); }
  }

  lemma FieldValues(u: bv8, v: bv8, w: bv8)
    ensures u & 0x3F == u % 64 && v & 0x3F == v % 64
    ensures (w & 0x0F) | ((u >> 6) << 4) == w % 16 + 16 * (u / 64)
    ensures (w >> 4) | ((v >> 6) << 4) == w / 16 + 16 * (v / 64)
  {
  }

  /** An element from the row's bytes: d times its sub-block's scale times its nibble (low for even sub-blocks, high
      for odd ones), less dmin times the sub-block's min. */
  lemma ElementInSource(row: seq<bv8>, half: (bv8, bv8) -> real, b: nat, e: nat,
                        d: real, dmin: real, scale: int, min: int, nibble: int)
    requires b * 144 + 144 <= |row| && e < 256
    requires d == half(row[b * 144], row[b * 144 + 1]) && dmin == half(row[b * 144 + 2], row[b * 144 + 3])
    requires var sm := GetScaleMinK4(e / 32, row[b * 144 + 4..b * 144 + 16]); scale == sm.0 as int && min == sm.1 as int
    requires var qb := row[b * 144 + 16 + e / 64 * 32 + e % 32];
             nibble == (if e / 32 % 2 == 0 then qb % 16 else qb / 16) as int
    ensures RowVector(row, half)(b * 256 + e) == d * scale as real * nibble as real - dmin * min as real
  {
    hide Weight4, Weight, GetScaleMinK4, RowVector;
    var at := b * 144;
    var sm, qb := GetScaleMinK4(e / 32, row[at + 4..at + 16]), row[at + 16 + e / 64 * 32 + e % 32];
    var nib := if e / 32 % 2 == 0 then qb & 0x0F else qb >> 4;
    NibbleForms(qb);
    RowElement(row, half, b, e, sm, nib);
    WeightIs(d, dmin, sm, nib, scale, min, nibble);
    WeightInSource(d, dmin, scale, min, nibble);
  }

  lemma NibbleForms(qb: bv8)
    ensures qb & 0x0F == qb % 16 && qb >> 4 == qb / 16
  {
  }

  lemma WeightIs(d: real, dmin: real, sm: (bv8, bv8), nib: bv8, scale: int, min: int, nibble: int)
    requires scale == sm.0 as int && min == sm.1 as int && nibble == nib as int
    ensures Weight4(d, dmin, sm, nib) == Weight(d, dmin, scale, min, nibble)
  {
    hide Weight;
  }

  lemma WeightInSource(d: real, dmin: real, scale: int, min: int, nibble: int)
    ensures Weight(d, dmin, scale, min, nibble) == d * scale as real * nibble as real - dmin * min as real
  {
  }

  lemma RowElement(row: seq<bv8>, half: (bv8, bv8) -> real, b: nat, e: nat, sm: (bv8, bv8), nib: bv8)
    requires b * 144 + 144 <= |row| && e < 256 && sm == GetScaleMinK4(e / 32, row[b * 144 + 4..b * 144 + 16])
    requires var qb := row[b * 144 + 16 + e / 64 * 32 + e % 32]; nib == if e / 32 % 2 == 0 then qb & 0x0F else qb >> 4
    ensures RowVector(row, half)(b * 256 + e) == Weight4(half(row[b * 144], row[b * 144 + 1]),
                                                         half(row[b * 144 + 2], row[b * 144 + 3]), sm, nib)
  {
    hide Weight4, GetScaleMinK4;
    ColumnOf(b, e);
  }

  lemma ColumnOf(b: nat, e: nat)
    requires e < 256
    ensures (b * 256 + e) / 256 == b && (b * 256 + e) % 256 == e && e / 32 / 2 == e / 64 && e / 64 < 4 && e / 32 < 8
  {
  }

  /** A super-block before packing: the bytes of d and dmin, 8 scales, 8 mins and 256 nibbles. */
  datatype Block = Block(d: (bv8, bv8), dmin: (bv8, bv8), sc: seq<bv8>, mn: seq<bv8>, nib: seq<bv8>)
  {
    predicate Valid() {
      && |sc| == |mn| == 8 && |nib| == 256
      && (forall j | 0 <= j < 8 :: IsSix(sc[j]) && IsSix(mn[j]))
      && forall e | 0 <= e < 256 :: nib[e] < 16
    }
  }

  /** Byte i holds element i/32*64 + i%32 below and the element 32 after it above. */
  function PackedNibbles(nib: seq<bv8>): (q: seq<bv8>)
    requires |nib| == 256
    ensures |q| == 128
  {
    seq(128, i requires 0 <= i < 128 => PackNibbles(nib[i / 32 * 64 + i % 32], nib[i / 32 * 64 + i % 32 + 32]))
  }

  lemma NibblePair(a: bv8, b: bv8)
    requires a < 16 && b < 16
    ensures PackNibbles(a, b) % 16 == a && PackNibbles(a, b) / 16 == b
  {
  }

  lemma PackedNibble(nib: seq<bv8>, e: nat)
    requires |nib| == 256 && e < 256 && forall k | 0 <= k < 256 :: nib[k] < 16
    ensures e / 64 * 32 + e % 32 < 128
    ensures var qb := PackedNibbles(nib)[e / 64 * 32 + e % 32]; nib[e] == if e / 32 % 2 == 0 then qb % 16 else qb / 16
  {
    var p, l := e / 64, e % 32;
    PairLane(e);
    NibblePair(nib[p * 64 + l], nib[p * 64 + l + 32]);
  }

  lemma PairLane(e: nat)
    requires e < 256
    ensures var p, l := e / 64, e % 32;
            && p < 4 && (p * 32 + l) / 32 == p && (p * 32 + l) % 32 == l
            && e == p * 64 + l + (if e / 32 % 2 == 0 then 0 else 32)
  {
  }

  /** Super-block b of the row is assembled from k. */
  ghost predicate Assembled(row: seq<bv8>, b: nat, k: Block)
    requires k.Valid()
  {
    && b * 144 + 144 <= |row|
    && row[b * 144..b * 144 + 144]
       == [k.d.0, k.d.1, k.dmin.0, k.dmin.1] + PackScaleMin(k.sc, k.mn) + PackedNibbles(k.nib)
  }

  /** Every element of an assembled super-block, anywhere in a row, is d * scale * nibble - dmin * min. */
  lemma ElementOfPacked(row: seq<bv8>, half: (bv8, bv8) -> real, b: nat, k: Block, e: nat,
                        d: real, dmin: real, scale: int, min: int, nibble: int)
    requires k.Valid() && Assembled(row, b, k) && e < 256
    requires d == half(k.d.0, k.d.1) && dmin == half(k.dmin.0, k.dmin.1)
    requires scale == k.sc[e / 32] as int && min == k.mn[e / 32] as int && nibble == k.nib[e] as int
    ensures RowVector(row, half)(b * 256 + e) == d * scale as real * nibble as real - dmin * min as real
  {
    hide IsSix, Assembled, RowVector, PackScaleMin, PackedNibbles, GetScaleMinK4;
    BlockBytes(row, b, k);
    UnpackOfPack(k.sc, k.mn, e / 32);
    PackedNibble(k.nib, e);
    ElementInSource(row, half, b, e, d, dmin, scale, min, nibble);
  }

  lemma BlockBytes(row: seq<bv8>, b: nat, k: Block)
    requires k.Valid() && Assembled(row, b, k)
    ensures b * 144 + 144 <= |row| && row[b * 144 + 4..b * 144 + 16] == PackScaleMin(k.sc, k.mn)
    ensures row[b * 144] == k.d.0 && row[b * 144 + 1] == k.d.1
    ensures row[b * 144 + 2] == k.dmin.0 && row[b * 144 + 3] == k.dmin.1
    ensures forall i | 0 <= i < 128 :: row[b * 144 + 16 + i] == PackedNibbles(k.nib)[i]
  {
    hide PackScaleMin, PackedNibbles, IsSix;
    var at, block := b * 144, [k.d.0, k.d.1, k.dmin.0, k.dmin.1] + PackScaleMin(k.sc, k.mn) + PackedNibbles(k.nib);
    forall i | 0 <= i < 144 ensures row[at + i] == block[i] { assert row[at..at + 144][i] == block[i]; }
    forall i | 0 <= i < 128 ensures row[at + 16 + i] == PackedNibbles(k.nib)[i] {
      assert block[16 + i] == PackedNibbles(k.nib)[i];
    }
    assert block[4..16] == PackScaleMin(k.sc, k.mn);
    assert row[at + 4..at + 16] == block[4..16];
  }

  /** The traversal's result on a row of assembled super-blocks: the sum over all elements i of x[i] times
      d * scale * nibble - dmin * min of element i%256 of block i/256. */
  lemma DotOfPacked(row: seq<bv8>, half: (bv8, bv8) -> real, x: seq<real>, blocks: seq<Block>,
                    xs: int -> real, w: int -> real,
                    d: int -> real, dmin: int -> real, scale: int -> int, min: int -> int, nibble: int -> int)
    requires |blocks| * 256 <= |x| && forall b | 0 <= b < |blocks| :: blocks[b].Valid() && Assembled(row, b, blocks[b])
    requires forall i | 0 <= i < |blocks| * 256 ::
               FieldsAre(half, blocks, i, d(i), dmin(i), scale(i), min(i), nibble(i))
    requires forall i | 0 <= i < |blocks| * 256 :: w(i) == Weight(d(i), dmin(i), scale(i), min(i), nibble(i))
    requires forall i | 0 <= i < |blocks| * 256 :: xs(i) == x[i]
    ensures Dot(0, |blocks| * 256, Vector(x), RowVector(row, half)) == Dot(0, |blocks| * 256, xs, w)
  {
    hide *;
    forall i | 0 <= i < |blocks| * 256 ensures RowVector(row, half)(i) == w(i) {
      FieldsFrom(half, blocks, i, d(i), dmin(i), scale(i), min(i), nibble(i));
      TermOfPacked(row, half, blocks, i, d(i), dmin(i), scale(i), min(i), nibble(i), w(i));
    }
    forall i | 0 <= i < |blocks| * 256 ensures Vector(x)(i) == xs(i) { VectorIs(x, i); }
    SameVector(|blocks| * 256, Vector(x), xs);
    SameVector(|blocks| * 256, RowVector(row, half), w);
    DotAgree(0, |blocks| * 256, Vector(x), xs, RowVector(row, half), w);
  }

  lemma VectorIs(x: seq<real>, i: nat)
    requires i < |x|
    ensures Vector(x)(i) == x[i]
  {
  }

  lemma SameVector(n: int, f: int -> real, g: int -> real)
    requires forall i | 0 <= i < n :: f(i) == g(i)
    ensures Agree(0, n, f, g)
  {
  }

  lemma TermOfPacked(row: seq<bv8>, half: (bv8, bv8) -> real, blocks: seq<Block>, i: nat,
                     d: real, dmin: real, scale: int, min: int, nibble: int, w: real)
    requires FieldsAre(half, blocks, i, d, dmin, scale, min, nibble) && Assembled(row, i / 256, blocks[i / 256])
    requires w == Weight(d, dmin, scale, min, nibble)
    ensures RowVector(row, half)(i) == w
  {
    hide RowVector, Assembled, FieldsAre, Block.Valid, Weight;
    WeightInSource(d, dmin, scale, min, nibble);
    FieldsFrom(half, blocks, i, d, dmin, scale, min, nibble);
    ElementOfPacked(row, half, i / 256, blocks[i / 256], i % 256, d, dmin, scale, min, nibble);
  }

  /** The fields that element i of a row of super-blocks is made of. */
  ghost predicate FieldsAre(half: (bv8, bv8) -> real, blocks: seq<Block>, i: int,
                            d: real, dmin: real, scale: int, min: int, nibble: int)
  {
    && 0 <= i / 256 < |blocks| && blocks[i / 256].Valid()
    && d == half(blocks[i / 256].d.0, blocks[i / 256].d.1)
    && dmin == half(blocks[i / 256].dmin.0, blocks[i / 256].dmin.1)
    && scale == blocks[i / 256].sc[i % 256 / 32] as int && min == blocks[i / 256].mn[i % 256 / 32] as int
    && nibble == blocks[i / 256].nib[i % 256] as int
  }

  lemma FieldsFrom(half: (bv8, bv8) -> real, blocks: seq<Block>, i: nat,
                   d: real, dmin: real, scale: int, min: int, nibble: int)
    requires FieldsAre(half, blocks, i, d, dmin, scale, min, nibble)
    ensures i == i / 256 * 256 + i % 256 && i / 256 < |blocks| && blocks[i / 256].Valid()
    ensures var k, e := blocks[i / 256], i % 256;
            && d == half(k.d.0, k.d.1) && dmin == half(k.dmin.0, k.dmin.1) && e < 256
            && |k.sc| == |k.mn| == 8 && |k.nib| == 256
            && scale == k.sc[e / 32] as int && min == k.mn[e / 32] as int && nibble == k.nib[e] as int
  {
    hide IsSix;
  }
}
