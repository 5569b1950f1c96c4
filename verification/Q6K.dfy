/** Q6_K: single-element dequantisation and its inverse packer. */
module Q6K {
  import opened SixBits

  const BLOCK_BYTES: nat := 210
  const BLOCK_ELEMS: nat := 256

  /** The six-bit field of element e of a super-block, by the reader's case split. */
  function QuantBits(blk: seq<bv8>, e: nat): bv8
    requires |blk| >= 192 && e < BLOCK_ELEMS
  {
    var half, rem := e / 128, e % 128;
    var quad, l := rem / 32, rem % 32;
    var ql, qh := half * 64, 128 + half * 32;
    if quad == 0 then First(blk[ql + l], blk[qh + l])
    else if quad == 1 then Second(blk[ql + l + 32], blk[qh + l])
    else if quad == 2 then Third(blk[ql + l], blk[qh + l])
    else Fourth(blk[ql + l + 32], blk[qh + l])
  }

  /** Sub-scale index of element e: 8 per half, two per quadrant. */
  function ScaleIndex(e: nat): (i: nat)
    requires e < BLOCK_ELEMS
    ensures i == e / 16
  {
    var half, rem := e / 128, e % 128;
    half * 8 + rem % 32 / 16 + 2 * (rem / 32)
  }

  function Signed(b: bv8): int { if b < 128 then b as int else b as int - 256 }

  /** d * scale * (quant - 32). */
  function Element6(d: real, scale: int, bits: bv8): real { d * scale as real * (bits as int - 32) as real }

  /** dequantElemQ6K: element `col` of a row of super-blocks. */
  function DequantElemQ6K(row: seq<bv8>, half: (bv8, bv8) -> real, col: nat): real
    requires (col / BLOCK_ELEMS + 1) * BLOCK_BYTES <= |row|
  {
    var at, e := col / BLOCK_ELEMS * BLOCK_BYTES, col % BLOCK_ELEMS;
    Element6(half(row[at + 208], row[at + 209]), Signed(row[at + 192 + ScaleIndex(e)]),
        QuantBits(row[at..at + BLOCK_BYTES], e))
  }

  /** The inverse packer: 256 six-bit quants into the 192 quant bytes. */
  function PackQuants(v: seq<bv8>): (q: seq<bv8>)
    requires |v| == 256
    ensures |q| == 192
  {
    seq(192, i requires 0 <= i < 192 =>
      if i < 128 then PackX(v[i / 64 * 128 + i % 64], v[i / 64 * 128 + 64 + i % 64])
      else var h, l := (i - 128) / 32, (i - 128) % 32;
           PackZ(v[h * 128 + l], v[h * 128 + 32 + l], v[h * 128 + 64 + l], v[h * 128 + 96 + l]))
  }

  function Quants(blk: seq<bv8>): (v: seq<bv8>)
    requires |blk| >= 192
    ensures |v| == 256
  {
    seq(256, e requires 0 <= e < 256 => QuantBits(blk, e))
  }

  /** The four elements of lane (half, l), and the three bytes they live in. */
  lemma LaneBits(blk: seq<bv8>, h: nat, l: nat)
    requires |blk| >= 192 && h < 2 && l < 32
    ensures var x, y, z := blk[h * 64 + l], blk[h * 64 + 32 + l], blk[128 + h * 32 + l];
            && QuantBits(blk, h * 128 + l) == First(x, z) && QuantBits(blk, h * 128 + 32 + l) == Second(y, z)
            && QuantBits(blk, h * 128 + 64 + l) == Third(x, z) && QuantBits(blk, h * 128 + 96 + l) == Fourth(y, z)
  {
    hide First, Second, Third, Fourth;
    LaneElementIndex(h, 0, l);
    LaneElementIndex(h, 1, l);
    LaneElementIndex(h, 2, l);
    LaneElementIndex(h, 3, l);
  }

  lemma LaneElementIndex(h: nat, quad: nat, l: nat)
    requires h < 2 && quad < 4 && l < 32
    ensures var e := h * 128 + 32 * quad + l; e < 256 && e / 128 == h && e % 128 / 32 == quad && e % 128 % 32 == l
  {
  }

  lemma LaneBytes(v: seq<bv8>, h: nat, l: nat)
    requires |v| == 256 && h < 2 && l < 32
    ensures var a, b, c, d := v[h * 128 + l], v[h * 128 + 32 + l], v[h * 128 + 64 + l], v[h * 128 + 96 + l];
            && PackQuants(v)[h * 64 + l] == PackX(a, c) && PackQuants(v)[h * 64 + 32 + l] == PackX(b, d)
            && PackQuants(v)[128 + h * 32 + l] == PackZ(a, b, c, d)
  {
    hide PackX, PackZ;
    assert (h * 64 + l) / 64 == h && (h * 64 + l) % 64 == l;
    assert (h * 64 + 32 + l) / 64 == h && (h * 64 + 32 + l) % 64 == 32 + l;
    assert (h * 32 + l) / 32 == h && (h * 32 + l) % 32 == l;
  }

  /** The lane of an element, and the lane of a quant byte. */
  lemma ElementLane(e: nat)
    requires e < 256
    ensures var h, quad, l := e / 128, e % 128 / 32, e % 32; h < 2 && quad < 4 && l < 32 && e == h * 128 + 32 * quad + l
  {
  }

  lemma LaneRoundTrip(v: seq<bv8>, h: nat, l: nat)
    requires |v| == 256 && h < 2 && l < 32 && forall e | 0 <= e < 256 :: IsSix(v[e])
    ensures forall quad | 0 <= quad < 4 :: Quants(PackQuants(v))[h * 128 + 32 * quad + l] == v[h * 128 + 32 * quad + l]
  {
    hide First, Second, Third, Fourth, PackX, PackZ, IsSix, PackQuants, QuantBits;
    var base := h * 128 + l;
    LaneBytes(v, h, l);
    LaneBits(PackQuants(v), h, l);
    LaneUnpacks(v[h * 128 + l], v[h * 128 + 32 + l], v[h * 128 + 64 + l], v[h * 128 + 96 + l]);
  }

  /** Packing then reading gives every quant back. */
  lemma UnpackOfPack(v: seq<bv8>)
    requires |v| == 256 && forall e | 0 <= e < 256 :: IsSix(v[e])
    ensures Quants(PackQuants(v)) == v
  {
    hide IsSix, PackQuants, Quants;
    forall e | 0 <= e < 256 ensures Quants(PackQuants(v))[e] == v[e] {
      ElementLane(e);
      LaneRoundTrip(v, e / 128, e % 32);
    }
  }

  lemma LaneBack(blk: seq<bv8>, h: nat, l: nat)
    requires |blk| == 192 && h < 2 && l < 32
    ensures var p := PackQuants(Quants(blk));
            p[h * 64 + l] == blk[h * 64 + l] && p[h * 64 + 32 + l] == blk[h * 64 + 32 + l]
                && p[128 + h * 32 + l] == blk[128 + h * 32 + l]
  {
    hide First, Second, Third, Fourth, PackX, PackZ, IsSix, PackQuants, QuantBits;
    LaneBits(blk, h, l);
    LaneBytes(Quants(blk), h, l);
    LanePacks(blk[h * 64 + l], blk[h * 64 + 32 + l], blk[128 + h * 32 + l]);
  }

  /** Reading then packing gives every quant byte back: each stored bit is used exactly once. */
  lemma PackOfUnpack(blk: seq<bv8>)
    requires |blk| == 192
    ensures PackQuants(Quants(blk)) == blk
  {
    hide PackQuants, Quants;
    forall i | 0 <= i < 192 ensures PackQuants(Quants(blk))[i] == blk[i] {
      if i < 128 {
        LaneBack(blk, i / 64, i % 32);
        assert i == i / 64 * 64 + i % 32 || i == i / 64 * 64 + 32 + i % 32;
      } else {
        LaneBack(blk, (i - 128) / 32, (i - 128) % 32);
      }
    }
  }

  /** Super-block b of a row, assembled from packed quants and its 18 scale bytes. */
  ghost predicate BlockAssembled(row: seq<bv8>, b: nat, v: seq<bv8>, tail: seq<bv8>)
    requires |v| == 256 && |tail| == 18
  {
    (b + 1) * BLOCK_BYTES <= |row| && row[b * BLOCK_BYTES..(b + 1) * BLOCK_BYTES] == PackQuants(v) + tail
  }

  /** The field of element e from the block's bytes: a nibble of byte e/128*64 + e%64, the low one for the first 64
      elements of each half, and two bits of byte 128 + e/128*32 + e%32 at position 2*(e%128/32). */
  lemma QuantInSource(blk: seq<bv8>, e: nat)
    requires |blk| >= 192 && e < 256
    ensures var x, z := blk[e / 128 * 64 + e % 64], blk[128 + e / 128 * 32 + e % 32];
            QuantBits(blk, e) == (if e % 128 < 64 then x % 16 else x / 16) + 16 * ((z >> (2 * (e % 128 / 32))) % 4)
  {
    hide First, Second, Third, Fourth, QuantBits;
    var h, quad, l := e / 128, e % 128 / 32, e % 32;
    ElementLane(e);
    LaneBits(blk, h, l);
    LaneValues(blk[h * 64 + l], blk[h * 64 + 32 + l], blk[128 + h * 32 + l]);
    NibbleByte(e);
  }

  lemma NibbleByte(e: nat)
    requires e < 256
    ensures e % 64 == e % 32 + (if e % 128 / 32 % 2 == 0 then 0 else 32) && (e % 128 < 64 <==> e % 128 / 32 < 2)
  {
  }

  lemma LaneValues(x: bv8, y: bv8, z: bv8)
    ensures First(x, z) == x % 16 + 16 * ((z >> 0) % 4) && Second(y, z) == y % 16 + 16 * ((z >> 2) % 4)
    ensures Third(x, z) == x / 16 + 16 * ((z >> 4) % 4) && Fourth(y, z) == y / 16 + 16 * ((z >> 6) % 4)
  {
  }

  /** A column from the row's bytes: d, the half at byte 208 of its super-block, times the signed scale byte
      192 + e/16, times its field less 32. */
  lemma ElementInSource(row: seq<bv8>, half: (bv8, bv8) -> real, b: nat, e: nat, d: real, scale: int, field: int)
    requires (b + 1) * 210 <= |row| && e < 256 && d == half(row[b * 210 + 208], row[b * 210 + 209])
    requires var s := row[b * 210 + 192 + e / 16]; scale == if s < 128 then s as int else s as int - 256
    requires field == QuantBits(row[b * 210..b * 210 + 210], e) as int
    ensures DequantElemQ6K(row, half, b * 256 + e) == d * scale as real * (field - 32) as real
  {
    hide QuantBits, Element6;
    ColumnOf(b, e);
    ElementIs(d, scale, QuantBits(row[b * 210..b * 210 + 210], e), field);
  }

  lemma ElementIs(d: real, scale: int, bits: bv8, field: int)
    requires field == bits as int
    ensures Element6(d, scale, bits) == d * scale as real * (field - 32) as real
  {
  }

  /** In any super-block of a row, each column dequantises to d * scale * (quant - 32) of its own block. */
  lemma DequantOfPacked(row: seq<bv8>, b: nat, v: seq<bv8>, tail: seq<bv8>, half: (bv8, bv8) -> real, e: nat,
                        d: real, scale: int, field: int)
    requires |v| == 256 && |tail| == 18 && e < 256 && forall k | 0 <= k < 256 :: IsSix(v[k])
    requires BlockAssembled(row, b, v, tail) && d == half(tail[16], tail[17]) && field == v[e] as int
    requires scale == if tail[e / 16] < 128 then tail[e / 16] as int else tail[e / 16] as int - 256
    ensures (b * 256 + e) / 256 * 210 + 210 <= |row|
    ensures DequantElemQ6K(row, half, b * 256 + e) == d * scale as real * (field - 32) as real
  {
    hide IsSix, PackQuants, QuantBits, DequantElemQ6K;
    UnpackOfPack(v);
    ColumnOf(b, e);
    var at, block := b * BLOCK_BYTES, PackQuants(v) + tail;
    assert row[at..at + BLOCK_BYTES] == block;
    assert forall i | 0 <= i < BLOCK_BYTES :: row[at + i] == block[i];
    assert Quants(PackQuants(v))[e] == QuantBits(PackQuants(v), e);
    SamePrefix(PackQuants(v), tail, e);
    ElementInSource(row, half, b, e, d, scale, field);
  }

  lemma ColumnOf(b: nat, e: nat)
    requires e < BLOCK_ELEMS
    ensures (b * BLOCK_ELEMS + e) / BLOCK_ELEMS == b && (b * BLOCK_ELEMS + e) % BLOCK_ELEMS == e
  {
  }

  lemma SamePrefix(q: seq<bv8>, tail: seq<bv8>, e: nat)
    requires |q| == 192 && e < 256
    ensures QuantBits(q + tail, e) == QuantBits(q, e)
  {
    hide First, Second, Third, Fourth;
    ElementLane(e);
  }
}
