/** Q3_K: the word-parallel scale unpack and the cursor-driven dequantisation loop. */
module Q3K {
  import opened SixBits

  const BLOCK_BYTES: nat := 110
  const BLOCK_ELEMS: nat := 256
  const SCALES_AT: nat := 96
  const D_AT: nat := 108

  /** Byte definition of scale j: lane j%4 of fields j/4. */
  function ScaleOf(p: seq<bv8>, j: nat): bv8
    requires |p| == 12 && j < 16
  {
    var i := j % 4;
    if j < 4 then First(p[i], p[8 + i])
    else if j < 8 then Second(p[4 + i], p[8 + i])
    else if j < 12 then Third(p[i], p[8 + i])
    else Fourth(p[4 + i], p[8 + i])
  }

  function Scales(p: seq<bv8>): (s: seq<bv8>)
    requires |p| == 12
    ensures |s| == 16
  {
    seq(16, j requires 0 <= j < 16 => ScaleOf(p, j))
  }

  /** The four scales of lane i. */
  lemma ScaleLanes(p: seq<bv8>, i: nat)
    requires |p| == 12 && i < 4
    ensures Scales(p)[i] == First(p[i], p[8 + i]) && Scales(p)[4 + i] == Second(p[4 + i], p[8 + i])
    ensures Scales(p)[8 + i] == Third(p[i], p[8 + i]) && Scales(p)[12 + i] == Fourth(p[4 + i], p[8 + i])
  {
    hide First, Second, Third, Fourth;
  }

  function Bytes(w: bv32): (s: seq<bv8>)
    ensures |s| == 4
  {
    [Byte0(w), Byte1(w), Byte2(w), Byte3(w)]
  }

  function WordAt(p: seq<bv8>, i: nat): bv32
    requires i + 4 <= |p|
  {
    Word(p[i], p[i + 1], p[i + 2], p[i + 3])
  }

  /** unpackScalesQ3K: four 32-bit words, overwritten in this order. */
  method UnpackScalesQ3K(packed: seq<bv8>) returns (scales: seq<bv8>)
    requires |packed| == 12
    ensures scales == Scales(packed)
  {
    hide LowWord, HighWord, WordAt, Bytes, Scales;
    var aux := new bv32[4];
    aux[0], aux[1], aux[2], aux[3] := WordAt(packed, 0), WordAt(packed, 4), WordAt(packed, 8), 0;
    var tmp := aux[2];
    aux[2] := HighWord(aux[0], tmp, 4);
    aux[3] := HighWord(aux[1], tmp, 6);
    aux[0] := LowWord(aux[0], tmp, 0);
    aux[1] := LowWord(aux[1], tmp, 2);
    scales := Bytes(aux[0]) + Bytes(aux[1]) + Bytes(aux[2]) + Bytes(aux[3]);
    WordsAreScales(packed);
  }

  lemma FirstScales(p: seq<bv8>)
    requires |p| == 12
    ensures Scales(p)[0..4] == Bytes(LowWord(WordAt(p, 0), WordAt(p, 8), 0))
  {
    hide LowWord, Word, Byte0, Byte1, Byte2, Byte3, First, Second, Third, Fourth, Scales;
    FirstWord(p[0], p[1], p[2], p[3], p[8], p[9], p[10], p[11]);
    ScaleLanes(p, 0);
    ScaleLanes(p, 1);
    ScaleLanes(p, 2);
    ScaleLanes(p, 3);
  }

  lemma SecondScales(p: seq<bv8>)
    requires |p| == 12
    ensures Scales(p)[4..8] == Bytes(LowWord(WordAt(p, 4), WordAt(p, 8), 2))
  {
    hide LowWord, Word, Byte0, Byte1, Byte2, Byte3, First, Second, Third, Fourth, Scales;
    SecondWord(p[4], p[5], p[6], p[7], p[8], p[9], p[10], p[11]);
    ScaleLanes(p, 0);
    ScaleLanes(p, 1);
    ScaleLanes(p, 2);
    ScaleLanes(p, 3);
  }

  lemma ThirdScales(p: seq<bv8>)
    requires |p| == 12
    ensures Scales(p)[8..12] == Bytes(HighWord(WordAt(p, 0), WordAt(p, 8), 4))
  {
    hide HighWord, Word, Byte0, Byte1, Byte2, Byte3, First, Second, Third, Fourth, Scales;
    ThirdWord(p[0], p[1], p[2], p[3], p[8], p[9], p[10], p[11]);
    ScaleLanes(p, 0);
    ScaleLanes(p, 1);
    ScaleLanes(p, 2);
    ScaleLanes(p, 3);
  }

  lemma FourthScales(p: seq<bv8>)
    requires |p| == 12
    ensures Scales(p)[12..16] == Bytes(HighWord(WordAt(p, 4), WordAt(p, 8), 6))
  {
    hide HighWord, Word, Byte0, Byte1, Byte2, Byte3, First, Second, Third, Fourth, Scales;
    FourthWord(p[4], p[5], p[6], p[7], p[8], p[9], p[10], p[11]);
    ScaleLanes(p, 0);
    ScaleLanes(p, 1);
    ScaleLanes(p, 2);
    ScaleLanes(p, 3);
  }

  lemma WordsAreScales(p: seq<bv8>)
    requires |p| == 12
    ensures Scales(p) == Bytes(LowWord(WordAt(p, 0), WordAt(p, 8), 0)) + Bytes(LowWord(WordAt(p, 4), WordAt(p, 8), 2))
                       + Bytes(HighWord(WordAt(p, 0), WordAt(p, 8), 4)) + Bytes(HighWord(WordAt(p, 4), WordAt(p, 8), 6))
  {
    hide LowWord, HighWord, WordAt, Bytes, Scales;
    FirstScales(p);
    SecondScales(p);
    ThirdScales(p);
    FourthScales(p);
    var s := Scales(p);
    assert s == s[0..4] + s[4..8] + s[8..12] + s[12..16];
  }

  /** The inverse packer: 16 six-bit scales into 12 bytes. */
  function PackScales(s: seq<bv8>): (p: seq<bv8>)
    requires |s| == 16
    ensures |p| == 12
  {
    seq(12, i requires 0 <= i < 12 =>
      if i < 8 then PackX(s[i], s[i + 8]) else PackZ(s[i - 8], s[i - 4], s[i], s[i + 4]))
  }

  lemma PackLanes(s: seq<bv8>, i: nat)
    requires |s| == 16 && i < 4
    ensures PackScales(s)[i] == PackX(s[i], s[8 + i]) && PackScales(s)[4 + i] == PackX(s[4 + i], s[12 + i])
    ensures PackScales(s)[8 + i] == PackZ(s[i], s[4 + i], s[8 + i], s[12 + i])
  {
    hide PackX, PackZ;
    assert 8 + i - 8 == i && 8 + i - 4 == 4 + i && 4 + i + 8 == 12 + i && 8 + i + 4 == 12 + i && i + 8 == 8 + i;
  }

  lemma LaneRoundTrip(s: seq<bv8>, i: nat)
    requires |s| == 16 && i < 4 && forall j | 0 <= j < 16 :: IsSix(s[j])
    ensures var t := Scales(PackScales(s));
        t[i] == s[i] && t[4 + i] == s[4 + i] && t[8 + i] == s[8 + i] && t[12 + i] == s[12 + i]
  {
    hide First, Second, Third, Fourth, PackX, PackZ, IsSix, Scales, PackScales;
    PackLanes(s, i);
    ScaleLanes(PackScales(s), i);
    LaneUnpacks(s[i], s[4 + i], s[8 + i], s[12 + i]);
  }

  lemma UnpackOfPack(s: seq<bv8>)
    requires |s| == 16 && forall j | 0 <= j < 16 :: IsSix(s[j])
    ensures Scales(PackScales(s)) == s
  {
    hide IsSix, Scales, PackScales;
    forall j | 0 <= j < 16 ensures Scales(PackScales(s))[j] == s[j] {
      LaneRoundTrip(s, j % 4);
    }
  }

  lemma ByteRoundTrip(p: seq<bv8>, i: nat)
    requires |p| == 12 && i < 4
    ensures var q := PackScales(Scales(p)); q[i] == p[i] && q[4 + i] == p[4 + i] && q[8 + i] == p[8 + i]
    ensures var s := Scales(p); IsSix(s[i]) && IsSix(s[4 + i]) && IsSix(s[8 + i]) && IsSix(s[12 + i])
  {
    hide First, Second, Third, Fourth, PackX, PackZ, IsSix, Scales, PackScales;
    ScaleLanes(p, i);
    PackLanes(Scales(p), i);
    LanePacks(p[i], p[4 + i], p[8 + i]);
  }

  /** Unpacking is a bijection from 12 bytes onto 16 six-bit scales. */
  lemma PackOfUnpack(p: seq<bv8>)
    requires |p| == 12
    ensures PackScales(Scales(p)) == p
    ensures forall j | 0 <= j < 16 :: IsSix(Scales(p)[j])
  {
    hide IsSix, Scales, PackScales;
    forall i | 0 <= i < 12 ensures PackScales(Scales(p))[i] == p[i] { ByteRoundTrip(p, i % 4); }
    forall j | 0 <= j < 16 ensures IsSix(Scales(p)[j]) { ByteRoundTrip(p, j % 4); }
  }

  /** Signed 3-bit quant: low two bits from q, minus 4 unless the mask bit is set. */
  function Quant3(q: bv8, h: bv8, shift: nat, mBit: nat): int
    requires shift <= 8 && mBit <= 8
  {
    ((q >> shift) & 0x3) as int - (if (h >> mBit) & 0x1 != 0 then 0 else 4)
  }

  /** d * (scale - 32), and one element under it. */
  function GroupScale(d: real, scale: bv8): real { d * (scale as int - 32) as real }

  function Element(dl: real, qv: int): real { dl * qv as real }

  /** Closed form of element e of the block at `at`. */
  function Value(bytes: seq<bv8>, half: (bv8, bv8) -> real, at: nat, e: nat): real
    requires at + BLOCK_BYTES <= |bytes| && e < BLOCK_ELEMS
  {
    var scale := ScaleOf(bytes[at + SCALES_AT..at + SCALES_AT + 12], e / 16);
    var q := bytes[at + 32 + e / 128 * 32 + e % 32];
    var h := bytes[at + e % 32];
    Element(GroupScale(half(bytes[at + D_AT], bytes[at + D_AT + 1]), scale), Quant3(q, h, e % 128 / 32 * 2, e / 32))
  }

  /** Elements [0, n) of the block are written, positions outside the block as before. */
  ghost predicate WrittenTo(bytes: seq<bv8>, half: (bv8, bv8) -> real, at: nat, before: seq<real>, out: seq<real>,
                            base: nat, n: nat)
    requires at + BLOCK_BYTES <= |bytes| && n <= BLOCK_ELEMS
  {
    && |out| == |before| && base + BLOCK_ELEMS <= |out|
    && (forall p | base <= p < base + n :: out[p] == Value(bytes, half, at, p - base))
    && (forall p | 0 <= p < |out| && !(base <= p < base + BLOCK_ELEMS) :: out[p] == before[p])
  }

  /** Sixteen elements sharing a scale, written through the running output cursor. */
  method SixteenElements(bytes: seq<bv8>, half: (bv8, bv8) -> real, at: nat, scale: bv8, q: nat, lane: nat, shift: nat,
                         mBit: nat,
                         out: array<real>, base: nat, dst: nat, ghost before: seq<real>) returns (next: nat)
    requires at + BLOCK_BYTES <= |bytes| && base <= dst && dst + 16 <= base + BLOCK_ELEMS && (dst - base) % 16 == 0
    requires CursorsAt(bytes, at, dst - base, scale, q, lane, shift, mBit)
    requires WrittenTo(bytes, half, at, before, out[..], base, dst - base)
    modifies out
    ensures next == dst + 16 && WrittenTo(bytes, half, at, before, out[..], base, dst + 16 - base)
  {
    hide ScaleOf, Quant3, Value, CursorsAt, Element, GroupScale;
    CursorBounds(bytes, at, dst - base, scale, q, lane, shift, mBit);
    var dl := GroupScale(half(bytes[at + D_AT], bytes[at + D_AT + 1]), scale);
    next := dst;
    for l := 0 to 16
      invariant next == dst + l && WrittenTo(bytes, half, at, before, out[..], base, dst + l - base)
    {
      CursorElement(bytes, half, at, dst - base, l, scale, q, lane, shift, mBit);
      out[next] := Element(dl, Quant3(bytes[q + lane + l], bytes[at + lane + l], shift, mBit));
      next := next + 1;
    }
  }

  /** The running cursors before element n, n a multiple of 16. */
  predicate CursorsAt(bytes: seq<bv8>, at: nat, n: nat, scale: bv8, q: nat, lane: nat, shift: nat, mBit: nat) {
    && at + BLOCK_BYTES <= |bytes| && n < BLOCK_ELEMS
    && scale == ScaleOf(bytes[at + SCALES_AT..at + SCALES_AT + 12], n / 16)
    && shift == n % 128 / 32 * 2 && mBit == n / 32 && lane == n % 32 && q == at + 32 + n / 128 * 32
  }

  lemma CursorBounds(bytes: seq<bv8>, at: nat, n: nat, scale: bv8, q: nat, lane: nat, shift: nat, mBit: nat)
    requires CursorsAt(bytes, at, n, scale, q, lane, shift, mBit) && n % 16 == 0
    ensures shift <= 8 && mBit <= 8 && lane <= 16 && at + 32 <= q && q + lane + 16 <= at + SCALES_AT
  {
    hide ScaleOf;
  }

  /** Within a run of 16 the quotients stay put and the lane advances, so the cursor form is the closed form. */
  lemma CursorElement(bytes: seq<bv8>, half: (bv8, bv8) -> real, at: nat, n: nat, l: nat, scale: bv8, q: nat, lane: nat,
                      shift: nat, mBit: nat)
    requires CursorsAt(bytes, at, n, scale, q, lane, shift, mBit) && n % 16 == 0 && l < 16
    ensures n + l < BLOCK_ELEMS && shift <= 8 && mBit <= 8 && at + lane + l < |bytes| && q + lane + l < |bytes|
    ensures Value(bytes, half, at, n + l) == Element(GroupScale(half(bytes[at + D_AT], bytes[at + D_AT + 1]), scale),
                                                    Quant3(bytes[q + lane + l], bytes[at + lane + l], shift, mBit))
  {
    hide ScaleOf, Quant3, Element, GroupScale;
    Quotients(n, l);
  }

  lemma Quotients(n: nat, l: nat)
    requires n % 16 == 0 && n < 256 && l < 16
    ensures n + l < 256 && (n + l) / 16 == n / 16 && (n + l) / 128 == n / 128 && (n + l) % 128 / 32 == n % 128 / 32
    ensures (n + l) / 32 == n / 32 && (n + l) % 32 == n % 32 + l
  {
    SmallQuotients(n, l);
    LargeQuotients(n, l);
  }

  lemma SmallQuotients(n: nat, l: nat)
    requires n % 16 == 0 && l < 16
    ensures (n + l) / 16 == n / 16 && (n + l) / 32 == n / 32 && (n + l) % 32 == n % 32 + l
  {
  }

  lemma LargeQuotients(n: nat, l: nat)
    requires n % 16 == 0 && n < 256 && l < 16
    ensures n + l < 256 && (n + l) / 128 == n / 128 && (n + l) % 128 / 32 == n % 128 / 32
  {
    var half := if n < 128 then 0 else 1;
    var m := n - 128 * half;
    Split(half, m);
    Split(half, m + l);
    SmallQuotients(m, l);
  }

  lemma Split(half: nat, m: nat)
    requires m < 128
    ensures (128 * half + m) / 128 == half && (128 * half + m) % 128 == m
  {
  }

  /** One block, with the source's running scale index, mask bit, shift and pointers. */
  method DequantBlock(bytes: seq<bv8>, half: (bv8, bv8) -> real, at: nat, out: array<real>, base: nat)
    requires at + BLOCK_BYTES <= |bytes| && base + BLOCK_ELEMS <= out.Length
    modifies out
    ensures WrittenTo(bytes, half, at, old(out[..]), out[..], base, BLOCK_ELEMS)
  {
    hide ScaleOf, Value, Element, GroupScale;
    ghost var before := out[..];
    var scales := UnpackScalesQ3K(bytes[at + SCALES_AT..at + SCALES_AT + 12]);
    var si, mBit, q, dst := 0, 0, at + 32, base;
    var nHalf := 0;
    while nHalf < 256
      invariant nHalf in {0, 128, 256} && si == nHalf / 16 && mBit == nHalf / 32 && q == at + 32 + nHalf / 128 * 32
                && dst == base + nHalf
      invariant WrittenTo(bytes, half, at, before, out[..], base, nHalf)
      decreases 256 - nHalf
    {
      var shift := 0;
      for j := 0 to 4
        invariant si == nHalf / 16 + 2 * j && mBit == nHalf / 32 + j && shift == 2 * j && dst == base + nHalf + 32 * j
        invariant WrittenTo(bytes, half, at, before, out[..], base, nHalf + 32 * j)
      {
        assert scales[si] == ScaleOf(bytes[at + SCALES_AT..at + SCALES_AT + 12], si);
        dst := SixteenElements(bytes, half, at, scales[si], q, 0, shift, mBit, out, base, dst, before);
        si := si + 1;
        assert scales[si] == ScaleOf(bytes[at + SCALES_AT..at + SCALES_AT + 12], si);
        dst := SixteenElements(bytes, half, at, scales[si], q, 16, shift, mBit, out, base, dst, before);
        si := si + 1;
        shift := shift + 2;
        mBit := mBit + 1;
      }
      q := q + 32;
      nHalf := nHalf + 128;
    }
  }

  /** Any number of blocks: element e of block b is the closed form. */
  method DequantRow(bytes: seq<bv8>, half: (bv8, bv8) -> real, nBlocks: nat, out: array<real>)
    requires |bytes| == nBlocks * BLOCK_BYTES && out.Length == nBlocks * BLOCK_ELEMS
    modifies out
    ensures forall b, e | 0 <= b < nBlocks && 0 <= e < BLOCK_ELEMS :: ElementIs(bytes, half, out[..], b, e)
  {
    hide Value;
    for b := 0 to nBlocks
      invariant forall b', e | 0 <= b' < b && 0 <= e < BLOCK_ELEMS :: ElementIs(bytes, half, out[..], b', e)
    {
      ghost var before := out[..];
      DequantBlock(bytes, half, b * BLOCK_BYTES, out, b * BLOCK_ELEMS);
      forall b', e | 0 <= b' < b + 1 && 0 <= e < BLOCK_ELEMS ensures ElementIs(bytes, half, out[..], b', e) {
        if b' < b { assert ElementIs(bytes, half, before, b', e); }
      }
    }
  }

  ghost predicate ElementIs(bytes: seq<bv8>, half: (bv8, bv8) -> real, out: seq<real>, b: nat, e: nat) {
    && b * BLOCK_BYTES + BLOCK_BYTES <= |bytes| && e < BLOCK_ELEMS && b * BLOCK_ELEMS + e < |out|
    && out[b * BLOCK_ELEMS + e] == Value(bytes, half, b * BLOCK_BYTES, e)
  }

  /** The layout of the 12 scale bytes: scale j takes a nibble of byte j%8, the low one for j < 8, and two bits of byte
      8 + j%4, at position 2*(j/4). */
  lemma ScaleInSource(p: seq<bv8>, j: nat)
    requires |p| == 12 && j < 16
    ensures Scales(p)[j]
         == (if j < 8 then p[j % 8] % 16 else p[j % 8] / 16) + 16 * ((p[8 + j % 4] >> (2 * (j / 4))) % 4)
  {
    hide First, Second, Third, Fourth, Scales;
    var i := j % 4;
    ScaleLanes(p, i);
    LaneValues(p[i], p[4 + i], p[8 + i]);
    assert j == i || j == 4 + i || j == 8 + i || j == 12 + i;
  }

  lemma LaneValues(x: bv8, y: bv8, z: bv8)
    ensures First(x, z) == x % 16 + 16 * ((z >> 0) % 4) && Second(y, z) == y % 16 + 16 * ((z >> 2) % 4)
    ensures Third(x, z) == x / 16 + 16 * ((z >> 4) % 4) && Fourth(y, z) == y / 16 + 16 * ((z >> 6) % 4)
  {
  }

  /** An element from the block's bytes: d, the half at byte 108, times the element's scale less 32, times its quant,
      the two bits at position 2*(e%128/32) of byte 32 + e/128*32 + e%32, less 4 unless bit e/32 of byte e%32 is set. */
  lemma ValueInSource(bytes: seq<bv8>, half: (bv8, bv8) -> real, at: nat, e: nat, d: real, scale: int, quant: int)
    requires at + 110 <= |bytes| && e < 256 && d == half(bytes[at + 108], bytes[at + 109])
    requires scale == Scales(bytes[at + 96..at + 108])[e / 16] as int
    requires var q, h := bytes[at + 32 + e / 128 * 32 + e % 32], bytes[at + e % 32];
             quant == ((q >> (2 * (e % 128 / 32))) % 4) as int - (if (h >> (e / 32)) % 2 == 1 then 0 else 4)
    ensures Value(bytes, half, at, e) == d * (scale - 32) as real * quant as real
  {
    hide Quant3, GroupScale, Element, ScaleOf, Value;
    var q, h := bytes[at + 32 + e / 128 * 32 + e % 32], bytes[at + e % 32];
    QuantIs(q, h, e, quant);
    ValueParts(bytes, half, at, e, ScaleOf(bytes[at + 96..at + 108], e / 16), q, h);
    ElementIsProduct(d, ScaleOf(bytes[at + 96..at + 108], e / 16), scale, quant);
  }

  lemma ValueParts(bytes: seq<bv8>, half: (bv8, bv8) -> real, at: nat, e: nat, scale: bv8, q: bv8, h: bv8)
    requires at + 110 <= |bytes| && e < 256 && scale == ScaleOf(bytes[at + 96..at + 108], e / 16)
    requires q == bytes[at + 32 + e / 128 * 32 + e % 32] && h == bytes[at + e % 32]
    ensures e % 128 / 32 * 2 <= 8 && e / 32 <= 8
    ensures Value(bytes, half, at, e) == Element(GroupScale(half(bytes[at + 108], bytes[at + 109]), scale),
                                                 Quant3(q, h, e % 128 / 32 * 2, e / 32))
  {
    hide Quant3, GroupScale, Element, ScaleOf;
    assert at + D_AT == at + 108 && at + SCALES_AT + 12 == at + 108;
  }

  lemma QuantIs(q: bv8, h: bv8, e: nat, quant: int)
    requires e < 256
    requires quant == ((q >> (2 * (e % 128 / 32))) % 4) as int - (if (h >> (e / 32)) % 2 == 1 then 0 else 4)
    ensures Quant3(q, h, e % 128 / 32 * 2, e / 32) == quant
  {
    BitForms(q >> (2 * (e % 128 / 32)), h >> (e / 32));
  }

  lemma ElementIsProduct(d: real, byte: bv8, scale: int, quant: int)
    requires scale == byte as int
    ensures Element(GroupScale(d, byte), quant) == d * (scale - 32) as real * quant as real
  {
  }

  lemma BitForms(q: bv8, h: bv8)
    ensures q & 0x3 == q % 4 && (h & 0x1 != 0 <==> h % 2 == 1)
  {
  }

  /** The inverse packer of the quants, held as codes quant + 4 in 0..7: two low bits into 64 bytes, the high bit into
      32 mask bytes. */
  predicate IsCode(u: bv8) { u < 8 }

  function PackLow(a: bv8, b: bv8, c: bv8, d: bv8): bv8 {
    (a & 0x3) | ((b & 0x3) << 2) | ((c & 0x3) << 4) | ((d & 0x3) << 6)
  }

  function PackMask(a: bv8, b: bv8, c: bv8, d: bv8, e: bv8, f: bv8, g: bv8, h: bv8): bv8 {
    ((a >> 2) & 1) | (((b >> 2) & 1) << 1) | (((c >> 2) & 1) << 2) | (((d >> 2) & 1) << 3)
    | (((e >> 2) & 1) << 4) | (((f >> 2) & 1) << 5) | (((g >> 2) & 1) << 6) | (((h >> 2) & 1) << 7)
  }

  /** Byte i of the low bits holds elements i/32*128 + i%32 and the three 32, 64 and 96 after it. */
  function LowByte(u: seq<bv8>, i: nat): bv8
    requires |u| == 256 && i < 64
  {
    var e := i / 32 * 128 + i % 32;
    PackLow(u[e], u[e + 32], u[e + 64], u[e + 96])
  }

  /** Mask byte l holds elements l, 32 + l, ..., 224 + l. */
  function MaskByte(u: seq<bv8>, l: nat): bv8
    requires |u| == 256 && l < 32
  {
    PackMask(u[l], u[32 + l], u[64 + l], u[96 + l], u[128 + l], u[160 + l], u[192 + l], u[224 + l])
  }

  function PackedQuants(u: seq<bv8>): (p: seq<bv8>)
    requires |u| == 256
    ensures |p| == 96
  {
    seq(96, i requires 0 <= i < 96 => if i < 32 then MaskByte(u, i) else LowByte(u, i - 32))
  }

  lemma LowBits(a: bv8, b: bv8, c: bv8, d: bv8)
    ensures var q := PackLow(a, b, c, d);
            (q >> 0) % 4 == a % 4 && (q >> 2) % 4 == b % 4 && (q >> 4) % 4 == c % 4 && (q >> 6) % 4 == d % 4
  {
  }

  lemma MaskBits(a: bv8, b: bv8, c: bv8, d: bv8, e: bv8, f: bv8, g: bv8, h: bv8)
    requires IsCode(a) && IsCode(b) && IsCode(c) && IsCode(d) && IsCode(e) && IsCode(f) && IsCode(g) && IsCode(h)
    ensures var m := PackMask(a, b, c, d, e, f, g, h);
            && (m >> 0) % 2 == a / 4 && (m >> 1) % 2 == b / 4 && (m >> 2) % 2 == c / 4 && (m >> 3) % 2 == d / 4
            && (m >> 4) % 2 == e / 4 && (m >> 5) % 2 == f / 4 && (m >> 6) % 2 == g / 4 && (m >> 7) % 2 == h / 4
  {
  }

  /** A code from its two stored parts, as the quant it stands for. */
  lemma CodeQuant(u: bv8)
    requires IsCode(u)
    ensures (u % 4) as int - (if u / 4 == 1 then 0 else 4) == u as int - 4
  {
    assert u == 0 || u == 1 || u == 2 || u == 3 || u == 4 || u == 5 || u == 6 || u == 7;
  }

  /** The two stored parts of element e. */
  lemma PackedLow(u: seq<bv8>, e: nat)
    requires |u| == 256 && e < 256
    ensures (PackedQuants(u)[32 + e / 128 * 32 + e % 32] >> (2 * (e % 128 / 32))) % 4 == u[e] % 4
  {
    hide LowByte, MaskByte, PackLow;
    var h, j, l := e / 128, e % 128 / 32, e % 32;
    ByteOfElement(e);
    LowByteAt(u, h, l);
    assert PackedQuants(u)[32 + h * 32 + l] == LowByte(u, h * 32 + l);
    LowShift(u[h * 128 + l], u[h * 128 + l + 32], u[h * 128 + l + 64], u[h * 128 + l + 96], j, u[e]);
  }

  lemma LowByteAt(u: seq<bv8>, h: nat, l: nat)
    requires |u| == 256 && h < 2 && l < 32
    ensures LowByte(u, h * 32 + l)
         == PackLow(u[h * 128 + l], u[h * 128 + l + 32], u[h * 128 + l + 64], u[h * 128 + l + 96])
  {
    hide PackLow;
  }

  lemma LowShift(a: bv8, b: bv8, c: bv8, d: bv8, j: nat, x: bv8)
    requires j < 4 && x == (if j == 0 then a else if j == 1 then b else if j == 2 then c else d)
    ensures (PackLow(a, b, c, d) >> (2 * j)) % 4 == x % 4
  {
    hide PackLow;
    LowBits(a, b, c, d);
  }

  lemma ByteOfElement(e: nat)
    requires e < 256
    ensures var i := e / 128 * 32 + e % 32; i < 64 && i / 32 == e / 128 && i % 32 == e % 32
    ensures e == e / 128 * 128 + 32 * (e % 128 / 32) + e % 32 && e % 128 / 32 < 4
  {
  }

  lemma PackedMask(u: seq<bv8>, e: nat)
    requires |u| == 256 && e < 256 && forall k | 0 <= k < 256 :: u[k] < 8
    ensures (PackedQuants(u)[e % 32] >> (e / 32)) % 2 == u[e] / 4
  {
    hide PackMask, LowByte, IsCode;
    var l, m := e % 32, e / 32;
    MaskBits(u[l], u[32 + l], u[64 + l], u[96 + l], u[128 + l], u[160 + l], u[192 + l], u[224 + l]);
    assert PackedQuants(u)[l] == MaskByte(u, l);
    assert m == 0 || m == 1 || m == 2 || m == 3 || m == 4 || m == 5 || m == 6 || m == 7;
  }

  /** Block `at` is assembled from 256 quant codes, 16 scales and the two bytes of d. */
  ghost predicate BlockAssembled(bytes: seq<bv8>, at: nat, u: seq<bv8>, sc: seq<bv8>, d: (bv8, bv8))
    requires |u| == 256 && |sc| == 16
  {
    at + 110 <= |bytes| && bytes[at..at + 110] == PackedQuants(u) + PackScales(sc) + [d.0, d.1]
  }

  /** Every element of an assembled block, in any place of a row, is d * (scale - 32) * quant. */
  lemma ValueOfPacked(bytes: seq<bv8>, half: (bv8, bv8) -> real, at: nat, u: seq<bv8>, sc: seq<bv8>, d: (bv8, bv8),
                      e: nat, dv: real, scale: int, quant: int)
    requires |u| == 256 && forall k | 0 <= k < 256 :: u[k] < 8
    requires |sc| == 16 && forall j | 0 <= j < 16 :: IsSix(sc[j])
    requires BlockAssembled(bytes, at, u, sc, d) && e < 256
    requires dv == half(d.0, d.1) && scale == sc[e / 16] as int && quant == u[e] as int - 4
    ensures Value(bytes, half, at, e) == dv * (scale - 32) as real * quant as real
  {
    hide *;
    BlockBytes(bytes, at, u, sc, d);
    UnpackOfPack(sc);
    PackedCode(bytes, at, u, e);
    ValueInSource(bytes, half, at, e, dv, scale, quant);
  }

  /** The quant an assembled block stores for element e. */
  lemma PackedCode(bytes: seq<bv8>, at: nat, u: seq<bv8>, e: nat)
    requires |u| == 256 && forall k | 0 <= k < 256 :: u[k] < 8
    requires at + 110 <= |bytes| && (forall i | 0 <= i < 96 :: bytes[at + i] == PackedQuants(u)[i]) && e < 256
    ensures var q, h := bytes[at + 32 + e / 128 * 32 + e % 32], bytes[at + e % 32];
            u[e] as int - 4 == ((q >> (2 * (e % 128 / 32))) % 4) as int - (if (h >> (e / 32)) % 2 == 1 then 0 else 4)
  {
    hide PackedQuants;
    ByteOfElement(e);
    var i, l := 32 + e / 128 * 32 + e % 32, e % 32;
    assert bytes[at + i] == PackedQuants(u)[i] && bytes[at + l] == PackedQuants(u)[l];
    PackedLow(u, e);
    PackedMask(u, e);
    CodeParts(u[e], bytes[at + i] >> (2 * (e % 128 / 32)), bytes[at + l] >> (e / 32));
  }

  lemma CodeParts(u: bv8, low: bv8, high: bv8)
    requires IsCode(u) && low % 4 == u % 4 && high % 2 == u / 4
    ensures u as int - 4 == (low % 4) as int - (if high % 2 == 1 then 0 else 4)
  {
    CodeQuant(u);
  }

  lemma BlockBytes(bytes: seq<bv8>, at: nat, u: seq<bv8>, sc: seq<bv8>, d: (bv8, bv8))
    requires |u| == 256 && |sc| == 16 && BlockAssembled(bytes, at, u, sc, d)
    ensures at + 110 <= |bytes| && forall i | 0 <= i < 96 :: bytes[at + i] == PackedQuants(u)[i]
    ensures bytes[at + 96..at + 108] == PackScales(sc)
    ensures bytes[at + 108] == d.0 && bytes[at + 109] == d.1
  {
    hide PackedQuants, PackScales;
    var block := PackedQuants(u) + PackScales(sc) + [d.0, d.1];
    forall i | 0 <= i < 110 ensures bytes[at + i] == block[i] { assert bytes[at..at + 110][i] == block[i]; }
    forall i | 0 <= i < 12 ensures bytes[at + 96 + i] == PackScales(sc)[i] {
      assert block[96 + i] == PackScales(sc)[i];
    }
  }

  /** What the row loop leaves for an assembled block b. */
  lemma RowOfPacked(bytes: seq<bv8>, half: (bv8, bv8) -> real, out: seq<real>, b: nat, u: seq<bv8>, sc: seq<bv8>,
                    d: (bv8, bv8), e: nat, dv: real, scale: int, quant: int)
    requires |u| == 256 && forall k | 0 <= k < 256 :: u[k] < 8
    requires |sc| == 16 && forall j | 0 <= j < 16 :: IsSix(sc[j])
    requires BlockAssembled(bytes, b * 110, u, sc, d) && e < 256 && ElementIs(bytes, half, out, b, e)
    requires dv == half(d.0, d.1) && scale == sc[e / 16] as int && quant == u[e] as int - 4
    ensures b * 256 + e < |out| && out[b * 256 + e] == dv * (scale - 32) as real * quant as real
  {
    hide IsSix, Value, BlockAssembled;
    ValueOfPacked(bytes, half, b * 110, u, sc, d, e, dv, scale, quant);
  }
}
