/** quantizeRowQ8_0 and the commit of T rows into a Q8_0 key/value cache. */
module Q8Cache {
  import opened Buffers
  import opened Rounding
  import opened Int8Matmul

  /** fp16 conversion, both ways, as the two header bytes. */
  datatype Half = Half(enc: real -> (Byte, Byte), dec: (Byte, Byte) -> real)
  {
    /** The stored value of a scale. */
    function Stored(s: real): real { dec(enc(s).0, enc(s).1) }
  }

  /** Source elements from position `at` on. */
  function From(src: seq<real>, at: int): int -> real { i => if 0 <= at + i < |src| then src[at + i] else 0.0 }

  function AbsMaxOf(x: int -> real, n: nat): (m: real)
    ensures m >= 0.0
  {
    if n == 0 then 0.0 else var m := AbsMaxOf(x, n - 1); var a := Abs(x(n - 1)); if a > m then a else m
  }

  lemma {:induction false} AbsMaxOfIs(x: int -> real, n: nat)
    ensures IsAbsMax(x, n, AbsMaxOf(x, n))
  {
    if n > 0 { AbsMaxOfIs(x, n - 1); }
  }

  function ByteOf(q: int): Byte
    requires -128 <= q < 128
  {
    if q < 0 then (q + 256) as Byte else q as Byte
  }

  /** The byte stored for x in a block of greatest magnitude amax. */
  function EncodeQuant(x: real, amax: real): (b: Byte)
    requires amax >= 0.0 && Abs(x) <= amax
    ensures Signed(b) == Quantise(x, amax) && -127 <= Signed(b) <= 127
  {
    ClampIdle(x, amax);
    ByteOf(Quantise(x, amax))
  }

  function QuantByte(x: int -> real, i: nat): (b: Byte)
    requires i < BLOCK_ELEMS
    ensures Signed(b) == Quantise(x(i), AbsMaxOf(x, BLOCK_ELEMS))
  {
    AbsMaxOfIs(x, BLOCK_ELEMS);
    EncodeQuant(x(i), AbsMaxOf(x, BLOCK_ELEMS))
  }

  /** One 34-byte block: the stored scale, then 32 signed quants. */
  function QuantBlock(x: int -> real, half: Half): (b: seq<Byte>)
    ensures |b| == BLOCK_BYTES
  {
    var s := half.enc(Scale(AbsMaxOf(x, BLOCK_ELEMS)));
    [s.0, s.1] + seq(BLOCK_ELEMS, i requires 0 <= i < BLOCK_ELEMS => QuantByte(x, i))
  }

  /** What a block reads back as. */
  function DequantBlock(b: seq<Byte>, half: Half): int -> real
    requires |b| == BLOCK_BYTES
  {
    i => if 0 <= i < BLOCK_ELEMS then half.dec(b[0], b[1]) * Signed(b[2 + i]) as real else 0.0
  }

  lemma DequantOfQuant(x: int -> real, half: Half, i: nat)
    requires i < BLOCK_ELEMS
    ensures DequantBlock(QuantBlock(x, half), half)(i)
         == half.Stored(Scale(AbsMaxOf(x, BLOCK_ELEMS))) * Quantise(x(i), AbsMaxOf(x, BLOCK_ELEMS)) as real
  {
    hide AbsMaxOf, Quantise, Scale;
  }

  /** Reading back errs by at most half a step plus 127 times the scale's rounding error. */
  lemma BlockError(x: int -> real, half: Half, i: nat)
    requires i < BLOCK_ELEMS
    ensures var s := Scale(AbsMaxOf(x, BLOCK_ELEMS));
            Abs(DequantBlock(QuantBlock(x, half), half)(i) - x(i)) <= s / 2.0 + 127.0 * Abs(half.Stored(s) - s)
  {
    hide AbsMaxOf, Quantise, Scale, QuantBlock, DequantBlock, Round, Clamp, InvScale, Half.Stored, Abs;
    var amax := AbsMaxOf(x, BLOCK_ELEMS);
    AbsMaxOfIs(x, BLOCK_ELEMS);
    DequantOfQuant(x, half, i);
    ValueError(half.Stored(Scale(amax)), amax, x(i), DequantBlock(QuantBlock(x, half), half)(i));
  }

  lemma ValueError(h: real, amax: real, x: real, y: real)
    requires amax >= 0.0 && Abs(x) <= amax && y == h * Quantise(x, amax) as real
    ensures Abs(y - x) <= Scale(amax) / 2.0 + 127.0 * Abs(h - Scale(amax))
  {
    hide Quantise, Scale, Round, Clamp, InvScale;
    ClampIdle(x, amax);
    QuantiseNear(x, amax);
    ErrorStep(h, Scale(amax), Quantise(x, amax), x, y);
  }

  lemma ErrorStep(h: real, s: real, q: int, x: real, y: real)
    requires -127 <= q <= 127 && Abs(s * q as real - x) <= s / 2.0 && y == h * q as real
    ensures Abs(y - x) <= s / 2.0 + 127.0 * Abs(h - s)
  {
    ErrorParts(s * q as real - x, q as real * (h - s), y - x, q, h - s, s);
  }

  lemma ErrorParts(a: real, b: real, c: real, q: int, e: real, s: real)
    requires c == a + b && Abs(a) <= s / 2.0 && b == q as real * e && -127 <= q <= 127
    ensures Abs(c) <= s / 2.0 + 127.0 * Abs(e)
  {
    TermBound(q as real, e, 127.0);
    Triangle(a, b, c);
  }

  lemma Triangle(a: real, b: real, c: real)
    requires c == a + b
    ensures Abs(c) <= Abs(a) + Abs(b)
  {
  }

  /** |h*q| <= 127 h, with equality at the extremes. */
  lemma StepMagnitude(h: real, q: int, y: real)
    requires h >= 0.0 && -127 <= q <= 127 && y == h * q as real
    ensures Abs(y) <= 127.0 * h && (q == 127 || q == -127 ==> Abs(y) == 127.0 * h)
  {
    ProductSign(127.0 - q as real, h);
    ProductSign(127.0 + q as real, h);
  }

  /** Requantising what was read back: with a half format that keeps its own values, the block is
      reproduced byte for byte exactly when it was all zeros or its scale did not underflow. */
  lemma RequantiseStable(x: int -> real, half: Half)
    requires var s := Scale(AbsMaxOf(x, BLOCK_ELEMS)); half.enc(half.Stored(s)) == half.enc(s) && half.Stored(s) >= 0.0
    ensures QuantBlock(DequantBlock(QuantBlock(x, half), half), half) == QuantBlock(x, half)
       <==> (AbsMaxOf(x, BLOCK_ELEMS) == 0.0 || half.Stored(Scale(AbsMaxOf(x, BLOCK_ELEMS))) > 0.0)
  {
    hide AbsMaxOf, Quantise, Scale, QuantBlock, DequantBlock, Half.Stored;
    var amax := AbsMaxOf(x, BLOCK_ELEMS);
    AbsMaxOfIs(x, BLOCK_ELEMS);
    if amax == 0.0 {
      ZeroBlockStable(x, half);
    } else if half.Stored(Scale(amax)) > 0.0 {
      LiveBlockStable(x, half);
    } else {
      LostBlock(x, half);
    }
  }

  /** Blocks agree when their scales and all their quants do. */
  lemma SameBlock(x: int -> real, y: int -> real, half: Half)
    requires half.enc(Scale(AbsMaxOf(x, BLOCK_ELEMS))) == half.enc(Scale(AbsMaxOf(y, BLOCK_ELEMS)))
    requires forall i | 0 <= i < BLOCK_ELEMS ::
        Quantise(x(i), AbsMaxOf(x, BLOCK_ELEMS)) == Quantise(y(i), AbsMaxOf(y, BLOCK_ELEMS))
    ensures QuantBlock(x, half) == QuantBlock(y, half)
  {
    hide AbsMaxOf, Quantise, Scale;
    forall i | 0 <= i < BLOCK_ELEMS ensures QuantByte(x, i) == QuantByte(y, i) {
      assert Quantise(x(i), AbsMaxOf(x, BLOCK_ELEMS)) == Quantise(y(i), AbsMaxOf(y, BLOCK_ELEMS));
    }
  }

  lemma ZeroBlockStable(x: int -> real, half: Half)
    requires AbsMaxOf(x, BLOCK_ELEMS) == 0.0
    ensures QuantBlock(DequantBlock(QuantBlock(x, half), half), half) == QuantBlock(x, half)
  {
    hide AbsMaxOf, QuantBlock, DequantBlock, Half.Stored;
    var y := DequantBlock(QuantBlock(x, half), half);
    AbsMaxOfIs(x, BLOCK_ELEMS);
    AbsMaxOfIs(y, BLOCK_ELEMS);
    forall i | 0 <= i < BLOCK_ELEMS ensures y(i) == 0.0 && x(i) == 0.0 {
      assert Abs(x(i)) <= 0.0;
      DequantOfQuant(x, half, i);
      ClampIdle(x(i), 0.0);
      RoundInt(0);
    }
    AbsMaxUnique(y, BLOCK_ELEMS, AbsMaxOf(y, BLOCK_ELEMS), 0.0);
    SameBlock(y, x, half);
  }

  /** The read-back block's greatest magnitude is 127 stored steps. */
  lemma ReadBackMax(x: int -> real, half: Half)
    requires AbsMaxOf(x, BLOCK_ELEMS) > 0.0 && half.Stored(Scale(AbsMaxOf(x, BLOCK_ELEMS))) >= 0.0
    ensures AbsMaxOf(DequantBlock(QuantBlock(x, half), half), BLOCK_ELEMS)
            == 127.0 * half.Stored(Scale(AbsMaxOf(x, BLOCK_ELEMS)))
  {
    hide AbsMaxOf, QuantBlock, DequantBlock, Half.Stored, Quantise, Scale, Round, Clamp, InvScale, Abs;
    var amax, y := AbsMaxOf(x, BLOCK_ELEMS), DequantBlock(QuantBlock(x, half), half);
    var h := half.Stored(Scale(amax));
    AbsMaxOfIs(x, BLOCK_ELEMS);
    AbsMaxOfIs(y, BLOCK_ELEMS);
    forall i | 0 <= i < BLOCK_ELEMS ensures Abs(y(i)) <= 127.0 * h {
      DequantOfQuant(x, half, i);
      ClampIdle(x(i), amax);
      StepMagnitude(h, Quantise(x(i), amax), y(i));
    }
    var i :| 0 <= i < BLOCK_ELEMS && Abs(x(i)) == amax;
    DequantOfQuant(x, half, i);
    ExtremeSaturates(x(i), amax);
    StepMagnitude(h, Quantise(x(i), amax), y(i));
    AbsMaxUnique(y, BLOCK_ELEMS, AbsMaxOf(y, BLOCK_ELEMS), 127.0 * h);
  }

  lemma LiveBlockStable(x: int -> real, half: Half)
    requires AbsMaxOf(x, BLOCK_ELEMS) > 0.0
    requires var s := Scale(AbsMaxOf(x, BLOCK_ELEMS)); half.enc(half.Stored(s)) == half.enc(s) && half.Stored(s) > 0.0
    ensures QuantBlock(DequantBlock(QuantBlock(x, half), half), half) == QuantBlock(x, half)
  {
    hide AbsMaxOf, QuantBlock, DequantBlock, Half.Stored, Quantise;
    var amax, y := AbsMaxOf(x, BLOCK_ELEMS), DequantBlock(QuantBlock(x, half), half);
    var h := half.Stored(Scale(amax));
    ReadBackMax(x, half);
    assert Scale(AbsMaxOf(y, BLOCK_ELEMS)) == h;
    AbsMaxOfIs(x, BLOCK_ELEMS);
    forall i | 0 <= i < BLOCK_ELEMS ensures Quantise(y(i), AbsMaxOf(y, BLOCK_ELEMS)) == Quantise(x(i), amax) {
      DequantOfQuant(x, half, i);
      ClampIdle(x(i), amax);
      StepsQuantise(h, Quantise(x(i), amax), y(i), AbsMaxOf(y, BLOCK_ELEMS));
    }
    SameBlock(y, x, half);
  }

  /** A whole number of steps quantises to that number. */
  lemma StepsQuantise(h: real, q: int, y: real, m: real)
    requires h > 0.0 && -127 <= q <= 127 && y == h * q as real && m == 127.0 * h
    ensures Quantise(y, m) == q
  {
    var c := InvScale(m);
    assert c * h == 1.0 by { assert c * m == 127.0; }
    assert y * c == q as real by { assert y * c == (c * h) * q as real; }
    WholeQuantise(y, m, q);
  }

  lemma WholeQuantise(y: real, m: real, q: int)
    requires m >= 0.0 && y * InvScale(m) == q as real && -127 <= q <= 127
    ensures Quantise(y, m) == q
  {
    RoundInt(q);
  }

  /** A positive scale that underflowed to 0 loses the quants. */
  lemma LostBlock(x: int -> real, half: Half)
    requires AbsMaxOf(x, BLOCK_ELEMS) > 0.0 && half.Stored(Scale(AbsMaxOf(x, BLOCK_ELEMS))) == 0.0
    ensures QuantBlock(DequantBlock(QuantBlock(x, half), half), half) != QuantBlock(x, half)
  {
    hide AbsMaxOf, DequantBlock, Half.Stored, Scale;
    var amax, y := AbsMaxOf(x, BLOCK_ELEMS), DequantBlock(QuantBlock(x, half), half);
    AbsMaxOfIs(x, BLOCK_ELEMS);
    ReadBackMax(x, half);
    var i :| 0 <= i < BLOCK_ELEMS && Abs(x(i)) == amax;
    ExtremeSaturates(x(i), amax);
    AbsMaxOfIs(y, BLOCK_ELEMS);
    assert Abs(y(i)) <= 0.0;
    ClampIdle(y(i), 0.0);
    RoundInt(0);
    assert QuantBlock(y, half)[2 + i] == QuantByte(y, i) && QuantBlock(x, half)[2 + i] == QuantByte(x, i);
  }

  /** A block of 32 equal values small enough for the half-precision scale to underflow (a binary16 scale
      below 2^-25 rounds to 0) is such a block. */
  lemma TinyBlockLost(half: Half)
    requires forall s: real | 0.0 <= s < 1.0 / 33554432.0 :: half.Stored(s) == 0.0
    ensures QuantBlock(DequantBlock(QuantBlock(Tiny(), half), half), half) != QuantBlock(Tiny(), half)
  {
    hide AbsMaxOf, QuantBlock, DequantBlock, Half.Stored;
    AbsMaxOfIs(Tiny(), BLOCK_ELEMS);
    assert Abs(Tiny()(0)) == 0.000001;
    AbsMaxUnique(Tiny(), BLOCK_ELEMS, AbsMaxOf(Tiny(), BLOCK_ELEMS), 0.000001);
    LostBlock(Tiny(), half);
  }

  function Tiny(): int -> real { _ => 0.000001 }

  /** Block r of a byte buffer. */
  ghost predicate HoldsBlock(bytes: seq<Byte>, r: int, b: seq<Byte>) {
    0 <= r * BLOCK_BYTES && r * BLOCK_BYTES + BLOCK_BYTES <= |bytes|
        && bytes[r * BLOCK_BYTES..r * BLOCK_BYTES + BLOCK_BYTES] == b
  }

  /** Only bytes of blocks [lo, hi) may differ. */
  ghost predicate OnlyBlocks(s: seq<Byte>, s': seq<Byte>, lo: int, hi: int) {
    |s| == |s'| && forall p | 0 <= p < |s| && !(lo * BLOCK_BYTES <= p < hi * BLOCK_BYTES) :: s'[p] == s[p]
  }

  method BlockAbsMax(src: seq<real>, at: nat) returns (absMax: real)
    requires at + BLOCK_ELEMS <= |src|
    ensures absMax == AbsMaxOf(From(src, at), BLOCK_ELEMS)
  {
    absMax := 0.0;
    for i := 0 to BLOCK_ELEMS
      invariant absMax == AbsMaxOf(From(src, at), i)
    {
      var a := Abs(src[at + i]);
      if a > absMax { absMax := a; }
    }
  }

  /** One block, header then quants. */
  method QuantizeBlock(src: seq<real>, at: nat, dst: array<Byte>, r: nat, half: Half)
    requires at + BLOCK_ELEMS <= |src| && (r + 1) * BLOCK_BYTES <= dst.Length
    modifies dst
    ensures HoldsBlock(dst[..], r, QuantBlock(From(src, at), half)) && OnlyBlocks(old(dst[..]), dst[..], r, r + 1)
  {
    hide Quantise, EncodeQuant, Scale, QuantBlock, AbsMaxOf;
    var base := r * BLOCK_BYTES;
    var absMax := BlockAbsMax(src, at);
    AbsMaxOfIs(From(src, at), BLOCK_ELEMS);
    var header := half.enc(Scale(absMax));
    dst[base] := header.0;
    dst[base + 1] := header.1;
    for i := 0 to BLOCK_ELEMS
      invariant dst[base] == header.0 && dst[base + 1] == header.1
      invariant forall p | base + 2 <= p < base + 2 + i :: dst[p] == QuantByteAt(From(src, at), p - base - 2)
      invariant forall p | 0 <= p < dst.Length && !(base <= p < base + BLOCK_BYTES) :: dst[p] == old(dst[p])
    {
      assert Abs(From(src, at)(i)) <= absMax;
      dst[base + 2 + i] := EncodeQuant(src[at + i], absMax);
      assert dst[base + 2 + i] == QuantByteAt(From(src, at), i);
    }
    BlockWritten(dst[..], base, From(src, at), half, header);
  }

  function QuantByteAt(x: int -> real, i: int): Byte { if 0 <= i < BLOCK_ELEMS then QuantByte(x, i) else 0 }

  lemma BlockWritten(s: seq<Byte>, base: nat, x: int -> real, half: Half, header: (Byte, Byte))
    requires base + BLOCK_BYTES <= |s| && header == half.enc(Scale(AbsMaxOf(x, BLOCK_ELEMS)))
    requires s[base] == header.0 && s[base + 1] == header.1
    requires forall p | base + 2 <= p < base + BLOCK_BYTES :: s[p] == QuantByteAt(x, p - base - 2)
    ensures s[base..base + BLOCK_BYTES] == QuantBlock(x, half)
  {
    hide QuantByte, AbsMaxOf, Scale;
    forall i | 0 <= i < BLOCK_BYTES ensures s[base + i] == QuantBlock(x, half)[i] {
      if i >= 2 { assert s[base + i] == QuantByteAt(x, i - 2); }
    }
  }

  lemma BlocksApart(s: seq<Byte>, s': seq<Byte>, lo: nat, hi: nat, r: nat, b: seq<Byte>)
    requires HoldsBlock(s, r, b) && OnlyBlocks(s, s', lo, hi) && (r < lo || hi <= r)
    ensures HoldsBlock(s', r, b)
  {
    if r < lo { RowOrder(r, lo, BLOCK_BYTES); } else { RowBoundLe(hi, r, BLOCK_BYTES); }
    assert s'[r * BLOCK_BYTES..r * BLOCK_BYTES + BLOCK_BYTES] == s[r * BLOCK_BYTES..r * BLOCK_BYTES + BLOCK_BYTES];
  }

  /** Block first+b holds the quantised b-th group of 32 source elements. */
  ghost predicate GroupHeld(src: seq<real>, at: nat, bytes: seq<Byte>, first: nat, b: nat, half: Half) {
    HoldsBlock(bytes, first + b, QuantBlock(From(src, at + b * BLOCK_ELEMS), half))
  }

  /** The first n blocks of a row that starts at block `first`. */
  ghost predicate RowHolds(src: seq<real>, at: nat, bytes: seq<Byte>, first: nat, n: nat, half: Half) {
    forall b | 0 <= b < n :: GroupHeld(src, at, bytes, first, b, half)
  }

  method QuantizeRowQ8_0(src: seq<real>, at: nat, dst: array<Byte>, first: nat, kvDim: nat, half: Half)
    requires at + kvDim <= |src| && (first + kvDim / BLOCK_ELEMS) * BLOCK_BYTES <= dst.Length
    modifies dst
    ensures RowHolds(src, at, dst[..], first, kvDim / BLOCK_ELEMS, half)
    ensures OnlyBlocks(old(dst[..]), dst[..], first, first + kvDim / BLOCK_ELEMS)
  {
    hide QuantBlock, HoldsBlock;
    var nBlocks := kvDim / BLOCK_ELEMS;
    for b := 0 to nBlocks
      invariant RowHolds(src, at, dst[..], first, b, half) && OnlyBlocks(old(dst[..]), dst[..], first, first + b)
    {
      ghost var before := dst[..];
      QuantizeBlock(src, at + b * BLOCK_ELEMS, dst, first + b, half);
      forall b' | 0 <= b' < b ensures GroupHeld(src, at, dst[..], first, b', half) {
        assert GroupHeld(src, at, before, first, b', half);
        BlocksApart(before, dst[..], first + b, first + b + 1, first + b',
            QuantBlock(From(src, at + b' * BLOCK_ELEMS), half));
      }
    }
  }

  /** Row t of a commit: cache row curLen + t. */
  ghost predicate RowCommitted(src: seq<real>, cache: seq<Byte>, curLen: nat, t: nat, kvDim: nat, half: Half) {
    RowHolds(src, t * kvDim, cache, (curLen + t) * (kvDim / BLOCK_ELEMS), kvDim / BLOCK_ELEMS, half)
  }

  /** Commit T rows at curLen: those rows hold the quantised source, and no other byte changes. */
  method CommitRows(src: seq<real>, T: nat, kvDim: nat, cache: array<Byte>, slots: nat, curLen: nat, half: Half)
    requires |src| == T * kvDim && curLen + T <= slots && cache.Length == slots * (kvDim / BLOCK_ELEMS) * BLOCK_BYTES
    modifies cache
    ensures forall t | 0 <= t < T :: RowCommitted(src, cache[..], curLen, t, kvDim, half)
    ensures OnlyBlocks(old(cache[..]), cache[..], curLen * (kvDim / BLOCK_ELEMS), (curLen + T) * (kvDim / BLOCK_ELEMS))
  {
    hide QuantBlock, HoldsBlock;
    var nBlocks := kvDim / BLOCK_ELEMS;
    for t := 0 to T
      invariant forall t' | 0 <= t' < t :: RowCommitted(src, cache[..], curLen, t', kvDim, half)
      invariant OnlyBlocks(old(cache[..]), cache[..], curLen * nBlocks, (curLen + t) * nBlocks)
    {
      ghost var before := cache[..];
      CommitBounds(T, kvDim, nBlocks, slots, curLen, t);
      QuantizeRowQ8_0(src, t * kvDim, cache, (curLen + t) * nBlocks, kvDim, half);
      forall t' | 0 <= t' < t ensures RowCommitted(src, cache[..], curLen, t', kvDim, half) {
        RowsStay(src, before, cache[..], curLen, t', t, kvDim, half);
      }
    }
  }

  lemma CommitBounds(T: nat, kvDim: nat, nBlocks: nat, slots: nat, curLen: nat, t: nat)
    requires t < T && curLen + T <= slots
    ensures 0 <= t * kvDim && t * kvDim + kvDim <= T * kvDim
    ensures (curLen + t) * nBlocks + nBlocks == (curLen + t + 1) * nBlocks
    ensures curLen * nBlocks <= (curLen + t) * nBlocks
    ensures ((curLen + t) * nBlocks + nBlocks) * BLOCK_BYTES <= slots * nBlocks * BLOCK_BYTES
  {
    RowBound(t, T, kvDim);
    RowBoundLe(curLen, curLen + t, nBlocks);
    RowBoundLe(curLen + t + 1, slots, nBlocks);
    RowBoundLe((curLen + t + 1) * nBlocks, slots * nBlocks, BLOCK_BYTES);
  }

  lemma RowsStay(src: seq<real>, s: seq<Byte>, s': seq<Byte>, curLen: nat, t': nat, t: nat, kvDim: nat, half: Half)
    requires t' < t && RowCommitted(src, s, curLen, t', kvDim, half)
    requires var n := kvDim / BLOCK_ELEMS; OnlyBlocks(s, s', (curLen + t) * n, (curLen + t) * n + n)
    ensures RowCommitted(src, s', curLen, t', kvDim, half)
  {
    hide QuantBlock, HoldsBlock, OnlyBlocks;
    var n := kvDim / BLOCK_ELEMS;
    var at, first := t' * kvDim, (curLen + t') * n;
    RowOrder(curLen + t', curLen + t, n);
    forall b | 0 <= b < n ensures GroupHeld(src, at, s', first, b, half) {
      assert GroupHeld(src, at, s, first, b, half);
      BlocksApart(s, s', (curLen + t) * n, (curLen + t) * n + n, first + b,
          QuantBlock(From(src, at + b * BLOCK_ELEMS), half));
    }
  }

  /** What the native reader gets back from a quantised row. */
  lemma ReadsBack(src: seq<real>, at: nat, bytes: seq<Byte>, first: nat, n: nat, half: Half, k: nat)
    requires RowHolds(src, at, bytes, first, n, half) && k < n * BLOCK_ELEMS && at + n * BLOCK_ELEMS <= |src|
    ensures var block := From(src, at + k / BLOCK_ELEMS * BLOCK_ELEMS);
            && DequantElemNative(bytes, half.dec, first * BLOCK_BYTES, k)
                == DequantBlock(QuantBlock(block, half), half)(k % BLOCK_ELEMS)
            && block(k % BLOCK_ELEMS) == src[at + k]
  {
    hide QuantBlock;
    var b, i := k / BLOCK_ELEMS, k % BLOCK_ELEMS;
    var r := first + b;
    var q := QuantBlock(From(src, at + b * BLOCK_ELEMS), half);
    assert GroupHeld(src, at, bytes, first, b, half);
    assert HoldsBlock(bytes, r, q);
    assert r * BLOCK_BYTES == first * BLOCK_BYTES + b * BLOCK_BYTES;
    var base := r * BLOCK_BYTES;
    assert bytes[base..base + BLOCK_BYTES][0] == bytes[base] && bytes[base..base + BLOCK_BYTES][1] == bytes[base + 1];
    assert bytes[base..base + BLOCK_BYTES][2 + i] == bytes[base + 2 + i];
  }

  /** A committed block from the operands: block b of row t lies at byte ((curLen + t) * kvDim/32 + b) * 34 of the cache
      and holds the header for the 127th part of its group's greatest magnitude, then for each element the signed
      integer nearest to the element times 127 over that magnitude. */
  lemma BlockInSource(src: seq<real>, cache: seq<Byte>, curLen: nat, t: nat, kvDim: nat, half: Half, b: nat, r: nat,
                      p: nat, group: int -> real, i: nat, quant: int) returns (amax: real, z: real)
    requires RowCommitted(src, cache, curLen, t, kvDim, half) && b < kvDim / 32 && i < 32
    requires r == (curLen + t) * (kvDim / 32) + b && p == r * 34
    requires 0 <= t * kvDim && t * kvDim + b * 32 + 32 <= |src|
    requires forall j | 0 <= j < 32 :: group(j) == src[t * kvDim + b * 32 + j]
    ensures p + 34 <= |cache| && amax >= 0.0 && (cache[p], cache[p + 1]) == half.enc(amax / 127.0)
    ensures forall j | 0 <= j < 32 :: -amax <= group(j) <= amax
    ensures amax == 0.0 || exists j :: 0 <= j < 32 && (group(j) == amax || group(j) == -amax)
    ensures -128 <= quant < 128 && (quant - cache[p + 2 + i] as int) % 256 == 0 && amax == 0.0 ==> quant == 0
    ensures -128 <= quant < 128 && (quant - cache[p + 2 + i] as int) % 256 == 0 && amax > 0.0 ==>
              && z == group(i) * (127.0 / amax) && -0.5 <= quant as real - z <= 0.5
              && (quant as real - z == 0.5 ==> z > 0.0) && (quant as real - z == -0.5 ==> z < 0.0)
  {
    hide AbsMaxOf, Quantise, IsAbsMax, QuantBlock, HoldsBlock, Signed, Scale;
    var x := From(src, t * kvDim + b * 32);
    amax := AbsMaxOf(x, BLOCK_ELEMS);
    forall j | 0 <= j < 32 ensures x(j) == group(j) { }
    AbsMaxOfIs(x, BLOCK_ELEMS);
    AbsMaxSame(x, group, amax);
    GroupAt(src, cache, curLen, t, kvDim, half, b, r);
    BlockAt(cache, r, x, half, i);
    z := if amax > 0.0 then group(i) * (127.0 / amax) else 0.0;
    QuantInSource(group(i), amax, Quantise(group(i), amax), z);
    if -128 <= quant < 128 && (quant - cache[p + 2 + i] as int) % 256 == 0 { SignedInSource(cache[p + 2 + i], quant); }
  }

  lemma GroupAt(src: seq<real>, cache: seq<Byte>, curLen: nat, t: nat, kvDim: nat, half: Half, b: nat, r: nat)
    requires RowCommitted(src, cache, curLen, t, kvDim, half) && b < kvDim / 32 && r == (curLen + t) * (kvDim / 32) + b
    requires 0 <= t * kvDim
    ensures HoldsBlock(cache, r, QuantBlock(From(src, t * kvDim + b * 32), half))
  {
    hide QuantBlock, HoldsBlock;
    assert GroupHeld(src, t * kvDim, cache, (curLen + t) * (kvDim / BLOCK_ELEMS), b, half);
  }

  lemma AbsMaxSame(x: int -> real, y: int -> real, amax: real)
    requires IsAbsMax(x, 32, amax) && forall j | 0 <= j < 32 :: x(j) == y(j)
    ensures amax >= 0.0 && forall j | 0 <= j < 32 :: -amax <= y(j) <= amax
    ensures amax == 0.0 || exists j :: 0 <= j < 32 && (y(j) == amax || y(j) == -amax)
  {
    hide IsAbsMax;
    AbsMaxInSource(x, 32, amax);
    if amax > 0.0 {
      var j :| 0 <= j < 32 && (x(j) == amax || x(j) == -amax);
      assert y(j) == amax || y(j) == -amax;
    }
  }

  lemma BlockAt(bytes: seq<Byte>, r: nat, x: int -> real, half: Half, i: nat)
    requires HoldsBlock(bytes, r, QuantBlock(x, half)) && i < 32
    ensures 0 <= r * 34 && r * 34 + 34 <= |bytes|
    ensures (bytes[r * 34], bytes[r * 34 + 1]) == half.enc(AbsMaxOf(x, 32) / 127.0)
    ensures Signed(bytes[r * 34 + 2 + i]) == Quantise(x(i), AbsMaxOf(x, 32))
    ensures Abs(x(i)) <= AbsMaxOf(x, 32)
  {
    hide AbsMaxOf, Quantise, Signed, QuantByte;
    AbsMaxOfIs(x, BLOCK_ELEMS);
    var q := QuantBlock(x, half);
    assert bytes[r * 34..r * 34 + 34] == q;
    assert q[0] == bytes[r * 34] && q[1] == bytes[r * 34 + 1] && q[2 + i] == bytes[r * 34 + 2 + i];
    assert q[2 + i] == QuantByte(x, i);
  }
}
