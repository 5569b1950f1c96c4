/** Dynamic int8 quantisation of activations (xQuantI8CpuRef) and the int8 dot product against native
    Q8_0 weights (dp4aCpuRef), with the error of the composition. */
module Int8Matmul {
  import opened Sums
  import opened Buffers
  import opened Rounding

  newtype Int8 = x: int | -128 <= x < 128
  newtype Byte = x: int | 0 <= x < 256

  const BLOCK_ELEMS: nat := 32
  const BLOCK_BYTES: nat := 34

  /** Quant (r,j) of a flat int8 matrix. */
  function Quant(y: seq<Int8>, w: int, r: int, j: int): int { if 0 <= r * w + j < |y| then y[r * w + j] as int else 0 }

  /** Row m of the quantised matrix with its scale. */
  ghost predicate RowQuantised(x: seq<real>, K: nat, m: nat, y: seq<Int8>, scales: seq<real>) {
    m < |scales| && exists amax :: QuantisedBy(x, K, m, y, scales[m], amax)
  }

  ghost predicate QuantisedBy(x: seq<real>, K: nat, m: nat, y: seq<Int8>, scale: real, amax: real) {
    && IsAbsMax(Row(x, K, m), K, amax) && scale == Scale(amax)
    && forall k | 0 <= k < K :: Quant(y, K, m, k) == Quantise(Cell(x, K, m, k), amax)
  }

  method AbsMax(x: seq<real>, K: nat, m: nat) returns (amax: real)
    requires HasRow(|x|, K, m)
    ensures IsAbsMax(Row(x, K, m), K, amax)
  {
    hide Cell;
    amax := 0.0;
    for k := 0 to K
      invariant IsAbsMax(Row(x, K, m), k, amax)
    {
      var a := Abs(At(x, K, m, k));
      assert a == Abs(Row(x, K, m)(k));
      amax := if a > amax then a else amax;
    }
  }

  method QuantiseRow(x: seq<real>, K: nat, m: nat, amax: real, y: array<Int8>)
    requires HasRow(|x|, K, m) && HasRow(y.Length, K, m) && IsAbsMax(Row(x, K, m), K, amax)
    modifies y
    ensures forall k | 0 <= k < K :: Quant(y[..], K, m, k) == Quantise(Cell(x, K, m, k), amax)
    ensures forall m', k | m' != m && 0 <= k < K :: Quant(y[..], K, m', k) == Quant(old(y[..]), K, m', k)
  {
    hide Quantise;
    var base := m * K;
    for k := 0 to K
      invariant forall p | base <= p < base + k :: y[p] as int == Quantise(x[p], amax)
      invariant forall p | 0 <= p < y.Length && !(base <= p < base + k) :: y[p] == old(y[p])
    {
      assert Abs(Row(x, K, m)(k)) <= amax;
      y[base + k] := ToInt8(x[base + k], amax);
    }
    forall m', k | m' != m && 0 <= k < K ensures Quant(y[..], K, m', k) == Quant(old(y[..]), K, m', k) {
      RowsApartFrom(m, m', K, k);
    }
  }

  /** The cast to int8 never overflows. */
  function ToInt8(x: real, amax: real): (q: Int8)
    requires amax >= 0.0 && Abs(x) <= amax
    ensures q as int == Quantise(x, amax)
  {
    ClampIdle(x, amax);
    Quantise(x, amax) as Int8
  }

  lemma RowsApartFrom(m: nat, m': int, K: nat, k: nat)
    requires m' != m && k < K
    ensures !(m * K <= m' * K + k < m * K + K)
  {
    if m < m' { RowOrder(m, m', K); } else { RowOrder(m', m, K); }
  }

  method XQuantI8CpuRef(x: seq<real>, yQuants: array<Int8>, scales: array<real>, M: nat, K: nat)
    requires |x| == yQuants.Length == M * K && scales.Length == M
    modifies yQuants, scales
    ensures forall m | 0 <= m < M :: RowQuantised(x, K, m, yQuants[..], scales[..])
  {
    hide Quantise, Cell, Quant, Scale;
    for m := 0 to M
      invariant forall m' | 0 <= m' < m :: RowQuantised(x, K, m', yQuants[..], scales[..])
    {
      RowBound(m, M, K);
      var amax := AbsMax(x, K, m);
      ghost var y0, s0 := yQuants[..], scales[..];
      scales[m] := Scale(amax);
      QuantiseRow(x, K, m, amax, yQuants);
      assert QuantisedBy(x, K, m, yQuants[..], scales[m], amax);
      forall m' | 0 <= m' < m ensures RowQuantised(x, K, m', yQuants[..], scales[..]) {
        assert RowQuantised(x, K, m', y0, s0);
        RowKept(x, K, m', y0, yQuants[..], s0, scales[..]);
      }
    }
  }

  lemma RowKept(x: seq<real>, K: nat, m: nat, y0: seq<Int8>, y1: seq<Int8>, s0: seq<real>, s1: seq<real>)
    requires RowQuantised(x, K, m, y0, s0) && |s1| == |s0| && s1[m] == s0[m]
    requires forall k | 0 <= k < K :: Quant(y1, K, m, k) == Quant(y0, K, m, k)
    ensures RowQuantised(x, K, m, y1, s1)
  {
    hide Quantise, Cell, Quant, Scale;
    var amax :| QuantisedBy(x, K, m, y0, s0[m], amax);
    assert QuantisedBy(x, K, m, y1, s1[m], amax);
  }

  function ByteAt(w: seq<Byte>, p: int): Byte { if 0 <= p < |w| then w[p] else 0 }

  /** A byte read as a signed char. */
  function Signed(b: Byte): int { if b < 128 then b as int else b as int - 256 }

  /** Element k of a native Q8_0 row: block k/32, fp16 header, quant 2 + k%32. */
  function DequantElemNative(w: seq<Byte>, half: (Byte, Byte) -> real, base: nat, k: nat): real {
    var blk := base + k / BLOCK_ELEMS * BLOCK_BYTES;
    half(ByteAt(w, blk), ByteAt(w, blk + 1)) * Signed(ByteAt(w, blk + 2 + k % BLOCK_ELEMS)) as real
  }

  /** Weight row n as a vector. */
  function WeightRow(w: seq<Byte>, half: (Byte, Byte) -> real, nBlocks: nat, n: nat): int -> real {
    k => if k < 0 then 0.0 else DequantElemNative(w, half, n * (nBlocks * BLOCK_BYTES), k)
  }

  /** Dequantised activations. */
  function Dequantised(xq: seq<Int8>, xScale: real): int -> real {
    k => if 0 <= k < |xq| then xq[k] as int as real * xScale else 0.0
  }

  method Dp4aCpuRef(xq: seq<Int8>, xScale: real, w: seq<Byte>, half: (Byte, Byte) -> real, nBlocks: nat, y: array<real>,
                    N: nat, K: nat)
    requires |xq| == K && K <= nBlocks * BLOCK_ELEMS && |w| == N * (nBlocks * BLOCK_BYTES) && y.Length == N
    modifies y
    ensures forall n | 0 <= n < N :: y[n] == Dot(0, K, Dequantised(xq, xScale), WeightRow(w, half, nBlocks, n))
  {
    hide DequantElemNative;
    for n := 0 to N
      invariant forall n' | 0 <= n' < n :: y[n'] == Dot(0, K, Dequantised(xq, xScale), WeightRow(w, half, nBlocks, n'))
    {
      var acc := 0.0;
      for k := 0 to K
        invariant acc == Dot(0, k, Dequantised(xq, xScale), WeightRow(w, half, nBlocks, n))
      {
        var wVal := DequantElemNative(w, half, n * (nBlocks * BLOCK_BYTES), k);
        var xVal := xq[k] as int as real * xScale;
        acc := acc + xVal * wVal;
      }
      y[n] := acc;
    }
  }

  function Magnitudes(f: int -> real): int -> real { i => Abs(f(i)) }

  lemma MagnitudeIs(f: int -> real, i: int)
    ensures Magnitudes(f)(i) == if f(i) < 0.0 then -f(i) else f(i)
  {
  }

  /** Replacing each factor by one within e moves the dot product by at most e * sum |w|. */
  lemma {:induction false} DotPerturbed(n: nat, f: int -> real, g: int -> real, w: int -> real, e: real)
    requires e >= 0.0 && forall k | 0 <= k < n :: Abs(f(k) - g(k)) <= e
    ensures Abs(Dot(0, n, f, w) - Dot(0, n, g, w)) <= e * Dot(0, n, Magnitudes(w), One())
  {
    hide Dot, Abs, Term;
    if n == 0 {
      DotPeel(0, 0, f, w);
      DotPeel(0, 0, g, w);
      DotPeel(0, 0, Magnitudes(w), One());
      AbsZero(e);
    } else {
      DotPerturbed(n - 1, f, g, w, e);
      PeelTerm(0, n - 1, f, w);
      PeelTerm(0, n - 1, g, w);
      PeelTerm(0, n - 1, Magnitudes(w), One());
      PerturbStep(Dot(0, n - 1, f, w), Dot(0, n - 1, g, w), Dot(0, n - 1, Magnitudes(w), One()), f(n - 1), g(n - 1),
          w(n - 1), e,
                  Dot(0, n, f, w), Dot(0, n, g, w), Dot(0, n, Magnitudes(w), One()));
    }
  }

  lemma AbsZero(e: real)
    ensures Abs(0.0 - 0.0) <= e * 0.0
  {
  }

  lemma PerturbStep(a: real, b: real, s: real, f: real, g: real, w: real, e: real, a': real, b': real, s': real)
    requires Abs(a - b) <= e * s && Abs(f - g) <= e
    requires a' == a + Term(f, w) && b' == b + Term(g, w) && s' == s + Term(Abs(w), 1.0)
    ensures Abs(a' - b') <= e * s'
  {
    TermBound(f - g, w, e);
    assert (f - g) * w == f * w - g * w;
    assert e * s' == e * s + e * Abs(w);
  }

  lemma TermBound(d: real, w: real, e: real)
    requires Abs(d) <= e
    ensures Abs(d * w) <= e * Abs(w)
  {
    ProductSign(e - d, Abs(w));
    ProductSign(e + d, Abs(w));
    assert d * w == d * Abs(w) || d * w == -(d * Abs(w));
  }

  /** The int8 operand the product reads is row m of the quantised matrix. */
  ghost predicate IsRow(xq: seq<Int8>, K: nat, m: nat, y: seq<Int8>) {
    |xq| == K && forall k | 0 <= k < K :: xq[k] as int == Quant(y, K, m, k)
  }

  /** Quantise a row, then multiply: within (scale/2) * sum |W[n,k]| of the exact product. */
  lemma QuantisedMatmulError(x: seq<real>, K: nat, m: nat, y: seq<Int8>, scales: seq<real>, xq: seq<Int8>,
                             w: int -> real)
    requires RowQuantised(x, K, m, y, scales) && IsRow(xq, K, m, y)
    ensures scales[m] >= 0.0
    ensures Abs(Dot(0, K, Dequantised(xq, scales[m]), w) - Dot(0, K, Row(x, K, m), w))
         <= scales[m] / 2.0 * Dot(0, K, Magnitudes(w), One())
  {
    hide Quantise, Dot, Cell, Quant, Abs;
    var amax :| QuantisedBy(x, K, m, y, scales[m], amax);
    var s := scales[m];
    forall k | 0 <= k < K ensures Abs(Dequantised(xq, s)(k) - Row(x, K, m)(k)) <= s / 2.0 {
      ElementNear(x, K, m, y, s, amax, k);
      assert Dequantised(xq, s)(k) - Row(x, K, m)(k) == Quant(y, K, m, k) as real * s - Row(x, K, m)(k);
    }
    DotPerturbed(K, Dequantised(xq, s), Row(x, K, m), w, s / 2.0);
  }

  /** y is within (s/2) * sum |w| of the exact product of row m with w. */
  ghost predicate ProductNear(x: seq<real>, K: nat, m: nat, s: real, w: int -> real, y: real) {
    Abs(y - Dot(0, K, Row(x, K, m), w)) <= s / 2.0 * Dot(0, K, Magnitudes(w), One())
  }

  ghost predicate RowNear(x: seq<real>, K: nat, m: nat, s: real, w: seq<Byte>, half: (Byte, Byte) -> real, nBlocks: nat,
                          y: seq<real>)
  {
    forall n | 0 <= n < |y| :: ProductNear(x, K, m, s, WeightRow(w, half, nBlocks, n), y[n])
  }

  /** The two loops composed: quantise every activation row, multiply each with the Q8_0 weights. The
      scale in the bound is the 127th part of the row's own greatest magnitude. */
  method QuantiseAndMultiply(x: seq<real>, w: seq<Byte>, half: (Byte, Byte) -> real, nBlocks: nat, M: nat, N: nat,
                             K: nat)
    returns (ys: seq<seq<real>>, quants: seq<Int8>, scales: seq<real>)
    requires |x| == M * K && K <= nBlocks * BLOCK_ELEMS && |w| == N * (nBlocks * BLOCK_BYTES)
    ensures |ys| == |scales| == M && |quants| == M * K
    ensures forall m | 0 <= m < M :: RowQuantised(x, K, m, quants, scales) && RowScale(x, K, m, scales[m])
    ensures forall m | 0 <= m < M :: |ys[m]| == N && RowNear(x, K, m, scales[m], w, half, nBlocks, ys[m])
  {
    hide RowQuantised, RowScale, Dot, WeightRow, Dequantised, ProductNear;
    var yQuants, scale := new Int8[M * K], new real[M];
    XQuantI8CpuRef(x, yQuants, scale, M, K);
    quants, ys, scales := yQuants[..], [], scale[..];
    for m := 0 to M
      invariant |ys| == m
      invariant forall i | 0 <= i < m :: RowScale(x, K, i, scales[i])
      invariant forall i | 0 <= i < m :: |ys[i]| == N && RowNear(x, K, i, scales[i], w, half, nBlocks, ys[i])
    {
      RowBound(m, M, K);
      var xq, y := quants[m * K..m * K + K], new real[N];
      Dp4aCpuRef(xq, scales[m], w, half, nBlocks, y, N, K);
      RowRead(xq, K, m, quants);
      ScaleOfRow(x, K, m, quants, scales);
      forall n | 0 <= n < N ensures ProductNear(x, K, m, scales[m], WeightRow(w, half, nBlocks, n), y[n]) {
        ProductIsNear(x, K, m, quants, scales, xq, WeightRow(w, half, nBlocks, n), y[n]);
      }
      ys := ys + [y[..]];
    }
  }

  /** s is the 127th part of the greatest magnitude of row m. */
  ghost predicate RowScale(x: seq<real>, K: nat, m: nat, s: real) {
    exists amax :: IsAbsMax(Row(x, K, m), K, amax) && s == Scale(amax)
  }

  lemma ScaleOfRow(x: seq<real>, K: nat, m: nat, y: seq<Int8>, scales: seq<real>)
    requires RowQuantised(x, K, m, y, scales)
    ensures RowScale(x, K, m, scales[m])
  {
    hide IsAbsMax, Quantise, Quant, Scale;
    var amax :| QuantisedBy(x, K, m, y, scales[m], amax);
    assert IsAbsMax(Row(x, K, m), K, amax);
  }

  lemma RowRead(xq: seq<Int8>, K: nat, m: nat, y: seq<Int8>)
    requires m * K + K <= |y| && 0 <= m * K && xq == y[m * K..m * K + K]
    ensures IsRow(xq, K, m, y)
  {
  }

  lemma ProductIsNear(x: seq<real>, K: nat, m: nat, y: seq<Int8>, scales: seq<real>, xq: seq<Int8>, w: int -> real,
                      product: real)
    requires RowQuantised(x, K, m, y, scales) && IsRow(xq, K, m, y)
             && product == Dot(0, K, Dequantised(xq, scales[m]), w)
    ensures ProductNear(x, K, m, scales[m], w, product)
  {
    hide RowQuantised, Dot, Abs;
    QuantisedMatmulError(x, K, m, y, scales, xq, w);
  }

  lemma ElementNear(x: seq<real>, K: nat, m: nat, y: seq<Int8>, s: real, amax: real, k: nat)
    requires QuantisedBy(x, K, m, y, s, amax) && k < K
    ensures Abs(Quant(y, K, m, k) as real * s - Row(x, K, m)(k)) <= s / 2.0
  {
    hide Quantise, Cell, Quant, Scale;
    assert Abs(Row(x, K, m)(k)) <= amax;
    QuantiseNear(Cell(x, K, m, k), amax);
    assert Quant(y, K, m, k) == Quantise(Cell(x, K, m, k), amax);
  }

  /** The all-zero row is exact. */
  lemma ZeroRowExact(x: seq<real>, K: nat, m: nat, y: seq<Int8>, scales: seq<real>, xq: seq<Int8>, w: int -> real)
    requires RowQuantised(x, K, m, y, scales) && IsRow(xq, K, m, y) && forall k | 0 <= k < K :: Cell(x, K, m, k) == 0.0
    ensures scales[m] == 0.0 && Dot(0, K, Dequantised(xq, scales[m]), w) == 0.0 == Dot(0, K, Row(x, K, m), w)
  {
    hide Quantise, Dot, Cell, Quant;
    var amax :| QuantisedBy(x, K, m, y, scales[m], amax);
    assert forall k | 0 <= k < K :: Row(x, K, m)(k) == 0.0;
    AbsMaxUnique(Row(x, K, m), K, amax, 0.0);
    forall k | 0 <= k < K ensures Dequantised(xq, scales[m])(k) == 0.0 { }
    DotZero(0, K, Dequantised(xq, scales[m]), w);
    DotZero(0, K, Row(x, K, m), w);
  }

  /** A quantised row from the operands: its scale times 127 is the greatest magnitude of the row, and each quant is the
      integer nearest to the element times 127/amax, ties away from zero. */
  lemma RowInSource(x: seq<real>, K: nat, m: nat, y: seq<Int8>, scales: seq<real>, k: nat) returns (amax: real, z: real)
    requires RowQuantised(x, K, m, y, scales) && k < K
    ensures amax == scales[m] * 127.0 >= 0.0 && forall i | 0 <= i < K :: -amax <= Row(x, K, m)(i) <= amax
    ensures amax == 0.0 || exists i :: 0 <= i < K && (Row(x, K, m)(i) == amax || Row(x, K, m)(i) == -amax)
    ensures amax == 0.0 ==> Quant(y, K, m, k) == 0
    ensures amax > 0.0 ==>
              var d := Quant(y, K, m, k) as real - z;
              z == Cell(x, K, m, k) * (127.0 / amax) && -0.5 <= d <= 0.5
              && (d == 0.5 ==> z > 0.0) && (d == -0.5 ==> z < 0.0)
  {
    hide Quantise, Quant, Cell, Scale, IsAbsMax;
    amax :| QuantisedBy(x, K, m, y, scales[m], amax);
    AbsMaxInSource(Row(x, K, m), K, amax);
    z := if amax > 0.0 then Cell(x, K, m, k) * (127.0 / amax) else 0.0;
    assert Row(x, K, m)(k) == Cell(x, K, m, k);
    QuantInSource(Cell(x, K, m, k), amax, Quant(y, K, m, k), z);
  }

  /** The product's operands: the dequantised activation k, and the weight from the 34-byte block k/32 of row n, the
      half of its two header bytes times byte 2 + k%32 read as a signed number. */
  lemma OperandsInSource(xq: seq<Int8>, xScale: real, w: seq<Byte>, half: (Byte, Byte) -> real, nBlocks: nat, n: nat,
                         k: nat, p: nat, scale: real, quant: int)
    requires k < |xq| && p == n * (nBlocks * 34) + k / 32 * 34 && p + 34 <= |w|
    requires scale == half(w[p], w[p + 1])
    requires -128 <= quant < 128 && (quant - w[p + 2 + k % 32] as int) % 256 == 0
    ensures Dequantised(xq, xScale)(k) == xq[k] as int as real * xScale
    ensures WeightRow(w, half, nBlocks, n)(k) == scale * quant as real
  {
    SignedInSource(w[p + 2 + k % 32], quant);
    hide Signed;
    assert n * (nBlocks * BLOCK_BYTES) + k / BLOCK_ELEMS * BLOCK_BYTES == p;
  }

  /** A byte read as a signed char: the number in [-128, 128) congruent to it. */
  lemma SignedInSource(b: Byte, q: int)
    requires -128 <= q < 128 && (q - b as int) % 256 == 0
    ensures Signed(b) == q
  {
  }
}
