/** causalConv1dSilu and its rolling state: convolving a stream piece by piece, carrying the last
    K-1 packed rows, is convolving it once. */
module CausalConv {
  import opened Sums
  import opened Buffers
  import opened Exponential
  import opened Cuts

  function Silu(exp: real -> real, x: real): real
    requires IsExp(exp)
  {
    ExpPositive(exp, -x);
    x / (1.0 + exp(-x))
  }

  /** Channel c of the rows under the kernel at time t. */
  function Taps(rows: seq<real>, channels: int, t: int, c: int): int -> real { kk => Cell(rows, channels, t + kk, c) }

  function ConvAt(exp: real -> real, rows: seq<real>, kernel: seq<real>, channels: nat, K: nat, t: int, c: int): real
    requires IsExp(exp)
  {
    Silu(exp, Dot(0, K, Taps(rows, channels, t, c), Row(kernel, K, c)))
  }

  /** Rows 0..n-1 of `out` are the convolution of `rows`. */
  ghost predicate ConvRows(exp: real -> real, rows: seq<real>, kernel: seq<real>, channels: nat, K: nat, out: seq<real>,
                           n: nat)
    requires IsExp(exp)
  {
    |out| == n * channels
    && forall t, c | 0 <= t < n && 0 <= c < channels ::
        Cell(out, channels, t, c) == ConvAt(exp, rows, kernel, channels, K, t, c)
  }

  method TapSum(rows: seq<real>, kernel: seq<real>, channels: nat, K: nat, T: nat, t: nat, c: nat) returns (acc: real)
    requires (T + K - 1) * channels <= |rows| && |kernel| == channels * K && t < T && c < channels
    ensures acc == Dot(0, K, Taps(rows, channels, t, c), Row(kernel, K, c))
  {
    hide Cell;
    acc := 0.0;
    for kk := 0 to K
      invariant acc == Dot(0, kk, Taps(rows, channels, t, c), Row(kernel, K, c))
    {
      RowBound(t + kk, T + K - 1, channels);
      RowBound(c, channels, K);
      acc := acc + At(rows, channels, t + kk, c) * At(kernel, K, c, kk);
    }
  }

  method CausalConv1dSilu(exp: real -> real, convInput: seq<real>, kernel: seq<real>, out: array<real>, T: nat,
                          channels: nat, K: nat)
    requires IsExp(exp) && (T + K - 1) * channels <= |convInput| && |kernel| == channels * K
             && out.Length == T * channels
    modifies out
    ensures ConvRows(exp, convInput, kernel, channels, K, out[..], T)
  {
    hide Cell, ConvAt;
    for t := 0 to T
      invariant forall t', c | 0 <= t' < t && 0 <= c < channels ::
                  Cell(out[..], channels, t', c) == ConvAt(exp, convInput, kernel, channels, K, t', c)
    {
      RowBound(t, T, channels);
      ghost var before := out[..];
      for c := 0 to channels
        invariant OnlyRow(before, out[..], channels, t)
        invariant forall c' | 0 <= c' < c ::
            Cell(out[..], channels, t, c') == ConvAt(exp, convInput, kernel, channels, K, t, c')
      {
        var acc := TapSum(convInput, kernel, channels, K, T, t, c);
        SetCell(out, channels, t, c, Silu(exp, acc));
        ConvValue(exp, convInput, kernel, channels, K, t, c);
      }
    }
  }

  lemma ConvValue(exp: real -> real, rows: seq<real>, kernel: seq<real>, channels: nat, K: nat, t: int, c: int)
    requires IsExp(exp)
    ensures ConvAt(exp, rows, kernel, channels, K, t, c)
            == Silu(exp, Dot(0, K, Taps(rows, channels, t, c), Row(kernel, K, c)))
  {
  }

  /** Rows a .. b-1. */
  function Rows(s: seq<real>, channels: nat, a: nat, b: nat): seq<real>
    requires a <= b && b * channels <= |s|
  {
    RowBoundLe(a, b, channels);
    s[a * channels..b * channels]
  }

  lemma RowsOfRows(s: seq<real>, channels: nat, a: nat, b: nat, c: nat, d: nat)
    requires a <= b && b * channels <= |s| && c <= d <= b - a
    ensures |Rows(s, channels, a, b)| == (b - a) * channels
    ensures d * channels <= (b - a) * channels && (a + d) * channels <= |s|
    ensures Rows(Rows(s, channels, a, b), channels, c, d) == Rows(s, channels, a + c, a + d)
  {
    RowBoundLe(a, b, channels);
    RowBoundLe(d, b - a, channels);
    RowBoundLe(a + d, b, channels);
    RowBoundLe(c, d, channels);
    RowSum(a, c, channels);
    RowSum(a, d, channels);
    RowSum(a, b - a, channels);
    SliceOfSlice(s, a * channels, b * channels, c * channels, d * channels);
  }

  lemma RowSum(a: int, c: int, channels: int)
    ensures a * channels + c * channels == (a + c) * channels
  {
  }

  lemma SliceOfSlice(s: seq<real>, i: nat, j: nat, k: nat, l: nat)
    requires i <= j <= |s| && k <= l <= j - i
    ensures s[i..j][k..l] == s[i + k..i + l]
  {
    assert forall p | 0 <= p < l - k :: s[i..j][k..l][p] == s[i + k + p];
  }

  /** Convolving a window of whole rows is convolving the whole, shifted. */
  lemma WindowConv(exp: real -> real, rows: seq<real>, kernel: seq<real>, channels: nat, K: nat, a: nat, b: nat, t: nat,
                   c: nat)
    requires IsExp(exp) && a <= b && b * channels <= |rows| && a + t + K <= b && c < channels
    ensures ConvAt(exp, Rows(rows, channels, a, b), kernel, channels, K, t, c)
            == ConvAt(exp, rows, kernel, channels, K, a + t, c)
  {
    hide Dot, Rows;
    forall kk | 0 <= kk < K ensures Taps(Rows(rows, channels, a, b), channels, t, c)(kk)
        == Taps(rows, channels, a + t, c)(kk) {
      WindowCell(rows, channels, a, b, t + kk, c);
    }
    DotAgree(0, K, Taps(Rows(rows, channels, a, b), channels, t, c), Taps(rows, channels, a + t, c), Row(kernel, K, c),
        Row(kernel, K, c));
  }

  lemma WindowCell(rows: seq<real>, channels: nat, a: nat, b: nat, r: nat, c: nat)
    requires a <= b && b * channels <= |rows| && a + r < b && c < channels
    ensures Cell(Rows(rows, channels, a, b), channels, r, c) == Cell(rows, channels, a + r, c)
  {
    RowBoundLe(a, b, channels);
    RowBound(a + r, b, channels);
    assert a * channels + r * channels == (a + r) * channels;
  }

  /** One step: pack [tail | new rows], convolve, keep the last K-1 packed rows. */
  method ConvStep(exp: real -> real, tail: seq<real>, part: seq<real>, n: nat, kernel: seq<real>, channels: nat, K: nat)
    returns (out: seq<real>, newTail: seq<real>)
    requires IsExp(exp) && K > 0 && |tail| == (K - 1) * channels && |part| == n * channels && |kernel| == channels * K
    ensures |tail + part| == (n + K - 1) * channels && ConvRows(exp, tail + part, kernel, channels, K, out, n)
    ensures newTail == Rows(tail + part, channels, n, n + K - 1)
  {
    var packed := tail + part;
    assert (K - 1) * channels + n * channels == (n + K - 1) * channels;
    var buffer := new real[n * channels];
    CausalConv1dSilu(exp, packed, kernel, buffer, n, channels, K);
    out, newTail := buffer[..], Rows(packed, channels, n, n + K - 1);
  }

  /** Any partition of T rows, pieces shorter than the tail included: the outputs and the final tail are
      those of one convolution over the initial tail followed by the whole stream. */
  method ConvStream(exp: real -> real, tail0: seq<real>, stream: seq<real>, T: nat, pieces: seq<nat>, kernel: seq<real>,
                    channels: nat, K: nat)
    returns (outs: seq<real>, tail: seq<real>)
    requires IsExp(exp) && K > 0 && |tail0| == (K - 1) * channels && |stream| == T * channels
             && |kernel| == channels * K
    requires Sum(pieces) == T
    ensures ConvRows(exp, tail0 + stream, kernel, channels, K, outs, T)
    ensures |tail0 + stream| == (T + K - 1) * channels && tail == Rows(tail0 + stream, channels, T, T + K - 1)
    ensures 0 <= T * channels <= |tail0 + stream| && tail == (tail0 + stream)[T * channels..]
  {
    hide ConvAt, Cell, Rows;
    ghost var whole := tail0 + stream;
    assert |whole| == (T + K - 1) * channels;
    var done := 0;
    outs, tail := [], tail0;
    FirstTail(tail0, stream, channels, K);
    for i := 0 to |pieces|
      invariant done == Sum(pieces[..i]) <= T && (done + K - 1) * channels <= |whole|
      invariant tail == Rows(whole, channels, done, done + K - 1)
      invariant ConvRows(exp, whole, kernel, channels, K, outs, done)
    {
      SumMonotone(pieces, i + 1);
      assert pieces[..i + 1][..i] == pieces[..i];
      var n := pieces[i];
      PieceBounds(done, n, T, K, channels);
      var part := stream[done * channels..(done + n) * channels];
      Packed(tail0, stream, channels, K, T, done, n);
      var out, newTail := ConvStep(exp, tail, part, n, kernel, channels, K);
      AppendConv(exp, whole, kernel, channels, K, outs, out, done, n);
      outs := outs + out;
      tail := newTail;
      RowsOfRows(whole, channels, done, done + n + K - 1, n, n + K - 1);
      done := done + n;
    }
    assert pieces[..|pieces|] == pieces;
    LastRows(whole, channels, T, T + K - 1);
  }

  /** Rows a .. b-1 of b rows, by position. */
  lemma LastRows(s: seq<real>, channels: nat, a: nat, b: nat)
    requires a <= b && |s| == b * channels
    ensures 0 <= a * channels <= |s| && Rows(s, channels, a, b) == s[a * channels..]
  {
    RowBoundLe(a, b, channels);
  }

  lemma PieceBounds(done: nat, n: nat, T: nat, K: nat, channels: nat)
    requires done + n <= T && K > 0
    ensures 0 <= done * channels <= (done + n) * channels <= T * channels
    ensures (done + n) * channels - done * channels == n * channels
    ensures (done + n + K - 1) * channels <= (T + K - 1) * channels
    ensures (done + K - 1) * channels - done * channels == (K - 1) * channels
  {
    RowBoundLe(done, done + n, channels);
    RowBoundLe(done + n, T, channels);
    RowBoundLe(done + n + K - 1, T + K - 1, channels);
  }

  lemma FirstTail(tail0: seq<real>, stream: seq<real>, channels: nat, K: nat)
    requires K > 0 && |tail0| == (K - 1) * channels
    ensures Rows(tail0 + stream, channels, 0, K - 1) == tail0
  {
  }

  /** The carried tail followed by the next rows is a window of the whole. */
  lemma Packed(tail0: seq<real>, stream: seq<real>, channels: nat, K: nat, T: nat, done: nat, n: nat)
    requires K > 0 && |tail0| == (K - 1) * channels && |stream| == T * channels && done + n <= T
    ensures 0 <= done * channels <= (done + n) * channels <= |stream|
    ensures (done + n + K - 1) * channels <= |tail0 + stream| && (done + K - 1) * channels <= |tail0 + stream|
    ensures Rows(tail0 + stream, channels, done, done + K - 1) + stream[done * channels..(done + n) * channels]
         == Rows(tail0 + stream, channels, done, done + n + K - 1)
    ensures |Rows(tail0 + stream, channels, done, done + K - 1)| == (K - 1) * channels
  {
    PieceBounds(done, n, T, K, channels);
    var whole := tail0 + stream;
    assert |whole| == (T + K - 1) * channels;
    RowBoundLe(done + K - 1, done + n + K - 1, channels);
    assert (done + K - 1) * channels == done * channels + (K - 1) * channels;
    assert (done + n + K - 1) * channels == (done + n) * channels + (K - 1) * channels;
    assert stream[done * channels..(done + n) * channels]
        == whole[(done + K - 1) * channels..(done + n + K - 1) * channels];
  }

  lemma AppendConv(exp: real -> real, whole: seq<real>, kernel: seq<real>, channels: nat, K: nat, outs: seq<real>,
                   out: seq<real>, done: nat, n: nat)
    requires IsExp(exp) && K > 0 && (done + n + K - 1) * channels <= |whole|
    requires ConvRows(exp, whole, kernel, channels, K, outs, done)
    requires ConvRows(exp, Rows(whole, channels, done, done + n + K - 1), kernel, channels, K, out, n)
    ensures ConvRows(exp, whole, kernel, channels, K, outs + out, done + n)
  {
    hide ConvAt, Rows;
    assert done * channels + n * channels == (done + n) * channels;
    forall t, c | 0 <= t < done + n && 0 <= c < channels
      ensures Cell(outs + out, channels, t, c) == ConvAt(exp, whole, kernel, channels, K, t, c)
    {
      if t < done {
        RowBound(t, done, channels);
        assert Cell(outs, channels, t, c) == ConvAt(exp, whole, kernel, channels, K, t, c);
      } else {
        RowBound(t - done, n, channels);
        assert t * channels == done * channels + (t - done) * channels;
        assert Cell(out, channels, t - done, c) == ConvAt(exp, Rows(whole, channels, done, done + n + K - 1), kernel,
            channels, K, t - done, c);
        WindowConv(exp, whole, kernel, channels, K, done, done + n + K - 1, t - done, c);
      }
    }
  }

  /** An output cell from the operands: y with y * (1 + exp(-acc)) == acc, for the sum acc over the taps of row t + kk,
      channel c, times the channel-major weight c*K + kk. */
  lemma CellInSource(exp: real -> real, rows: seq<real>, kernel: seq<real>, channels: nat, K: nat, out: seq<real>,
                     n: nat, t: nat, c: nat, taps: int -> real, weights: int -> real, acc: real)
    requires IsExp(exp) && ConvRows(exp, rows, kernel, channels, K, out, n) && t < n && c < channels
    requires forall kk | 0 <= kk < K :: taps(kk) == Cell(rows, channels, t + kk, c)
    requires forall kk | 0 <= kk < K :: weights(kk) == Cell(kernel, K, c, kk)
    requires acc == Dot(0, K, taps, weights)
    ensures Cell(out, channels, t, c) * (1.0 + exp(-acc)) == acc
  {
    hide Dot, Cell, IsExp;
    assert Cell(out, channels, t, c) == ConvAt(exp, rows, kernel, channels, K, t, c);
    DotAgree(0, K, Taps(rows, channels, t, c), taps, Row(kernel, K, c), weights);
    SiluInSource(exp, acc);
  }

  lemma SiluInSource(exp: real -> real, x: real)
    requires IsExp(exp)
    ensures Silu(exp, x) * (1.0 + exp(-x)) == x
  {
    hide IsExp;
    ExpPositive(exp, -x);
  }
}
