/** Flat row-major buffers, read as rows of a fixed width. `r*w + j` is the only index form the
    code uses: [T,H,S] is rows t*H+h of width S, [H,S,S] is rows h*S+i of width S, and so on. */
module Buffers {

  /** Element j of row r; total, so that specifications carry no index obligations. */
  function Cell(s: seq<real>, w: int, r: int, j: int): real {
    if 0 <= r * w + j < |s| then s[r * w + j] else 0.0
  }

  /** Row r as a vector. */
  function Row(s: seq<real>, w: int, r: int): int -> real { j => Cell(s, w, r, j) }

  /** Entry (i,j) of the matrix whose rows start at row `first`. */
  function Entry(s: seq<real>, w: int, first: int, i: int, j: int): real { Cell(s, w, first + i, j) }

  /** Column j of that matrix. */
  function Column(s: seq<real>, w: int, first: int, j: int): int -> real { i => Entry(s, w, first, i, j) }

  ghost predicate HasRow(len: int, w: int, r: int) { 0 <= w && 0 <= r && r * w + w <= len }

  /** Every cell outside row r is the same in both buffers. */
  ghost predicate OnlyRow(s: seq<real>, s': seq<real>, w: int, r: int) {
    |s| == |s'| && forall r', j | r' != r && 0 <= j < w :: Cell(s', w, r', j) == Cell(s, w, r', j)
  }

  /** The element each accessor stands for, by position. */
  lemma CellAt(s: seq<real>, w: int, r: int, j: int)
    requires 0 <= r * w + j < |s|
    ensures Cell(s, w, r, j) == s[r * w + j] == Row(s, w, r)(j)
    ensures forall i, first | first + i == r :: Entry(s, w, first, i, j) == s[r * w + j] == Column(s, w, first, j)(i)
  {
  }

  lemma RowBound(r: int, rows: int, w: int)
    requires 0 <= r < rows && 0 <= w
    ensures r * w + w <= rows * w && 0 <= r * w
  {
    assert (r + 1) * w <= rows * w;
  }

  lemma RowOrder(r: int, r': int, w: int)
    requires r < r' && 0 <= w
    ensures r * w + w <= r' * w
  {
    assert (r + 1) * w <= r' * w;
  }

  /** Two positions in distinct rows are distinct. */
  lemma RowsApart(r: int, r': int, w: int, j: int, j': int)
    requires r != r' && 0 <= j < w && 0 <= j' < w
    ensures r * w + j != r' * w + j'
  {
    if r < r' { RowOrder(r, r', w); } else { RowOrder(r', r, w); }
  }

  /** A positional frame is a row frame. */
  lemma FrameRows(s: seq<real>, s': seq<real>, w: int, r: int)
    requires |s| == |s'|
    requires forall p | 0 <= p < |s| && !(r * w <= p < r * w + w) :: s'[p] == s[p]
    ensures OnlyRow(s, s', w, r)
  {
    forall r', j | r' != r && 0 <= j < w ensures Cell(s', w, r', j) == Cell(s, w, r', j) {
      if r < r' { RowOrder(r, r', w); } else { RowOrder(r', r, w); }
    }
  }

  /** r is the quotient and j the remainder of the flat position. */
  lemma CellOf(p: int, w: int)
    requires 0 <= p && 0 < w
    ensures p == (p / w) * w + p % w && 0 <= p % w < w && 0 <= p / w
  {
  }

  lemma DivMod(r: int, w: int, j: int)
    requires 0 <= r && 0 <= j < w
    ensures (r * w + j) / w == r && (r * w + j) % w == j
  {
    var p := r * w + j;
    assert 0 <= p;
    CellOf(p, w);
    if p / w < r { RowOrder(p / w, r, w); }
    if r < p / w { RowOrder(r, p / w, w); }
  }

  lemma QuotientBound(p: int, w: int, rows: int)
    requires 0 <= p < rows * w && 0 <= w && 0 <= rows
    ensures 0 < w && 0 <= p / w < rows
  {
    CellOf(p, w);
    if rows <= p / w { RowBoundLe(rows, p / w, w); }
  }

  lemma RowBoundLe(a: int, b: int, w: int)
    requires a <= b && 0 <= w
    ensures a * w <= b * w
  {
  }

  /** acc + a*b, the step of every accumulating loop. */
  function MulAdd(acc: real, a: real, b: real): real { acc + a * b }

  function Times(a: real, b: real): real { a * b }

  /** A checked read: the access is in bounds and reads the cell. */
  function At(s: seq<real>, w: nat, r: nat, j: nat): (x: real)
    requires HasRow(|s|, w, r) && j < w
    ensures x == Cell(s, w, r, j)
  {
    s[r * w + j]
  }

  /** Every cell but (r,j) is the same in both buffers. */
  ghost predicate OnlyCell(s: seq<real>, s': seq<real>, w: int, r: int, j: int) {
    |s| == |s'| && forall r', j' | 0 <= j' < w && !(r' == r && j' == j) :: Cell(s', w, r', j') == Cell(s, w, r', j')
  }

  /** Cell (r,j) := v. */
  method SetCell(y: array<real>, w: nat, r: nat, j: nat, v: real)
    requires HasRow(y.Length, w, r) && j < w
    modifies y
    ensures Cell(y[..], w, r, j) == v && OnlyCell(old(y[..]), y[..], w, r, j)
  {
    y[r * w + j] := v;
    forall r', j' | 0 <= j' < w && !(r' == r && j' == j) ensures Cell(y[..], w, r', j') == Cell(old(y[..]), w, r', j') {
      if r' != r { RowsApart(r, r', w, j, j'); }
    }
  }

  /** Row r := c. */
  method FillRow(y: array<real>, w: nat, r: nat, c: real)
    requires HasRow(y.Length, w, r)
    modifies y
    ensures forall j | 0 <= j < w :: Cell(y[..], w, r, j) == c
    ensures OnlyRow(old(y[..]), y[..], w, r)
  {
    var base := r * w;
    for j := 0 to w
      invariant forall p | base <= p < base + j :: y[p] == c
      invariant forall p | 0 <= p < y.Length && !(base <= p < base + w) :: y[p] == old(y[p])
    {
      y[base + j] := c;
    }
    FrameRows(old(y[..]), y[..], w, r);
  }

  /** Row r := source row zr scaled by c. */
  method SetScaledRow(y: array<real>, w: nat, r: nat, c: real, z: seq<real>, zr: nat)
    requires HasRow(y.Length, w, r) && HasRow(|z|, w, zr)
    modifies y
    ensures forall j | 0 <= j < w :: Cell(y[..], w, r, j) == Cell(z, w, zr, j) * c
    ensures OnlyRow(old(y[..]), y[..], w, r)
  {
    var base, zbase := r * w, zr * w;
    for j := 0 to w
      invariant forall p | base <= p < base + j :: y[p] == z[p - base + zbase] * c
      invariant forall p | 0 <= p < y.Length && !(base <= p < base + w) :: y[p] == old(y[p])
    {
      y[base + j] := z[zbase + j] * c;
    }
    FrameRows(old(y[..]), y[..], w, r);
  }

  /** Row r += c * source row zr. */
  method AddScaledRow(y: array<real>, w: nat, r: nat, c: real, z: seq<real>, zr: nat)
    requires HasRow(y.Length, w, r) && HasRow(|z|, w, zr)
    modifies y
    ensures forall j | 0 <= j < w :: Cell(y[..], w, r, j) == MulAdd(Cell(old(y[..]), w, r, j), Cell(z, w, zr, j), c)
    ensures OnlyRow(old(y[..]), y[..], w, r)
  {
    hide MulAdd;
    var base, zbase := r * w, zr * w;
    for j := 0 to w
      invariant forall p | base <= p < base + j :: y[p] == MulAdd(old(y[p]), z[p - base + zbase], c)
      invariant forall p | 0 <= p < y.Length && !(base <= p < base + j) :: y[p] == old(y[p])
    {
      y[base + j] := MulAdd(y[base + j], z[zbase + j], c);
    }
    FrameRows(old(y[..]), y[..], w, r);
  }

  /** Token cuts of [T,H,S] and [T,H] buffers fall on row boundaries. */
  lemma TokensFit(a: nat, b: nat, T: nat, H: nat, S: nat)
    requires a <= b <= T
    ensures 0 <= a * H <= b * H <= T * H && 0 <= a * H * S <= b * H * S <= T * H * S
    ensures b * H - a * H == (b - a) * H && b * H * S - a * H * S == (b - a) * H * S
  {
    RowBoundLe(a, b, H);
    RowBoundLe(b, T, H);
    RowBoundLe(a * H, b * H, S);
    RowBoundLe(b * H, T * H, S);
  }

  /** Cell (t*H+h, j) of a token slice is cell ((a+t)*H+h, j) of the whole. */
  lemma SliceCell(s: seq<real>, T: nat, H: nat, S: nat, a: nat, b: nat, t: nat, h: nat, j: nat)
    requires a <= b <= T && |s| == T * H * S && t < b - a && h < H && j < S
    ensures 0 <= a * H * S <= b * H * S <= |s|
    ensures Cell(s[a * H * S..b * H * S], S, t * H + h, j) == Cell(s, S, (a + t) * H + h, j)
  {
    TokensFit(a, b, T, H, S);
    RowBound(t, b - a, H);
    RowBound(t * H + h, (b - a) * H, S);
    SlicePosition(a, t, H, h, S, j);
    assert 0 <= (t * H + h) * S + j < b * H * S - a * H * S;
  }

  lemma SlicePosition(a: nat, t: nat, H: nat, h: nat, S: nat, j: nat)
    ensures a * H * S + ((t * H + h) * S + j) == ((a + t) * H + h) * S + j
    ensures a * H + (t * H + h) == (a + t) * H + h
  {
    assert a * H * S + (t * H + h) * S == (a * H + (t * H + h)) * S;
  }

  lemma SliceGate(s: seq<real>, T: nat, H: nat, a: nat, b: nat, t: nat, h: nat)
    requires a <= b <= T && |s| == T * H && t < b - a && h < H
    ensures 0 <= a * H <= b * H <= |s|
    ensures Cell(s[a * H..b * H], H, t, h) == Cell(s, H, a + t, h)
  {
    TokensFit(a, b, T, H, 1);
    RowBound(t, b - a, H);
    SlicePosition(a, t, H, h, 1, 0);
  }

  lemma FrontCell(s: seq<real>, s': seq<real>, a: nat, H: nat, S: nat, t: nat, h: nat, j: nat)
    requires |s| == a * H * S && t < a && h < H && j < S
    ensures Cell(s + s', S, t * H + h, j) == Cell(s, S, t * H + h, j)
  {
    RowBound(t, a, H);
    RowBound(t * H + h, a * H, S);
  }

  lemma BackCell(s: seq<real>, s': seq<real>, a: nat, n: nat, H: nat, S: nat, t: nat, h: nat, j: nat)
    requires |s| == a * H * S && |s'| == n * H * S && t < n && h < H && j < S
    ensures Cell(s + s', S, (a + t) * H + h, j) == Cell(s', S, t * H + h, j)
  {
    RowBound(t, n, H);
    RowBound(t * H + h, n * H, S);
    SlicePosition(a, t, H, h, S, j);
    RowBoundLe(0, a, H);
    RowBoundLe(0, a * H, S);
  }
}
