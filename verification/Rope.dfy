/** mropeCpuRef: partial rotary embedding, pairs (i, i+P) of every head rotated in place. */
module Rope {
  import opened Sums
  import opened Buffers

  /** The difference formulas and the values at 0: everything the rotation algebra uses. */
  ghost predicate TrigLaw(cos: real -> real, sin: real -> real, a: real, b: real) {
    && cos(a - b) == Inner(cos(a), sin(a), cos(b), sin(b))
    && sin(a - b) == Cross(cos(b), sin(b), cos(a), sin(a))
  }

  ghost predicate IsTrig(cos: real -> real, sin: real -> real) {
    cos(0.0) == 1.0 && sin(0.0) == 0.0 && forall a, b :: TrigLaw(cos, sin, a, b)
  }

  /** Nothing more is assumed of the cosine and the sine than the two difference formulas and the values at 0. */
  lemma TrigLawFrom(cos: real -> real, sin: real -> real, a: real, b: real)
    requires cos(a - b) == cos(a) * cos(b) + sin(a) * sin(b) && sin(a - b) == sin(a) * cos(b) - cos(a) * sin(b)
    ensures TrigLaw(cos, sin, a, b)
  {
  }

  lemma IsTrigFrom(cos: real -> real, sin: real -> real)
    requires cos(0.0) == 1.0 && sin(0.0) == 0.0 && forall a, b :: TrigLaw(cos, sin, a, b)
    ensures IsTrig(cos, sin)
  {
  }

  function Inner(a: real, b: real, c: real, d: real): real { a * c + b * d }

  function Cross(a: real, b: real, c: real, d: real): real { a * d - b * c }

  /** The two coordinates of (a, b) rotated by an angle of cosine c and sine s. */
  function First(a: real, b: real, c: real, s: real): real { a * c - b * s }

  function Second(a: real, b: real, c: real, s: real): real { a * s + b * c }

  /** The angle turned at a position. */
  function Turn(pos: real, freq: real): real { pos * freq }

  /** Rotation parameters: P pairs, the per-pair frequency, cosine and sine. */
  datatype Rotary = Rotary(P: nat, freq: int -> real, cos: real -> real, sin: real -> real)
  {
    function Angle(pos: real, i: int): real { Turn(pos, freq(i)) }

    function C(pos: real, i: int): real { cos(Angle(pos, i)) }

    function S(pos: real, i: int): real { sin(Angle(pos, i)) }
  }

  /** A head vector rotated to position pos; coordinates past the rotary block pass through. */
  function Rotate(r: Rotary, pos: real, x: int -> real): int -> real {
    k =>
      if 0 <= k < r.P then First(x(k), x(r.P + k), r.C(pos, k), r.S(pos, k))
      else if r.P <= k < 2 * r.P then Second(x(k - r.P), x(k), r.C(pos, k - r.P), r.S(pos, k - r.P))
      else x(k)
  }

  /** Pair i's contribution to a dot product, and its cross term. */
  function PairDot(r: Rotary, x: int -> real, y: int -> real,
                   i: int): real
  {
    Inner(x(i), x(r.P + i), y(i), y(r.P + i))
  }

  function PairCross(r: Rotary, x: int -> real, y: int -> real,
                     i: int): real
  {
    Cross(x(i), x(r.P + i), y(i), y(r.P + i))
  }

  function PairSum(r: Rotary, n: nat, x: int -> real, y: int -> real): real {
    if n == 0 then 0.0 else PairSum(r, n - 1, x, y) + PairDot(r, x, y, n - 1)
  }

  /** A dot product over a head is its pair dots plus the tail past the rotary block. */
  lemma HeadDot(r: Rotary, D: nat, x: int -> real, y: int -> real)
    requires 2 * r.P <= D
    ensures Dot(0, D, x, y) == PairSum(r, r.P, x, y) + Dot(2 * r.P, D, x, y)
  {
    hide Dot, PairSum;
    DotSplit(0, 2 * r.P, D, x, y);
    DotSplit(0, r.P, 2 * r.P, x, y);
    PairUp(r, r.P, x, y);
  }

  lemma {:induction false} PairUp(r: Rotary, n: nat, x: int -> real, y: int -> real)
    ensures PairSum(r, n, x, y) == Dot(0, n, x, y) + Dot(r.P, r.P + n, x, y)
  {
    if n > 0 { PairUp(r, n - 1, x, y); }
  }

  /** A rotated pair's dot product sees only the angle difference. */
  lemma RotatedPair(r: Rotary, p: real, s: real, x: int -> real, y: int -> real, i: nat)
    requires IsTrig(r.cos, r.sin) && i < r.P
    ensures PairDot(r, Rotate(r, p, x), Rotate(r, s, y), i)
         == Inner(PairDot(r, x, y, i), PairCross(r, x, y, i), r.C(p - s, i), r.S(p - s, i))
  {
    hide Rotate, Inner, Cross, First, Second, Rotary.C, Rotary.S, IsTrig;
    RotatedValues(r, p, x, i);
    RotatedValues(r, s, y, i);
    AngleDifference(r, p, s, i);
    PairAlgebra(x(i), x(r.P + i), y(i), y(r.P + i), r.C(p, i), r.S(p, i), r.C(s, i), r.S(s, i));
  }

  lemma RotatedValues(r: Rotary, p: real, x: int -> real, i: nat)
    requires i < r.P
    ensures Rotate(r, p, x)(i) == First(x(i), x(r.P + i), r.C(p, i), r.S(p, i))
    ensures Rotate(r, p, x)(r.P + i) == Second(x(i), x(r.P + i), r.C(p, i), r.S(p, i))
  {
    hide Rotary.C, Rotary.S, First, Second;
    assert r.P + i - r.P == i;
  }

  lemma AngleDifference(r: Rotary, p: real, s: real, i: nat)
    requires IsTrig(r.cos, r.sin)
    ensures r.C(p - s, i) == Inner(r.C(p, i), r.S(p, i), r.C(s, i), r.S(s, i))
    ensures r.S(p - s, i) == Cross(r.C(s, i), r.S(s, i), r.C(p, i), r.S(p, i))
  {
    hide Inner, Cross;
    assert TrigLaw(r.cos, r.sin, r.Angle(p, i), r.Angle(s, i));
    assert r.Angle(p - s, i) == r.Angle(p, i) - r.Angle(s, i);
  }

  lemma PairAlgebra(a: real, b: real, a': real, b': real, c: real, s: real, c': real, s': real)
    ensures Inner(First(a, b, c, s), Second(a, b, c, s), First(a', b', c', s'), Second(a', b', c', s'))
         == Inner(Inner(a, b, a', b'), Cross(a, b, a', b'), Inner(c, s, c', s'), Cross(c', s', c, s))
  {
    var w, x, y, z := a * a', b * b', a * b', b * a';
    assert First(a, b, c, s) * First(a', b', c', s') == w * (c * c') - y * (c * s') - z * (s * c') + x * (s * s') by {
      Expand(a * c, b * s, a' * c', b' * s');
    }
    assert Second(a, b, c, s) * Second(a', b', c', s') == w * (s * s') + y * (s * c') + z * (c * s') + x * (c * c') by {
      Expand(a * s, -(b * c), a' * s', -(b' * c'));
    }
  }

  lemma Expand(p: real, q: real, p': real, q': real)
    ensures (p - q) * (p' - q') == p * p' - p * q' - q * p' + q * q'
  {
  }

  /** Sum of the pair dots after rotating to p and s; p and s enter only through p - s. */
  lemma {:induction false} RotatedPairs(r: Rotary, n: nat, p: real, s: real, p': real, s': real, x: int -> real,
                                        y: int -> real)
    requires IsTrig(r.cos, r.sin) && n <= r.P && p - s == p' - s'
    ensures PairSum(r, n, Rotate(r, p, x), Rotate(r, s, y)) == PairSum(r, n, Rotate(r, p', x), Rotate(r, s', y))
  {
    hide Rotate, Inner, Cross, PairDot, PairCross, Rotary.C, Rotary.S, IsTrig;
    if n > 0 {
      RotatedPairs(r, n - 1, p, s, p', s', x, y);
      RotatedPair(r, p, s, x, y, n - 1);
      RotatedPair(r, p', s', x, y, n - 1);
    }
  }

  /** The dot product of a query at p and a key at s depends only on p - s. */
  lemma RelativePosition(r: Rotary, D: nat, p: real, s: real, p': real, s': real, x: int -> real, y: int -> real)
    requires IsTrig(r.cos, r.sin) && 2 * r.P <= D && p - s == p' - s'
    ensures Dot(0, D, Rotate(r, p, x), Rotate(r, s, y)) == Dot(0, D, Rotate(r, p', x), Rotate(r, s', y))
  {
    HeadDot(r, D, Rotate(r, p, x), Rotate(r, s, y));
    HeadDot(r, D, Rotate(r, p', x), Rotate(r, s', y));
    RotatedPairs(r, r.P, p, s, p', s', x, y);
    TailKept(r, D, p, p', x);
    TailKept(r, D, s, s', y);
    hide *;
    DotAgree(2 * r.P, D, Rotate(r, p, x), Rotate(r, p', x), Rotate(r, s, y), Rotate(r, s', y));
  }

  /** Coordinates past the rotary block are unchanged at every position. */
  lemma TailKept(r: Rotary, D: nat, p: real, p': real, x: int -> real)
    ensures Agree(2 * r.P, D, Rotate(r, p, x), Rotate(r, p', x)) && Agree(2 * r.P, D, Rotate(r, p, x), x)
  {
    hide First, Second, Rotary.C, Rotary.S;
  }

  /** Position 0 is the identity. */
  lemma RotateZero(r: Rotary, x: int -> real, k: int)
    requires IsTrig(r.cos, r.sin)
    ensures Rotate(r, 0.0, x)(k) == x(k)
  {
    var i := if k < r.P then k else k - r.P;
    assert r.Angle(0.0, i) == 0.0 * r.freq(i) == 0.0;
  }

  /** Rotation preserves every dot product at equal positions, hence every length. */
  lemma LengthPreserved(r: Rotary, D: nat, p: real, x: int -> real, y: int -> real)
    requires IsTrig(r.cos, r.sin) && 2 * r.P <= D
    ensures Dot(0, D, Rotate(r, p, x), Rotate(r, p, y)) == Dot(0, D, x, y)
  {
    RelativePosition(r, D, p, p, 0.0, 0.0, x, y);
    forall k | 0 <= k < D ensures Rotate(r, 0.0, x)(k) == x(k) && Rotate(r, 0.0, y)(k) == y(k) {
      RotateZero(r, x, k);
      RotateZero(r, y, k);
    }
    hide Rotate, Dot;
    DotAgree(0, D, Rotate(r, 0.0, x), x, Rotate(r, 0.0, y), y);
  }

  /** Rotating to p and then by s is rotating to p + s. */
  lemma RotationsCompose(r: Rotary, p: real, s: real, x: int -> real, k: int)
    requires IsTrig(r.cos, r.sin)
    ensures Rotate(r, s, Rotate(r, p, x))(k) == Rotate(r, p + s, x)(k)
  {
    hide First, Second, Rotary.C, Rotary.S, IsTrig;
    if 0 <= k < 2 * r.P {
      var i := if k < r.P then k else k - r.P;
      hide Rotate;
      assert k == i || k == r.P + i;
      RotatedValues(r, p, x, i);
      RotatedValues(r, s, Rotate(r, p, x), i);
      RotatedValues(r, p + s, x, i);
      AngleSum(r, p, s, i);
      TurnTwice(x(i), x(r.P + i), r.C(p, i), r.S(p, i), r.C(s, i), r.S(s, i));
    }
  }

  /** The sum formulas, from the difference formulas. */
  lemma AngleSum(r: Rotary, p: real, s: real, i: nat)
    requires IsTrig(r.cos, r.sin)
    ensures r.C(p + s, i) == First(r.C(p, i), r.S(p, i), r.C(s, i), r.S(s, i))
    ensures r.S(p + s, i) == Second(r.C(p, i), r.S(p, i), r.C(s, i), r.S(s, i))
  {
    var t, u := r.Angle(p, i), r.Angle(s, i);
    assert r.Angle(p + s, i) == t - (0.0 - u);
    assert TrigLaw(r.cos, r.sin, 0.0, u) && TrigLaw(r.cos, r.sin, t, 0.0 - u);
  }

  lemma TurnTwice(a: real, b: real, c: real, s: real, c': real, s': real)
    ensures First(First(a, b, c, s), Second(a, b, c, s), c', s')
            == First(a, b, First(c, s, c', s'), Second(c, s, c', s'))
    ensures Second(First(a, b, c, s), Second(a, b, c, s), c', s')
            == Second(a, b, First(c, s, c', s'), Second(c, s, c', s'))
  {
  }

  /** Pairs per head: the given section sum, or half the head. */
  function RotPairs(headDim: nat, sectDims: int): nat { if sectDims > 0 then sectDims else headDim / 2 }

  /** -2i/rotaryDim. */
  function Exponent(i: int, P: nat): real
    requires P > 0
  {
    -((2 * i) as real) * (1.0 / (2 * P) as real)
  }

  /** base^(-2i/rotaryDim), for any power function. */
  function RotaryOf(headDim: nat, sectDims: int, base: real, pow: (real, real) -> real, cos: real -> real,
                    sin: real -> real): Rotary
  {
    var P := RotPairs(headDim, sectDims);
    Rotary(P, i => if P == 0 then 0.0 else pow(base, Exponent(i, P)), cos, sin)
  }

  /** Mid-row state: the first i pairs rotated, everything else as before. */
  ghost predicate RowTurned(r: Rotary, pos: real, before: seq<real>, y: seq<real>, D: nat, row: nat, i: nat) {
    forall k | 0 <= k < D :: Cell(y, D, row, k)
      == if k < i || (r.P <= k < r.P + i) || 2 * r.P <= k then Rotate(r, pos, Row(before, D, row))(k)
          else Cell(before, D, row, k)
  }

  ghost predicate RowRotated(r: Rotary, pos: real, before: seq<real>, y: seq<real>, D: nat, row: int) {
    forall k | 0 <= k < D :: Cell(y, D, row, k) == Rotate(r, pos, Row(before, D, row))(k)
  }

  method RotateRow(r: Rotary, pos: real, y: array<real>, D: nat, row: nat)
    requires 2 * r.P <= D && HasRow(y.Length, D, row)
    modifies y
    ensures RowRotated(r, pos, old(y[..]), y[..], D, row) && OnlyRow(old(y[..]), y[..], D, row)
  {
    hide Cell, Rotate, First, Second, Rotary.C, Rotary.S;
    ghost var before := y[..];
    TailKept(r, D, pos, pos, Row(before, D, row));
    for i := 0 to r.P
      invariant OnlyRow(before, y[..], D, row) && RowTurned(r, pos, before, y[..], D, row, i)
    {
      var c, s := r.C(pos, i), r.S(pos, i);
      var a, b := At(y[..], D, row, i), At(y[..], D, row, r.P + i);
      ghost var mid := y[..];
      SetCell(y, D, row, i, First(a, b, c, s));
      SetCell(y, D, row, r.P + i, Second(a, b, c, s));
      RotatedValues(r, pos, Row(before, D, row), i);
    }
  }

  /** Row (p,h) of the result. */
  ghost predicate HeadTurned(r: Rotary, start: int, before: seq<real>, y: seq<real>, numHeads: nat, D: nat, p: nat,
                             h: nat)
  {
    RowRotated(r, (start + p) as real, before, y, D, p * numHeads + h)
  }

  ghost predicate HeadSame(s: seq<real>, s': seq<real>, numHeads: nat, D: nat, p: nat, h: nat) {
    SameRow(s, s', D, p * numHeads + h)
  }

  ghost predicate SameRow(s: seq<real>, s': seq<real>, D: nat, row: int) {
    forall k | 0 <= k < D :: Cell(s', D, row, k) == Cell(s, D, row, k)
  }

  /** (p',h') comes before (p,h) in loop order. */
  predicate Earlier(p': nat, h': nat, p: nat, h: nat) { p' < p || (p' == p && h' < h) }

  /** Heads before (p,h) in loop order are rotated, the others untouched. */
  ghost predicate TurnedSoFar(r: Rotary, start: int, before: seq<real>, y: seq<real>, seqLen: nat, numHeads: nat,
                              D: nat, p: nat, h: nat)
  {
    |y| == |before| && forall p', h' | 0 <= p' < seqLen && 0 <= h' < numHeads ::
      if Earlier(p', h', p, h) then HeadTurned(r, start, before, y, numHeads, D, p', h')
          else HeadSame(before, y, numHeads, D, p', h')
  }

  lemma HeadKept(r: Rotary, start: int, before: seq<real>, y1: seq<real>, y2: seq<real>, numHeads: nat, D: nat, p: nat,
                 h: nat, p': nat, h': nat)
    requires h < numHeads && h' < numHeads && (p' != p || h' != h) && OnlyRow(y1, y2, D, p * numHeads + h)
    ensures HeadTurned(r, start, before, y1, numHeads, D, p', h')
            ==> HeadTurned(r, start, before, y2, numHeads, D, p', h')
    ensures HeadSame(before, y1, numHeads, D, p', h') ==> HeadSame(before, y2, numHeads, D, p', h')
  {
    hide Cell, Rotate;
    if p' != p { RowsApart(p', p, numHeads, h', h); }
    var row := p' * numHeads + h';
    assert forall k | 0 <= k < D :: Cell(y2, D, row, k) == Cell(y1, D, row, k);
  }

  /** Rotating the untouched row of y1 is rotating the original row. */
  lemma HeadFinished(r: Rotary, start: int, before: seq<real>, y1: seq<real>, y2: seq<real>, numHeads: nat, D: nat,
                     p: nat, h: nat)
    requires 2 * r.P <= D && HeadSame(before, y1, numHeads, D, p, h)
             && RowRotated(r, (start + p) as real, y1, y2, D, p * numHeads + h)
    ensures HeadTurned(r, start, before, y2, numHeads, D, p, h)
  {
    hide Cell, Rotate;
    var row := p * numHeads + h;
    forall k | 0 <= k < D ensures Row(y1, D, row)(k) == Row(before, D, row)(k) { }
    RotateSame(r, (start + p) as real, D, Row(y1, D, row), Row(before, D, row));
  }

  lemma TurnedStep(r: Rotary, start: int, before: seq<real>, y1: seq<real>, y2: seq<real>, seqLen: nat, numHeads: nat,
                   D: nat, p: nat, h: nat)
    requires p < seqLen && h < numHeads && 2 * r.P <= D && TurnedSoFar(r, start, before, y1, seqLen, numHeads, D, p, h)
    requires OnlyRow(y1, y2, D, p * numHeads + h) && RowRotated(r, (start + p) as real, y1, y2, D, p * numHeads + h)
    ensures TurnedSoFar(r, start, before, y2, seqLen, numHeads, D, p, h + 1)
  {
    hide HeadTurned, HeadSame, RowRotated;
    assert HeadSame(before, y1, numHeads, D, p, h);
    HeadFinished(r, start, before, y1, y2, numHeads, D, p, h);
    forall p', h' | 0 <= p' < seqLen && 0 <= h' < numHeads
      ensures if Earlier(p', h', p, h + 1) then HeadTurned(r, start, before, y2, numHeads, D, p', h')
              else HeadSame(before, y2, numHeads, D, p', h')
    {
      if p' != p || h' != h { HeadKept(r, start, before, y1, y2, numHeads, D, p, h, p', h'); }
    }
  }

  lemma RotateSame(r: Rotary, pos: real, D: nat, x: int -> real, x': int -> real)
    requires Agree(0, D, x, x')
    ensures 2 * r.P <= D ==> Agree(0, D, Rotate(r, pos, x), Rotate(r, pos, x'))
  {
    hide First, Second, Rotary.C, Rotary.S;
  }

  /** The position of pair i's partner coordinate in head (p,h). */
  function PartnerAt(numHeads: nat, headDim: nat, P: nat, p: nat, h: nat,
                     i: nat): nat
  {
    (p * numHeads + h) * headDim + i + P
  }

  /** Every access of the loops lies inside the buffer exactly when there is no head at all or the rotary
      block fits into one head; otherwise the last head's last pair reads past the end. */
  lemma AccessesFit(seqLen: nat, numHeads: nat, headDim: nat, P: nat)
    ensures (forall p: nat, h: nat, i: nat | p < seqLen && h < numHeads && i < P ::
               PartnerAt(numHeads, headDim, P, p, h, i) < seqLen * numHeads * headDim)
       <==> (seqLen == 0 || numHeads == 0 || 2 * P <= headDim)
  {
    if seqLen > 0 && numHeads > 0 {
      if 2 * P <= headDim {
        forall p: nat, h: nat, i: nat | p < seqLen && h < numHeads && i < P
          ensures PartnerAt(numHeads, headDim, P, p, h, i) < seqLen * numHeads * headDim
        {
          RowBound(p, seqLen, numHeads);
          RowBound(p * numHeads + h, seqLen * numHeads, headDim);
        }
      } else {
        LastRow(seqLen, numHeads, headDim);
        assert PartnerAt(numHeads, headDim, P, seqLen - 1, numHeads - 1, P - 1) >= seqLen * numHeads * headDim;
      }
    }
  }

  lemma LastRow(seqLen: nat, numHeads: nat, headDim: nat)
    requires seqLen > 0 && numHeads > 0
    ensures ((seqLen - 1) * numHeads + (numHeads - 1)) * headDim + headDim == seqLen * numHeads * headDim
  {
    assert (seqLen - 1) * numHeads + numHeads == seqLen * numHeads;
    assert ((seqLen - 1) * numHeads + (numHeads - 1) + 1) * headDim == seqLen * numHeads * headDim;
  }

  method MropeCpuRef(y: array<real>, seqLen: nat, numHeads: nat, headDim: nat, startPos: int, sectDims: int,
                     base: real, pow: (real, real) -> real, cos: real -> real, sin: real -> real)
    requires y.Length == seqLen * numHeads * headDim
    requires seqLen == 0 || numHeads == 0 || 2 * RotPairs(headDim, sectDims) <= headDim
    modifies y
    ensures forall p, h | 0 <= p < seqLen && 0 <= h < numHeads ::
              HeadTurned(RotaryOf(headDim, sectDims, base, pow, cos, sin), startPos, old(y[..]), y[..], numHeads,
                  headDim, p, h)
  {
    hide HeadTurned, HeadSame, RowRotated, Rotate, Cell;
    var r := RotaryOf(headDim, sectDims, base, pow, cos, sin);
    ghost var before := y[..];
    NothingTurned(r, startPos, before, seqLen, numHeads, headDim);
    for p := 0 to seqLen
      invariant TurnedSoFar(r, startPos, before, y[..], seqLen, numHeads, headDim, p, 0)
    {
      for h := 0 to numHeads
        invariant TurnedSoFar(r, startPos, before, y[..], seqLen, numHeads, headDim, p, h)
      {
        RowBound(p, seqLen, numHeads);
        RowBound(p * numHeads + h, seqLen * numHeads, headDim);
        ghost var y1 := y[..];
        RotateRow(r, (startPos + p) as real, y, headDim, p * numHeads + h);
        TurnedStep(r, startPos, before, y1, y[..], seqLen, numHeads, headDim, p, h);
      }
    }
  }

  lemma NothingTurned(r: Rotary, start: int, before: seq<real>, seqLen: nat, numHeads: nat, D: nat)
    ensures TurnedSoFar(r, start, before, before, seqLen, numHeads, D, 0, 0)
  {
  }

  /** A head row of a rotated buffer: row (p,h) of `after`, rotated in place from `before` in a run that
      started at position `start`. */
  datatype Turned = Turned(start: int, before: seq<real>, after: seq<real>, heads: nat, p: nat, h: nat)
  {
    ghost predicate By(r: Rotary, D: nat) { HeadTurned(r, start, before, after, heads, D, p, h) }

    function Position(): int { start + p }

    function Source(D: nat): int -> real { Row(before, D, p * heads + h) }

    function Result(D: nat): int -> real { Row(after, D, p * heads + h) }
  }

  /** On the rotated buffers: the dot product of a query row and a key row depends only on their contents before
      the rotation and on the distance of their positions, whatever buffers, starts, rows and heads hold them. */
  lemma RotatedRowsRelative(r: Rotary, D: nat, q: Turned, k: Turned, q': Turned, k': Turned)
    requires IsTrig(r.cos, r.sin) && 2 * r.P <= D && q.By(r, D) && k.By(r, D) && q'.By(r, D) && k'.By(r, D)
    requires Agree(0, D, q.Source(D), q'.Source(D)) && Agree(0, D, k.Source(D), k'.Source(D))
    requires q.Position() - k.Position() == q'.Position() - k'.Position()
    ensures Dot(0, D, q.Result(D), k.Result(D)) == Dot(0, D, q'.Result(D), k'.Result(D))
  {
    var p, s, p', s' := q.Position() as real, k.Position() as real, q'.Position() as real, k'.Position() as real;
    TurnedDot(r, D, q, k);
    TurnedDot(r, D, q', k');
    RelativePosition(r, D, p, s, p', s', q.Source(D), k.Source(D));
    RotateSame(r, p', D, q.Source(D), q'.Source(D));
    RotateSame(r, s', D, k.Source(D), k'.Source(D));
    hide *;
    DotAgree(0, D, Rotate(r, p', q.Source(D)), Rotate(r, p', q'.Source(D)),
             Rotate(r, s', k.Source(D)), Rotate(r, s', k'.Source(D)));
  }

  /** A rotated row's dot product is the dot product of the rotations. */
  lemma TurnedDot(r: Rotary, D: nat, q: Turned, k: Turned)
    requires q.By(r, D) && k.By(r, D)
    ensures Dot(0, D, q.Result(D), k.Result(D))
         == Dot(0, D, Rotate(r, q.Position() as real, q.Source(D)), Rotate(r, k.Position() as real, k.Source(D)))
  {
    hide Dot, Rotate, Cell;
    DotAgree(0, D, q.Result(D), Rotate(r, q.Position() as real, q.Source(D)),
             k.Result(D), Rotate(r, k.Position() as real, k.Source(D)));
  }

  /** A rotated head from the operands: pair i of the vector at position start + p turns by the angle
      (start + p) * base^(-2i/(2P)), P the section sum or half the head, and coordinates from 2P on stay. */
  lemma HeadInSource(headDim: nat, sectDims: int, base: real, pow: (real, real) -> real, cos: real -> real,
                     sin: real -> real, start: int, before: seq<real>, y: seq<real>, numHeads: nat, p: nat, h: nat,
                     P: nat, i: nat, power: real, freq: real, pos: real, theta: real, a: real, b: real)
    requires HeadTurned(RotaryOf(headDim, sectDims, base, pow, cos, sin), start, before, y, numHeads, headDim, p, h)
    requires P == (if sectDims > 0 then sectDims else headDim / 2) && 2 * P <= headDim && i < P
    requires power == -((2 * i) as real) * (1.0 / (2 * P) as real) && freq == pow(base, power)
    requires pos == (start + p) as real && theta == pos * freq
    requires a == Cell(before, headDim, p * numHeads + h, i) && b == Cell(before, headDim, p * numHeads + h, i + P)
    ensures Cell(y, headDim, p * numHeads + h, i) == a * cos(theta) - b * sin(theta)
    ensures Cell(y, headDim, p * numHeads + h, i + P) == a * sin(theta) + b * cos(theta)
    ensures Agree(2 * P, headDim, Row(y, headDim, p * numHeads + h), Row(before, headDim, p * numHeads + h))
  {
    hide Cell, First, Second, Rotate, Rotary.C, Rotary.S, Turn, Exponent;
    var r, row := RotaryOf(headDim, sectDims, base, pow, cos, sin), p * numHeads + h;
    var x := Row(before, headDim, row);
    FrequencyIs(headDim, sectDims, base, pow, cos, sin, P, i);
    ExponentIs(i, P, power);
    AngleInSource(pos, freq, theta);
    AngleIs(r, pos, i, freq, theta);
    RotatedValues(r, pos, x, i);
    TurnIs(a, b, cos(theta), sin(theta));
    TailKept(r, headDim, pos, pos, x);
    assert x(i) == a && x(r.P + i) == b;
    forall k | 2 * P <= k < headDim ensures Row(y, headDim, row)(k) == x(k) { assert Rotate(r, pos, x)(k) == x(k); }
  }

  lemma FrequencyIs(headDim: nat, sectDims: int, base: real, pow: (real, real) -> real, cos: real -> real,
                    sin: real -> real, P: nat, i: nat)
    requires P == (if sectDims > 0 then sectDims else headDim / 2) && i < P
    ensures var r := RotaryOf(headDim, sectDims, base, pow, cos, sin);
            r.P == P && r.freq(i) == pow(base, Exponent(i, P)) && r.cos == cos && r.sin == sin
  {
    hide Exponent;
  }

  lemma ExponentIs(i: nat, P: nat, power: real)
    requires P > 0 && power == -((2 * i) as real) * (1.0 / (2 * P) as real)
    ensures Exponent(i, P) == power
  {
  }

  lemma AngleIs(r: Rotary, pos: real, i: int, freq: real, theta: real)
    requires freq == r.freq(i) && theta == Turn(pos, freq)
    ensures r.C(pos, i) == r.cos(theta) && r.S(pos, i) == r.sin(theta)
  {
    hide Turn;
  }

  lemma AngleInSource(pos: real, freq: real, theta: real)
    requires theta == pos * freq
    ensures Turn(pos, freq) == theta
  {
  }

  lemma TurnIs(a: real, b: real, c: real, s: real)
    ensures First(a, b, c, s) == a * c - b * s && Second(a, b, c, s) == a * s + b * c
  {
  }
}
