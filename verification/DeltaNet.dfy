/** The flat tensors of the gated delta net, and what a call on them must leave behind. */
module DeltaNet {
  import opened Sums
  import opened Buffers
  import opened DeltaSpec
  import opened Exponential

  /** One call's read-only operands: T tokens, H heads, head dimension S, row-major q, k, v [T,H,S],
      gLog, beta [T,H], the query scale 1/sqrt(S) and the exponential. */
  datatype Net = Net(T: nat, H: nat, S: nat,
                     q: seq<real>, k: seq<real>, v: seq<real>, gLog: seq<real>, beta: seq<real>,
                     qScale: real, exp: real -> real)
  {
    ghost predicate Shaped() {
      && |q| == |k| == |v| == T * H * S
      && |gLog| == |beta| == T * H
    }

    function HeadOf(h: int): Head {
      Head(S, exp,
           t => Row(k, S, t * H + h), t => Scaled(qScale, Row(q, S, t * H + h)), t => Row(v, S, t * H + h),
           t => Cell(gLog, H, t, h), t => Cell(beta, H, t, h))
    }
  }

  /** The shapes a call demands, and nothing else. */
  lemma ShapedFrom(x: Net)
    requires |x.q| == |x.k| == |x.v| == x.T * x.H * x.S && |x.gLog| == |x.beta| == x.T * x.H
    ensures x.Shaped()
  {
  }

  /** No log-decay is positive. */
  ghost predicate Decays(x: Net) {
    forall t, h | 0 <= t < x.T && 0 <= h < x.H :: Cell(x.gLog, x.H, t, h) <= 0.0
  }

  /** exp(e) as the three forms evaluate it: they never call the exponential on anything but a decay
      exponent, so with non-positive log-decays no argument is positive and no factor exceeds 1. */
  function DecayFactor(x: Net, e: real): (f: real)
    requires Decays(x) ==> e <= 0.0
    ensures f == x.exp(e)
    ensures Decays(x) && IsExp(x.exp) ==> 0.0 < f <= 1.0
  {
    FactorBound(x, e);
    x.exp(e)
  }

  lemma FactorBound(x: Net, e: real)
    requires Decays(x) ==> e <= 0.0
    ensures Decays(x) && IsExp(x.exp) ==> 0.0 < x.exp(e) <= 1.0
  {
    hide Decays, IsExp;
    if Decays(x) && IsExp(x.exp) { ExpDecay(x.exp, e); }
  }

  /** Column j of head h in a flat [H,S,S] state buffer. */
  function StateCol(x: Net, state: seq<real>, h: int, j: int): int -> real { Column(state, x.S, h * x.S, j) }

  /** Entry (i,j) of head h after n tokens from the flat state `init`. */
  function StateAt(x: Net, init: seq<real>, h: int, i: int, j: int, n: nat): real {
    Col(x.HeadOf(h), j, StateCol(x, init, h, j), 0, n)(i)
  }

  /** Output coordinate j of token t, head h. */
  function OutAt(x: Net, init: seq<real>, t: nat, h: int, j: int): real {
    Read(x.HeadOf(h), j, StateCol(x, init, h, j), 0, t)
  }

  /** The state buffer after the first n tokens. */
  ghost function StateAfter(x: Net, init: seq<real>, n: nat): (s: seq<real>)
    ensures |s| == x.H * x.S * x.S
  {
    seq(x.H * x.S * x.S, p requires 0 <= p < x.H * x.S * x.S =>
      (QuotientBound(p, x.S, x.H * x.S); StateAt(x, init, p / x.S / x.S, p / x.S % x.S, p % x.S, n)))
  }

  /** The state buffer after the whole call. */
  ghost function FinalState(x: Net, init: seq<real>): seq<real> { StateAfter(x, init, x.T) }

  /** The output buffer after the whole call. */
  ghost function Output(x: Net, init: seq<real>): (s: seq<real>)
    ensures |s| == x.T * x.H * x.S
  {
    seq(x.T * x.H * x.S, p requires 0 <= p < x.T * x.H * x.S =>
      (QuotientBound(p, x.S, x.T * x.H); QuotientBound(p / x.S, x.H, x.T);
       OutAt(x, init, p / x.S / x.H, p / x.S % x.H, p % x.S)))
  }

  /** Head h of `state` holds the recurrence's state after n tokens. */
  ghost predicate HeadIs(x: Net, init: seq<real>, state: seq<real>, h: int, n: nat) {
    forall i, j | 0 <= i < x.S && 0 <= j < x.S :: Entry(state, x.S, h * x.S, i, j) == StateAt(x, init, h, i, j, n)
  }

  /** Row (t,h) of `out` holds the recurrence's output for token t. */
  ghost predicate RowIs(x: Net, init: seq<real>, out: seq<real>, t: nat, h: int) {
    forall j | 0 <= j < x.S :: Cell(out, x.S, t * x.H + h, j) == OutAt(x, init, t, h, j)
  }

  /** All heads hold it, so the buffer is the final state. */
  lemma StateFromHeads(x: Net, init: seq<real>, state: seq<real>, n: nat)
    requires |state| == x.H * x.S * x.S
    requires forall h | 0 <= h < x.H :: HeadIs(x, init, state, h, n)
    ensures state == StateAfter(x, init, n)
  {
    forall p | 0 <= p < |state| ensures state[p] == StateAfter(x, init, n)[p] {
      hide StateAt;
      QuotientBound(p, x.S, x.H * x.S);
      CellOf(p, x.S);
      QuotientBound(p / x.S, x.S, x.H);
      CellOf(p / x.S, x.S);
      assert HeadIs(x, init, state, p / x.S / x.S, n);
      assert Cell(state, x.S, p / x.S, p % x.S) == state[p];
    }
  }

  lemma OutFromRows(x: Net, init: seq<real>, out: seq<real>)
    requires |out| == x.T * x.H * x.S
    requires forall t, h | 0 <= t < x.T && 0 <= h < x.H :: RowIs(x, init, out, t, h)
    ensures out == Output(x, init)
  {
    forall p | 0 <= p < |out| ensures out[p] == Output(x, init)[p] {
      hide OutAt;
      QuotientBound(p, x.S, x.T * x.H);
      CellOf(p, x.S);
      QuotientBound(p / x.S, x.H, x.T);
      CellOf(p / x.S, x.H);
      assert RowIs(x, init, out, p / x.S / x.H, p / x.S % x.H);
      assert Cell(out, x.S, p / x.S, p % x.S) == out[p];
    }
  }

  /** Cell (h*S+i, j) of the state after n tokens. */
  lemma StateCell(x: Net, init: seq<real>, n: nat, h: int, i: int, j: int)
    requires 0 <= h < x.H && 0 <= i < x.S && 0 <= j < x.S
    ensures Cell(StateAfter(x, init, n), x.S, h * x.S + i, j) == StateAt(x, init, h, i, j, n)
  {
    hide StateAt;
    RowBound(h, x.H, x.S);
    RowBound(h * x.S + i, x.H * x.S, x.S);
    DivMod(h, x.S, i);
    DivMod(h * x.S + i, x.S, j);
  }

  /** Only the first S entries of a column matter. */
  lemma {:induction false} ColAgree(x: Head, j: int, s: int -> real, s': int -> real, c0: int, n: nat)
    requires Agree(0, x.S, s, s')
    ensures Agree(0, x.S, Col(x, j, s, c0, n), Col(x, j, s', c0, n))
  {
    hide Dot;
    if n > 0 {
      ColAgree(x, j, s, s', c0, n - 1);
      StepAgree(x, j, Col(x, j, s, c0, n - 1), Col(x, j, s', c0, n - 1), c0 + n - 1);
    }
  }

  lemma StepAgree(x: Head, j: int, s: int -> real, s': int -> real, t: int)
    requires Agree(0, x.S, s, s')
    ensures Agree(0, x.S, Step(x, j, s, t), Step(x, j, s', t))
    ensures Delta(x, j, s, t) == Delta(x, j, s', t)
  {
    hide Dot;
    DotAgree(0, x.S, Scaled(x.exp(x.g(t)), s), Scaled(x.exp(x.g(t)), s'), x.k(t), x.k(t));
  }

  /** The recurrence in the operands' own positions. One token on one head: every entry (i,j) decays by exp(gLog) and
      gains k_i times the gated prediction error, (v_j - decayed column j . k) * beta; nothing has happened after
      no tokens; and the output reads the updated column with q * qScale. */
  lemma TokenInSource(x: Net, init: seq<real>, t: nat, h: nat, i: nat, j: nat)
    ensures StateAt(x, init, h, i, j, 0) == Cell(init, x.S, h * x.S + i, j)
    ensures var g, row := x.exp(Cell(x.gLog, x.H, t, h)), t * x.H + h;
            StateAt(x, init, h, i, j, t + 1) == g * StateAt(x, init, h, i, j, t)
              + ((Cell(x.v, x.S, row, j)
                  - Dot(0, x.S, p => g * StateAt(x, init, h, p, j, t), p => Cell(x.k, x.S, row, p)))
                 * Cell(x.beta, x.H, t, h)) * Cell(x.k, x.S, row, i)
    ensures OutAt(x, init, t, h, j) == Dot(0, x.S, p => StateAt(x, init, h, p, j, t + 1),
                                           p => Cell(x.q, x.S, t * x.H + h, p) * x.qScale)
  {
    hide Dot, Cell;
    var hd, s := x.HeadOf(h), StateCol(x, init, h, j);
    var g, row, col := x.exp(hd.g(t)), t * x.H + h, Col(hd, j, s, 0, t);
    DotAgree(0, x.S, Scaled(g, col), p => g * StateAt(x, init, h, p, j, t), hd.k(t), p => Cell(x.k, x.S, row, p));
    DotAgree(0, x.S, Col(hd, j, s, 0, t + 1), p => StateAt(x, init, h, p, j, t + 1),
             hd.qs(t), p => Cell(x.q, x.S, row, p) * x.qScale);
  }
}
