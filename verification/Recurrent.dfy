/** gatedDeltaNetRecurrent: one token at a time, the state updated in place. */
module Recurrent {
  import opened Sums
  import opened Buffers
  import opened Kernels
  import opened DeltaSpec
  import opened DeltaNet

  /** d[j] = (v[j] - sk[j]) * beta. */
  method PredictionError(v: seq<real>, w: nat, vr: nat, sk: array<real>, b: real, d: array<real>)
    requires HasRow(|v|, w, vr) && sk.Length == w && d.Length == w && d != sk
    modifies d
    ensures forall j | 0 <= j < w :: d[j] == (Cell(v, w, vr, j) - sk[j]) * b
  {
    for j := 0 to w
      invariant forall p | 0 <= p < j :: d[p] == (Cell(v, w, vr, p) - sk[p]) * b
    {
      d[j] := (At(v, w, vr, j) - sk[j]) * b;
    }
  }

  /** Column j of head h after token t, from the state buffer before it. */
  function Next(x: Net, state: seq<real>, t: int, h: int, j: int): int -> real {
    Step(x.HeadOf(h), j, StateCol(x, state, h, j), t)
  }

  /** Decay the head's block and leave the gated prediction errors in d. */
  method PredictHead(x: Net, t: nat, h: nat, state: array<real>, sk: array<real>, d: array<real>)
    requires x.Shaped() && t < x.T && h < x.H && state.Length == x.H * x.S * x.S
    requires sk.Length == x.S && d.Length == x.S && state != sk && state != d && sk != d
    modifies state, sk, d
    ensures forall i, j | 0 <= i < x.S && 0 <= j < x.S ::
              Entry(state[..], x.S, h * x.S, i, j) == Times(Entry(old(state[..]), x.S, h * x.S, i, j),
                  x.exp(x.HeadOf(h).g(t)))
    ensures forall j | 0 <= j < x.S :: d[j] == Delta(x.HeadOf(h), j, StateCol(x, old(state[..]), h, j), t)
    ensures OnlyBlock(old(state[..]), state[..], x.S, h * x.S, x.S)
  {
    hide Dot, Cell, MulAdd, Scaled, Column, Row, Times, DecayFactor, Decays;
    ghost var was := state[..];
    var S, tr, first := x.S, t * x.H + h, h * x.S;
    TokenBounds(x, t, h);
    TokenDecay(x, t, h);
    var g, b := DecayFactor(x, At(x.gLog, x.H, t, h)), At(x.beta, x.H, t, h);
    FillRow(sk, S, 0, 0.0);
    ZeroRow(sk[..], S);
    DecayPredict(state, S, first, g, x.k, tr, sk);
    PredictionError(x.v, S, tr, sk, b, d);
    forall j | 0 <= j < S ensures d[j] == Delta(x.HeadOf(h), j, StateCol(x, was, h, j), t) {
      DeltaValue(x, was, t, h, j, g, b, sk[j], d[j]);
    }
  }

  lemma TokenDecay(x: Net, t: nat, h: nat)
    requires t < x.T && h < x.H
    ensures Decays(x) ==> Cell(x.gLog, x.H, t, h) <= 0.0
  {
    hide Cell;
  }

  lemma DeltaValue(x: Net, was: seq<real>, t: nat, h: nat, j: int, g: real, b: real, sk: real, d: real)
    requires g == x.exp(Cell(x.gLog, x.H, t, h)) && b == Cell(x.beta, x.H, t, h)
    requires sk == Dot(0, x.S, Scaled(g, Column(was, x.S, h * x.S, j)), Row(x.k, x.S, t * x.H + h))
    requires d == (Cell(x.v, x.S, t * x.H + h, j) - sk) * b
    ensures d == Delta(x.HeadOf(h), j, StateCol(x, was, h, j), t)
  {
    hide Dot, Cell, Scaled, Column;
  }

  /** The state half of a (t,h) step: decay, predict, correct. */
  method UpdateHead(x: Net, t: nat, h: nat, state: array<real>, sk: array<real>, d: array<real>)
    requires x.Shaped() && t < x.T && h < x.H && state.Length == x.H * x.S * x.S
    requires sk.Length == x.S && d.Length == x.S && state != sk && state != d && sk != d
    modifies state, sk, d
    ensures forall i, j | 0 <= i < x.S && 0 <= j < x.S ::
              Entry(state[..], x.S, h * x.S, i, j) == Next(x, old(state[..]), t, h, j)(i)
    ensures OnlyBlock(old(state[..]), state[..], x.S, h * x.S, x.S)
  {
    hide Dot, Cell, MulAdd, Scaled, Delta, Next, Times;
    ghost var was := state[..];
    var S, tr, first := x.S, t * x.H + h, h * x.S;
    TokenBounds(x, t, h);
    PredictHead(x, t, h, state, sk, d);
    ghost var decayed := state[..];
    AddOuter(state, S, first, S, x.k, S, tr, 1.0, d[..], 0);
    forall i, j | 0 <= i < S && 0 <= j < S ensures Entry(state[..], S, first, i, j) == Next(x, was, t, h, j)(i) {
      FirstRow(d[..], S, j);
      StepEntry(x, was, t, h, j, i, Entry(decayed, S, first, i, j), d[j], Entry(state[..], S, first, i, j));
    }
  }

  /** The readout half: out[t,h,:] = s^T qs from the updated state. */
  method ReadHead(x: Net, t: nat, h: nat, state: array<real>, out: array<real>, qs: array<real>)
    requires x.Shaped() && t < x.T && h < x.H && state.Length == x.H * x.S * x.S && out.Length == x.T * x.H * x.S
    requires qs.Length == x.S && out != state && out != qs && qs != state
    modifies out, qs
    ensures forall j | 0 <= j < x.S ::
              Cell(out[..], x.S, t * x.H + h, j) == Dot(0, x.S, StateCol(x, state[..], h, j), x.HeadOf(h).qs(t))
    ensures OnlyRow(old(out[..]), out[..], x.S, t * x.H + h)
  {
    hide Dot, Cell, Scaled;
    var S, tr := x.S, t * x.H + h;
    TokenBounds(x, t, h);
    SetScaledRow(qs, S, 0, x.qScale, x.q, tr);
    FillRow(out, S, tr, 0.0);
    Accumulate(out, S, tr, state[..], h * S, S, qs[..], S, 0);
    forall j | 0 <= j < S ensures Cell(out[..], S, tr, j)
        == Dot(0, S, StateCol(x, state[..], h, j), x.HeadOf(h).qs(t)) {
      QueryRow(x, t, h, qs[..], StateCol(x, state[..], h, j));
    }
  }

  lemma QueryRow(x: Net, t: nat, h: nat, qs: seq<real>, col: int -> real)
    requires forall j | 0 <= j < x.S :: Cell(qs, x.S, 0, j) == Cell(x.q, x.S, t * x.H + h, j) * x.qScale
    ensures Dot(0, x.S, col, Row(qs, x.S, 0)) == Dot(0, x.S, col, x.HeadOf(h).qs(t))
  {
    hide Dot, Cell;
    DotAgree(0, x.S, col, col, Row(qs, x.S, 0), x.HeadOf(h).qs(t));
  }

  /** Mid-token state: heads before h have taken token t, the others have not. */
  ghost predicate StateUpTo(x: Net, init: seq<real>, state: seq<real>, t: nat, h: nat) {
    HeadsAre(x, init, state, 0, h, t + 1) && HeadsAre(x, init, state, h, x.H, t)
  }

  ghost predicate HeadsAre(x: Net, init: seq<real>, state: seq<real>, lo: int, hi: int, n: nat) {
    forall h | lo <= h < hi :: HeadIs(x, init, state, h, n)
  }

  /** Output rows before (t,h) in loop order are final. */
  ghost predicate OutUpTo(x: Net, init: seq<real>, out: seq<real>, t: nat, h: nat) {
    forall t', h' | 0 <= t' <= t && 0 <= h' < x.H && (t' < t || h' < h) :: RowIs(x, init, out, t', h')
  }

  method GatedDeltaNetRecurrent(x: Net, state: array<real>, out: array<real>)
    requires x.Shaped() && state.Length == x.H * x.S * x.S && out.Length == x.T * x.H * x.S && state != out
    modifies state, out
    ensures state[..] == FinalState(x, old(state[..]))
    ensures out[..] == Output(x, old(state[..]))
  {
    hide HeadIs, RowIs, StateAfter, Output;
    ghost var init := state[..];
    var sk, d, qs := new real[x.S], new real[x.S], new real[x.S];
    forall h | 0 <= h < x.H ensures HeadIs(x, init, state[..], h, 0) { HeadStart(x, init, h); }
    for t := 0 to x.T
      invariant StateUpTo(x, init, state[..], t, 0) && OutUpTo(x, init, out[..], t, 0)
    {
      for h := 0 to x.H
        invariant StateUpTo(x, init, state[..], t, h) && OutUpTo(x, init, out[..], t, h)
      {
        ghost var s0, o0 := state[..], out[..];
        UpdateHead(x, t, h, state, sk, d);
        StateStep(x, init, s0, state[..], t, h);
        ReadHead(x, t, h, state, out, qs);
        OutStep(x, init, state[..], o0, out[..], t, h);
      }
    }
    StateFromHeads(x, init, state[..], x.T);
    OutFromRows(x, init, out[..]);
  }

  lemma StateStep(x: Net, init: seq<real>, s0: seq<real>, s1: seq<real>, t: nat, h: nat)
    requires h < x.H && StateUpTo(x, init, s0, t, h) && OnlyBlock(s0, s1, x.S, h * x.S, x.S)
    requires forall i, j | 0 <= i < x.S && 0 <= j < x.S :: Entry(s1, x.S, h * x.S, i, j) == Next(x, s0, t, h, j)(i)
    ensures StateUpTo(x, init, s1, t, h + 1)
  {
    hide HeadIs;
    HeadAdvance(x, init, s0, s1, t, h);
    HeadsKept(x, init, s0, s1, h, 0, h, t + 1);
    HeadsKept(x, init, s0, s1, h, h + 1, x.H, t);
  }

  lemma HeadsKept(x: Net, init: seq<real>, s0: seq<real>, s1: seq<real>, h: nat, lo: nat, hi: nat, n: nat)
    requires OnlyBlock(s0, s1, x.S, h * x.S, x.S) && HeadsAre(x, init, s0, lo, hi, n) && !(lo <= h < hi)
    ensures HeadsAre(x, init, s1, lo, hi, n)
  {
    hide HeadIs;
    forall h' | lo <= h' < hi ensures HeadIs(x, init, s1, h', n) { HeadKept(x, init, s0, s1, h, h', n); }
  }

  lemma OutStep(x: Net, init: seq<real>, s1: seq<real>, o0: seq<real>, o1: seq<real>, t: nat, h: nat)
    requires h < x.H && OutUpTo(x, init, o0, t, h) && OnlyRow(o0, o1, x.S, t * x.H + h) && HeadIs(x, init, s1, h, t + 1)
    requires forall j | 0 <= j < x.S ::
        Cell(o1, x.S, t * x.H + h, j) == Dot(0, x.S, StateCol(x, s1, h, j), x.HeadOf(h).qs(t))
    ensures OutUpTo(x, init, o1, t, h + 1)
  {
    hide HeadIs, RowIs;
    RowAdvance(x, init, s1, o1, t, h);
    forall t', h' | 0 <= t' <= t && 0 <= h' < x.H && (t' < t || h' < h) ensures RowIs(x, init, o1, t', h') {
      RowKept(x, init, o0, o1, t, h, t', h');
    }
  }

  lemma HeadStart(x: Net, init: seq<real>, h: int)
    ensures HeadIs(x, init, init, h, 0)
  {
    hide Cell;
  }

  /** One state update turns "after t tokens" into "after t+1 tokens". */
  lemma HeadAdvance(x: Net, init: seq<real>, s0: seq<real>, s1: seq<real>, t: nat, h: int)
    requires HeadIs(x, init, s0, h, t)
    requires forall i, j | 0 <= i < x.S && 0 <= j < x.S :: Entry(s1, x.S, h * x.S, i, j) == Next(x, s0, t, h, j)(i)
    ensures HeadIs(x, init, s1, h, t + 1)
  {
    hide Cell, Step, Entry;
    forall i, j | 0 <= i < x.S && 0 <= j < x.S ensures Entry(s1, x.S, h * x.S, i, j)
        == StateAt(x, init, h, i, j, t + 1) {
      var col := Col(x.HeadOf(h), j, StateCol(x, init, h, j), 0, t);
      forall i' | 0 <= i' < x.S ensures StateCol(x, s0, h, j)(i') == col(i') {
        assert Entry(s0, x.S, h * x.S, i', j) == StateAt(x, init, h, i', j, t);
      }
      StepAgree(x.HeadOf(h), j, StateCol(x, s0, h, j), col, t);
    }
  }

  /** The other heads' blocks are disjoint from head h's. */
  lemma HeadKept(x: Net, init: seq<real>, s0: seq<real>, s1: seq<real>, h: nat, h': nat, n: nat)
    requires HeadIs(x, init, s0, h', n) && h' != h && OnlyBlock(s0, s1, x.S, h * x.S, x.S)
    ensures HeadIs(x, init, s1, h', n)
  {
    hide Cell, StateAt;
    if h < h' { RowOrder(h, h', x.S); } else { RowOrder(h', h, x.S); }
    forall i, j | 0 <= i < x.S && 0 <= j < x.S ensures Entry(s1, x.S, h' * x.S, i, j)
        == Entry(s0, x.S, h' * x.S, i, j) {
    }
  }

  lemma RowAdvance(x: Net, init: seq<real>, s1: seq<real>, out: seq<real>, t: nat, h: int)
    requires HeadIs(x, init, s1, h, t + 1)
    requires forall j | 0 <= j < x.S ::
        Cell(out, x.S, t * x.H + h, j) == Dot(0, x.S, StateCol(x, s1, h, j), x.HeadOf(h).qs(t))
    ensures RowIs(x, init, out, t, h)
  {
    hide Cell, Col, Dot, Entry;
    forall j | 0 <= j < x.S ensures Cell(out, x.S, t * x.H + h, j) == OutAt(x, init, t, h, j) {
      var col := Col(x.HeadOf(h), j, StateCol(x, init, h, j), 0, t + 1);
      forall i | 0 <= i < x.S ensures StateCol(x, s1, h, j)(i) == col(i) {
        assert Entry(s1, x.S, h * x.S, i, j) == StateAt(x, init, h, i, j, t + 1);
      }
      DotAgree(0, x.S, StateCol(x, s1, h, j), col, x.HeadOf(h).qs(t), x.HeadOf(h).qs(t));
    }
  }

  /** Distinct (token, head) pairs are distinct rows. */
  lemma RowKept(x: Net, init: seq<real>, o0: seq<real>, o1: seq<real>, t: nat, h: nat, t': nat, h': nat)
    requires RowIs(x, init, o0, t', h') && OnlyRow(o0, o1, x.S, t * x.H + h)
    requires h < x.H && h' < x.H && (t' != t || h' != h)
    ensures RowIs(x, init, o1, t', h')
  {
    hide Cell, OutAt;
    if t != t' { RowsApart(t, t', x.H, h, h'); }
  }

  lemma TokenBounds(x: Net, t: nat, h: nat)
    requires x.Shaped() && t < x.T && h < x.H
    ensures 0 <= t * x.H + h
    ensures HasRow(x.T * x.H * x.S, x.S, t * x.H + h)
    ensures HasRow(x.T * x.H, x.H, t)
    ensures 0 <= h * x.S && HasBlock(x.H * x.S * x.S, x.S, h * x.S, x.S)
  {
    RowBound(t, x.T, x.H);
    RowBound(t * x.H + h, x.T * x.H, x.S);
    RowBound(h, x.H, x.S);
    RowBoundLe(h * x.S + x.S, x.H * x.S, x.S);
  }

  /** Row 0 of a width-w buffer is the buffer. */
  lemma FirstRow(s: seq<real>, w: nat, j: int)
    requires |s| == w && 0 <= j < w
    ensures Cell(s, w, 0, j) == s[j]
  {
  }

  lemma ZeroRow(s: seq<real>, w: nat)
    requires |s| == w && forall j | 0 <= j < w :: Cell(s, w, 0, j) == 0.0
    ensures forall j | 0 <= j < w :: s[j] == 0.0
  {
    forall j | 0 <= j < w ensures s[j] == 0.0 { assert Cell(s, w, 0, j) == 0.0; }
  }

  lemma StepEntry(x: Net, was: seq<real>, t: nat, h: nat, j: int, i: int, decayed: real, dj: real, after: real)
    requires decayed == Times(Entry(was, x.S, h * x.S, i, j), x.exp(x.HeadOf(h).g(t)))
    requires dj == Delta(x.HeadOf(h), j, StateCol(x, was, h, j), t)
    requires after == MulAdd(decayed, dj, Scaled(1.0, Row(x.k, x.S, t * x.H + h))(i))
    ensures after == Next(x, was, t, h, j)(i)
  {
    hide Delta, Cell;
  }
}
