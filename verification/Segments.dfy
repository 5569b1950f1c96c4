/** Cutting a token stream into calls: each call may use any form and any chunk size, and the carried
    state makes the whole equal to one pass. */
module Segments {
  import opened Sums
  import opened Buffers
  import opened Cuts
  import opened Exponential
  import opened DeltaSpec
  import opened DeltaNet
  import Recurrent
  import Chunked
  import ThreeStage

  /** Tokens a .. b-1 of x as a call of their own: the pointers advance by whole token rows. */
  function Slice(x: Net, a: nat, b: nat): Net
    requires a <= b <= x.T && |x.q| == |x.k| == |x.v| == x.T * x.H * x.S && |x.gLog| == |x.beta| == x.T * x.H
  {
    TokensFit(a, b, x.T, x.H, x.S);
    x.(T := b - a, q := x.q[a * x.H * x.S..b * x.H * x.S], k := x.k[a * x.H * x.S..b * x.H * x.S],
       v := x.v[a * x.H * x.S..b * x.H * x.S], gLog := x.gLog[a * x.H..b * x.H], beta := x.beta[a * x.H..b * x.H])
  }

  /** Token t of `y` is token a+t of `x`, as far as the state and column j are concerned. */
  ghost predicate SameToken(y: Head, x: Head, a: int, t: int, j: int) {
    && y.S == x.S && y.exp == x.exp && y.g(t) == x.g(a + t) && y.b(t) == x.b(a + t)
    && y.v(t)(j) == x.v(a + t)(j) && Agree(0, x.S, y.k(t), x.k(a + t))
  }

  lemma SliceScalars(x: Net, a: nat, b: nat, t: nat, h: nat, j: nat)
    requires x.Shaped() && a <= b <= x.T && t < b - a && h < x.H && j < x.S
    ensures var y, z := Slice(x, a, b).HeadOf(h), x.HeadOf(h);
            y.S == z.S && y.exp == z.exp && y.g(t) == z.g(a + t) && y.b(t) == z.b(a + t) && y.v(t)(j) == z.v(a + t)(j)
  {
    hide Cell;
    SliceGate(x.gLog, x.T, x.H, a, b, t, h);
    SliceGate(x.beta, x.T, x.H, a, b, t, h);
    SliceCell(x.v, x.T, x.H, x.S, a, b, t, h, j);
  }

  lemma SliceKey(x: Net, a: nat, b: nat, t: nat, h: nat, i: nat)
    requires x.Shaped() && a <= b <= x.T && t < b - a && h < x.H && i < x.S
    ensures Slice(x, a, b).HeadOf(h).k(t)(i) == x.HeadOf(h).k(a + t)(i)
  {
    hide Cell;
    SliceCell(x.k, x.T, x.H, x.S, a, b, t, h, i);
  }

  lemma SliceQuery(x: Net, a: nat, b: nat, t: nat, h: nat, i: nat)
    requires x.Shaped() && a <= b <= x.T && t < b - a && h < x.H && i < x.S
    ensures Slice(x, a, b).HeadOf(h).qs(t)(i) == x.HeadOf(h).qs(a + t)(i)
  {
    hide Cell;
    SliceCell(x.q, x.T, x.H, x.S, a, b, t, h, i);
  }

  lemma SliceToken(x: Net, a: nat, b: nat, t: nat, h: nat, j: nat)
    requires x.Shaped() && a <= b <= x.T && t < b - a && h < x.H && j < x.S
    ensures SameToken(Slice(x, a, b).HeadOf(h), x.HeadOf(h), a, t, j)
  {
    hide Slice, Net.HeadOf;
    SliceScalars(x, a, b, t, h, j);
    HeadSize(x, h);
    forall i | 0 <= i < x.S ensures Slice(x, a, b).HeadOf(h).k(t)(i) == x.HeadOf(h).k(a + t)(i) {
      SliceKey(x, a, b, t, h, i);
    }
  }

  lemma HeadSize(x: Net, h: nat)
    ensures x.HeadOf(h).S == x.S
  {
  }

  /** Equal tokens from agreeing columns give agreeing columns. */
  lemma {:induction false} ColSame(y: Head, x: Head, a: int, j: int, s: int -> real, s': int -> real, n: nat)
    requires Agree(0, x.S, s, s')
    requires forall t | 0 <= t < n :: SameToken(y, x, a, t, j)
    ensures Agree(0, x.S, Col(y, j, s, 0, n), Col(x, j, s', a, n))
  {
    hide Dot, Step, SameToken, Agree;
    if n > 0 {
      ColSame(y, x, a, j, s, s', n - 1);
      assert SameToken(y, x, a, n - 1, j);
      StepSame(y, x, a, n - 1, j, Col(y, j, s, 0, n - 1), Col(x, j, s', a, n - 1));
    }
  }

  lemma StepSame(y: Head, x: Head, a: int, t: int, j: int, s: int -> real, s': int -> real)
    requires SameToken(y, x, a, t, j) && Agree(0, x.S, s, s')
    ensures Agree(0, x.S, Step(y, j, s, t), Step(x, j, s', a + t))
  {
    hide Dot;
    var e := x.exp(x.g(a + t));
    DotAgree(0, x.S, Scaled(e, s), Scaled(e, s'), y.k(t), x.k(a + t));
  }

  /** Running the slice [a,b) from the state after a tokens reaches the state after n more. */
  lemma SliceColumn(x: Net, init: seq<real>, a: nat, b: nat, h: nat, j: nat, n: nat)
    requires x.Shaped() && a <= b <= x.T && n <= b - a && h < x.H && j < x.S
    ensures Agree(0, x.S, Col(Slice(x, a, b).HeadOf(h), j, StateCol(x, StateAfter(x, init, a), h, j), 0, n),
                  Col(x.HeadOf(h), j, StateCol(x, init, h, j), 0, a + n))
  {
    hide Cell, Dot, Slice, StateAfter, Net.HeadOf, SameToken, Step;
    var y, z, s := Slice(x, a, b).HeadOf(h), x.HeadOf(h), StateCol(x, init, h, j);
    HeadSize(x, h);
    CarriedColumn(x, init, a, h, j);
    forall t | 0 <= t < n ensures SameToken(y, z, a, t, j) { SliceToken(x, a, b, t, h, j); }
    ColSame(y, z, a, j, StateCol(x, StateAfter(x, init, a), h, j), Col(z, j, s, 0, a), n);
    ColCompose(z, j, s, 0, a, n);
  }

  lemma CarriedColumn(x: Net, init: seq<real>, a: nat, h: nat, j: nat)
    requires h < x.H && j < x.S
    ensures Agree(0, x.S, StateCol(x, StateAfter(x, init, a), h, j), Col(x.HeadOf(h), j, StateCol(x, init, h, j), 0, a))
  {
    hide Cell, Col, StateAfter;
    forall i | 0 <= i < x.S
      ensures StateCol(x, StateAfter(x, init, a), h, j)(i) == Col(x.HeadOf(h), j, StateCol(x, init, h, j), 0, a)(i)
    {
      StateCell(x, init, a, h, i, j);
    }
  }

  /** The state carried out of a slice is the whole run's state at its end. */
  lemma SliceState(x: Net, init: seq<real>, a: nat, b: nat)
    requires x.Shaped() && a <= b <= x.T && |init| == x.H * x.S * x.S
    ensures Slice(x, a, b).Shaped()
    ensures FinalState(Slice(x, a, b), StateAfter(x, init, a)) == StateAfter(x, init, b)
  {
    hide StateAfter;
    TokensFit(a, b, x.T, x.H, x.S);
    var y, mid := Slice(x, a, b), StateAfter(x, init, a);
    forall h | 0 <= h < x.H ensures HeadIs(x, init, FinalState(y, mid), h, b) {
      SliceHead(x, init, a, b, h);
    }
    StateFromHeads(x, init, FinalState(y, mid), b);
  }

  lemma SliceHead(x: Net, init: seq<real>, a: nat, b: nat, h: nat)
    requires x.Shaped() && a <= b <= x.T && h < x.H
    ensures HeadIs(x, init, FinalState(Slice(x, a, b), StateAfter(x, init, a)), h, b)
  {
    hide Cell, Col, StateAfter, Net.HeadOf;
    var y, mid := Slice(x, a, b), StateAfter(x, init, a);
    forall i, j | 0 <= i < x.S && 0 <= j < x.S
      ensures Entry(FinalState(y, mid), x.S, h * x.S, i, j) == StateAt(x, init, h, i, j, b)
    {
      StateCell(y, mid, b - a, h, i, j);
      SliceColumn(x, init, a, b, h, j, b - a);
    }
  }

  lemma OutputCell(x: Net, init: seq<real>, t: nat, h: nat, j: nat)
    requires t < x.T && h < x.H && j < x.S
    ensures Cell(Output(x, init), x.S, t * x.H + h, j) == OutAt(x, init, t, h, j)
  {
    hide OutAt;
    RowBound(t, x.T, x.H);
    RowBound(t * x.H + h, x.T * x.H, x.S);
    DivMod(t, x.H, h);
    DivMod(t * x.H + h, x.S, j);
  }

  /** A slice's outputs are the whole run's outputs for its tokens. */
  lemma SliceOut(x: Net, init: seq<real>, a: nat, b: nat, t: nat, h: nat, j: nat)
    requires x.Shaped() && a <= b <= x.T && t < b - a && h < x.H && j < x.S
    ensures OutAt(Slice(x, a, b), StateAfter(x, init, a), t, h, j) == OutAt(x, init, a + t, h, j)
  {
    hide Cell, Col, Dot, StateAfter, Net.HeadOf, Slice;
    SliceColumn(x, init, a, b, h, j, t + 1);
    var y, z := Slice(x, a, b).HeadOf(h), x.HeadOf(h);
    HeadSize(x, h);
    HeadSize(Slice(x, a, b), h);
    SliceSize(x, a, b);
    forall i | 0 <= i < x.S ensures y.qs(t)(i) == z.qs(a + t)(i) { SliceQuery(x, a, b, t, h, i); }
    DotAgree(0, x.S, Col(y, j, StateCol(x, StateAfter(x, init, a), h, j), 0, t + 1),
             Col(z, j, StateCol(x, init, h, j), 0, a + t + 1), y.qs(t), z.qs(a + t));
  }

  lemma SliceSize(x: Net, a: nat, b: nat)
    requires x.Shaped() && a <= b <= x.T
    ensures Slice(x, a, b).S == x.S && Slice(x, a, b).H == x.H && Slice(x, a, b).T == b - a
            && Slice(x, a, b).exp == x.exp
    ensures Slice(x, a, b).Shaped()
  {
    TokensFit(a, b, x.T, x.H, x.S);
  }

  datatype Form = OneByOne | InChunks(size: nat) | Staged(size: nat)

  datatype Segment = Segment(tokens: nat, form: Form)

  /** The lengths of the segments. */
  function Sizes(segs: seq<Segment>): (ns: seq<nat>)
    ensures |ns| == |segs|
  {
    seq(|segs|, i requires 0 <= i < |segs| => segs[i].tokens)
  }

  /** One call in the chosen form. */
  method RunForm(x: Net, form: Form, state: array<real>) returns (out: seq<real>)
    requires x.Shaped() && IsExp(x.exp) && state.Length == x.H * x.S * x.S
    modifies state
    ensures state[..] == FinalState(x, old(state[..])) && out == Output(x, old(state[..]))
  {
    var buffer := new real[x.T * x.H * x.S];
    match form {
      case OneByOne => Recurrent.GatedDeltaNetRecurrent(x, state, buffer);
      case InChunks(size) => Chunked.GatedDeltaNetChunk(x, size, state, buffer);
      case Staged(size) => ThreeStage.GatedDeltaNetStaged(x, size, state, buffer);
    }
    out := buffer[..];
  }

  /** Rows of the first n tokens are final. */
  ghost predicate OutsTo(x: Net, init: seq<real>, outs: seq<real>, n: nat) {
    |outs| == n * x.H * x.S && forall t, h | 0 <= t < n && 0 <= h < x.H :: RowIs(x, init, outs, t, h)
  }

  /** Any cutting, any mix of forms, any chunk sizes: the same state and outputs as one pass. */
  method RunSegments(x: Net, segs: seq<Segment>, state: array<real>) returns (outs: seq<real>)
    requires x.Shaped() && IsExp(x.exp) && state.Length == x.H * x.S * x.S && Sum(Sizes(segs)) == x.T
    modifies state
    ensures state[..] == FinalState(x, old(state[..])) && outs == Output(x, old(state[..]))
  {
    hide StateAfter, Output, RowIs, Slice;
    ghost var init := state[..];
    ghost var sizes := Sizes(segs);
    var done := 0;
    outs := [];
    StartState(x, init);
    for n := 0 to |segs|
      invariant done == Sum(sizes[..n]) <= x.T
      invariant state[..] == StateAfter(x, init, done) && OutsTo(x, init, outs, done)
    {
      SumMonotone(sizes, n + 1);
      assert sizes[..n + 1][..n] == sizes[..n];
      var next := done + segs[n].tokens;
      var part := Slice(x, done, next);
      SliceSize(x, done, next);
      SliceState(x, init, done, next);
      var out := RunForm(part, segs[n].form, state);
      AppendOuts(x, init, outs, done, next);
      outs := outs + out;
      done := next;
    }
    assert sizes[..|segs|] == sizes;
    OutFromRows(x, init, outs);
  }

  lemma StartState(x: Net, init: seq<real>)
    requires |init| == x.H * x.S * x.S
    ensures StateAfter(x, init, 0) == init
  {
    hide StateAfter;
    forall h | 0 <= h < x.H ensures HeadIs(x, init, init, h, 0) { Recurrent.HeadStart(x, init, h); }
    StateFromHeads(x, init, init, 0);
  }

  lemma AppendOuts(x: Net, init: seq<real>, outs: seq<real>, a: nat, b: nat)
    requires x.Shaped() && a <= b <= x.T && OutsTo(x, init, outs, a)
    ensures OutsTo(x, init, outs + Output(Slice(x, a, b), StateAfter(x, init, a)), b)
  {
    hide Cell, Slice, StateAfter, Output, OutAt;
    var y, mid := Slice(x, a, b), StateAfter(x, init, a);
    SliceSize(x, a, b);
    TokensFit(a, b, x.T, x.H, x.S);
    var all := outs + Output(y, mid);
    forall t, h | 0 <= t < b && 0 <= h < x.H ensures RowIs(x, init, all, t, h) {
      forall j | 0 <= j < x.S ensures Cell(all, x.S, t * x.H + h, j) == OutAt(x, init, t, h, j) {
        if t < a {
          assert RowIs(x, init, outs, t, h);
          FrontCell(outs, Output(y, mid), a, x.H, x.S, t, h, j);
        } else {
          BackCell(outs, Output(y, mid), a, b - a, x.H, x.S, t - a, h, j);
          OutputCell(y, mid, t - a, h, j);
          SliceOut(x, init, a, b, t - a, h, j);
        }
      }
    }
  }

  /** The state never depends on q. */
  lemma QueriesIrrelevant(x: Net, q: seq<real>, init: seq<real>, n: nat)
    ensures StateAfter(x.(q := q), init, n) == StateAfter(x, init, n)
  {
    hide StateAfter, Cell;
    var y := x.(q := q);
    forall h | 0 <= h < x.H ensures HeadIs(x, init, StateAfter(y, init, n), h, n) {
      forall i, j | 0 <= i < x.S && 0 <= j < x.S
        ensures Entry(StateAfter(y, init, n), x.S, h * x.S, i, j) == StateAt(x, init, h, i, j, n)
      {
        StateCell(y, init, n, h, i, j);
        QueryBlind(x, q, h, j, StateCol(x, init, h, j), n);
      }
    }
    StateFromHeads(x, init, StateAfter(y, init, n), n);
  }

  lemma QueryBlind(x: Net, q: seq<real>, h: int, j: int, s: int -> real, n: nat)
    ensures Agree(0, x.S, Col(x.(q := q).HeadOf(h), j, s, 0, n), Col(x.HeadOf(h), j, s, 0, n))
  {
    hide Cell, Col;
    var y, z := x.(q := q).HeadOf(h), x.HeadOf(h);
    forall t | 0 <= t < n ensures SameToken(y, z, 0, t, j) { }
    ColSame(y, z, 0, j, s, s, n);
  }

  /** Replaying an accepted prefix of p tokens from the old state, with whatever queries, gives the
      state after exactly those tokens. */
  lemma ReplayPrefix(x: Net, init: seq<real>, p: nat, q: seq<real>)
    requires x.Shaped() && p <= x.T && |init| == x.H * x.S * x.S
    ensures FinalState(Slice(x, 0, p).(q := q), init) == StateAfter(x, init, p)
  {
    hide StateAfter;
    StartState(x, init);
    SliceState(x, init, 0, p);
    QueriesIrrelevant(Slice(x, 0, p), q, init, p);
  }
}
