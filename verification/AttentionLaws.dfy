/** What callers of multiHeadAttention rely on: window locality, bounded outputs, and decode steps
    against a growing cache equal to one prefill. */
module AttentionLaws {
  import opened Sums
  import opened Buffers
  import opened Exponential
  import opened Softmax
  import opened Attention
  import opened Cuts

  function Query(a: Attn, p: int, hq: nat): int -> real { Row(a.q, a.D, p * a.nHeads + hq) }

  function Key(a: Attn, hq: nat, kk: int): int -> real
    requires a.nHeads > 0
  {
    Row(a.k, a.D, kk * a.nKv + KvHead(a, hq))
  }

  function Value(a: Attn, hq: nat, kk: int): int -> real
    requires a.nHeads > 0
  {
    Row(a.v, a.D, kk * a.nKv + KvHead(a, hq))
  }

  /** Query row p of `a` and p' of `b` match, as do their keys and values on [lo, hi). */
  ghost predicate SameWindow(a: Attn, b: Attn, p: int, p': int, hq: nat, lo: int, hi: int)
    requires a.nHeads > 0
  {
    && b == a.(q := b.q, k := b.k, v := b.v)
    && Agree(0, a.D, Query(b, p', hq), Query(a, p, hq))
    && (forall kk | lo <= kk < hi :: Agree(0, a.D, Key(b, hq, kk), Key(a, hq, kk)))
    && (forall kk | lo <= kk < hi :: Agree(0, a.D, Value(b, hq, kk), Value(a, hq, kk)))
  }

  /** An output row depends only on its query row and the keys and values inside its window. */
  lemma WindowLocal(a: Attn, b: Attn, p: int, p': int, hq: nat, lo: int, hi: int, d: int)
    requires a.nHeads > 0 && 0 <= d < a.D && SameWindow(a, b, p, p', hq, lo, hi)
    ensures HeadOut(b, p', hq, lo, hi, d) == HeadOut(a, p, hq, lo, hi, d)
  {
    hide Dot, Mean, Row, Agree, Scores, Values;
    var kvh, row, row' := KvHead(a, hq), p * a.nHeads + hq, p' * a.nHeads + hq;
    forall kk | lo <= kk < hi ensures Scores(b, row', kvh)(kk)
        == Scores(a, row, kvh)(kk) { ScoreLocal(a, b, p, p', hq, kk, lo, hi); }
    forall kk | lo <= kk < hi ensures Values(b, kvh, d)(kk)
        == Values(a, kvh, d)(kk) { ValueLocal(a, b, p, p', hq, kk, lo, hi, d); }
    AgreeOn(lo, hi, Scores(b, row', kvh), Scores(a, row, kvh));
    AgreeOn(lo, hi, Values(b, kvh, d), Values(a, kvh, d));
    MeanLocal(a.exp, lo, hi, Scores(b, row', kvh), Scores(a, row, kvh), Values(b, kvh, d), Values(a, kvh, d));
  }

  lemma AgreeOn(lo: int, hi: int, f: int -> real, g: int -> real)
    requires forall i | lo <= i < hi :: f(i) == g(i)
    ensures Agree(lo, hi, f, g)
  {
  }

  lemma ScoreLocal(a: Attn, b: Attn, p: int, p': int, hq: nat, kk: int, lo: int, hi: int)
    requires a.nHeads > 0 && SameWindow(a, b, p, p', hq, lo, hi) && lo <= kk < hi
    ensures Scores(b, p' * a.nHeads + hq, KvHead(a, hq))(kk) == Scores(a, p * a.nHeads + hq, KvHead(a, hq))(kk)
  {
    hide Dot, Row, Agree;
    DotAgree(0, a.D, Query(b, p', hq), Query(a, p, hq), Key(b, hq, kk), Key(a, hq, kk));
  }

  lemma ValueLocal(a: Attn, b: Attn, p: int, p': int, hq: nat, kk: int, lo: int, hi: int, d: int)
    requires a.nHeads > 0 && 0 <= d < a.D && SameWindow(a, b, p, p', hq, lo, hi) && lo <= kk < hi
    ensures Values(b, KvHead(a, hq), d)(kk) == Values(a, KvHead(a, hq), d)(kk)
  {
    hide Cell;
    assert Agree(0, a.D, Value(b, hq, kk), Value(a, hq, kk));
    assert Value(b, hq, kk)(d) == Value(a, hq, kk)(d);
  }

  /** Every output coordinate lies between the least and the greatest V in its window. */
  lemma OutputBounded(a: Attn, p: int, hq: nat, lo: int, hi: int, d: int, least: real, greatest: real)
    requires a.nHeads > 0 && IsExp(a.exp) && lo < hi
    requires forall kk | lo <= kk < hi :: least <= Value(a, hq, kk)(d) <= greatest
    ensures least <= HeadOut(a, p, hq, lo, hi, d) <= greatest
  {
    hide Cell, Mean, KvHead, Scores;
    var kvh := KvHead(a, hq);
    forall kk | lo <= kk < hi ensures least <= Values(a, kvh, d)(kk) <= greatest {
      assert least <= Value(a, hq, kk)(d) <= greatest;
    }
    MeanBounded(a.exp, lo, hi, Scores(a, p * a.nHeads + hq, kvh), Values(a, kvh, d), least, greatest);
  }

  /** Finished rows determine the buffer. */
  lemma RowsDetermine(a: Attn, o1: seq<real>, o2: seq<real>, Tq: nat, offset: nat, Tk: nat, window: nat)
    requires a.nHeads > 0 && |o1| == |o2| == Tq * a.nHeads * a.D
    requires forall p, hq | 0 <= p < Tq && 0 <= hq < a.nHeads :: RowDone(a, o1, p, hq, offset, Tk, window)
    requires forall p, hq | 0 <= p < Tq && 0 <= hq < a.nHeads :: RowDone(a, o2, p, hq, offset, Tk, window)
    ensures o1 == o2
  {
    forall i | 0 <= i < |o1| ensures o1[i] == o2[i] {
      QuotientBound(i, a.D, Tq * a.nHeads);
      CellOf(i, a.D);
      QuotientBound(i / a.D, a.nHeads, Tq);
      CellOf(i / a.D, a.nHeads);
      SameCell(a, o1, o2, i / a.D / a.nHeads, i / a.D % a.nHeads, offset, Tk, window, i % a.D);
    }
  }

  lemma SameCell(a: Attn, o1: seq<real>, o2: seq<real>, p: nat, hq: nat, offset: nat, Tk: nat, window: nat, d: nat)
    requires a.nHeads > 0 && d < a.D && RowDone(a, o1, p, hq, offset, Tk, window)
             && RowDone(a, o2, p, hq, offset, Tk, window)
    ensures Cell(o1, a.D, p * a.nHeads + hq, d) == Cell(o2, a.D, p * a.nHeads + hq, d)
  {
    hide Cell, HeadOut, WindowStart, WindowEnd;
    var lo, hi := WindowStart(offset + p, Tk, window), WindowEnd(offset + p, Tk);
    assert RowOut(a, o1, p, hq, lo, hi) && RowOut(a, o2, p, hq, lo, hi);
    assert OutAt(a, o1, p, hq, d) == HeadOut(a, p, hq, lo, hi, d);
  }

  /** The call for tokens s .. e-1 once the cache holds e rows. */
  function Step(a: Attn, T: nat, s: nat, e: nat): Attn
    requires a.Shaped(T, T) && s <= e <= T
  {
    TokensFit(s, e, T, a.nHeads, a.D);
    TokensFit(0, e, T, a.nKv, a.D);
    a.(q := a.q[s * a.nHeads * a.D..e * a.nHeads * a.D], k := a.k[..e * a.nKv * a.D], v := a.v[..e * a.nKv * a.D])
  }

  lemma StepShaped(a: Attn, T: nat, s: nat, e: nat)
    requires a.Shaped(T, T) && s <= e <= T
    ensures Step(a, T, s, e).Shaped(e - s, e)
    ensures Step(a, T, s, e) == a.(q := Step(a, T, s, e).q, k := Step(a, T, s, e).k, v := Step(a, T, s, e).v)
  {
    TokensFit(s, e, T, a.nHeads, a.D);
    TokensFit(0, e, T, a.nKv, a.D);
  }

  lemma PrefixCell(s: seq<real>, T: nat, e: nat, n: nat, D: nat, kk: nat, g: nat, i: nat)
    requires e <= T && |s| == T * n * D && kk < e && g < n && i < D
    ensures 0 <= e * n * D <= |s|
    ensures Cell(s[..e * n * D], D, kk * n + g, i) == Cell(s, D, kk * n + g, i)
  {
    TokensFit(0, e, T, n, D);
    RowBound(kk, e, n);
    RowBound(kk * n + g, e * n, D);
  }

  /** Token s+t of the whole sequence and token t of its step see the same window. */
  lemma StepWindow(a: Attn, T: nat, s: nat, e: nat, t: nat, hq: nat, lo: nat, hi: nat)
    requires a.ValidHeads() && a.Shaped(T, T) && s <= e <= T && t < e - s && hq < a.nHeads && hi <= e
    ensures SameWindow(a, Step(a, T, s, e), s + t, t, hq, lo, hi)
  {
    hide Cell, Row, Step, KvHead;
    StepShaped(a, T, s, e);
    StepQuery(a, T, s, e, t, hq);
    forall kk | lo <= kk < hi
      ensures Agree(0, a.D, Key(Step(a, T, s, e), hq, kk), Key(a, hq, kk))
      ensures Agree(0, a.D, Value(Step(a, T, s, e), hq, kk), Value(a, hq, kk))
    {
      StepKeyValue(a, T, s, e, hq, kk);
    }
  }

  lemma StepQuery(a: Attn, T: nat, s: nat, e: nat, t: nat, hq: nat)
    requires a.ValidHeads() && a.Shaped(T, T) && s <= e <= T && t < e - s && hq < a.nHeads
    ensures Agree(0, a.D, Query(Step(a, T, s, e), t, hq), Query(a, s + t, hq))
  {
    hide Cell;
    forall i | 0 <= i < a.D ensures Query(Step(a, T, s, e), t, hq)(i) == Query(a, s + t, hq)(i) {
      SliceCell(a.q, T, a.nHeads, a.D, s, e, t, hq, i);
    }
  }

  lemma StepKeyValue(a: Attn, T: nat, s: nat, e: nat, hq: nat, kk: nat)
    requires a.ValidHeads() && a.Shaped(T, T) && s <= e <= T && hq < a.nHeads && kk < e
    ensures Agree(0, a.D, Key(Step(a, T, s, e), hq, kk), Key(a, hq, kk))
    ensures Agree(0, a.D, Value(Step(a, T, s, e), hq, kk), Value(a, hq, kk))
  {
    var g := KvHead(a, hq);
    KvHeadBound(a, hq);
    assert KvHead(Step(a, T, s, e), hq) == g;
    hide Cell, KvHead;
    PrefixRow(a.k, T, e, a.nKv, a.D, kk, g);
    PrefixRow(a.v, T, e, a.nKv, a.D, kk, g);
  }

  lemma PrefixRow(s: seq<real>, T: nat, e: nat, n: nat, D: nat, kk: nat, g: nat)
    requires e <= T && |s| == T * n * D && kk < e && g < n
    ensures 0 <= e * n * D <= |s|
    ensures Agree(0, D, Row(s[..e * n * D], D, kk * n + g), Row(s, D, kk * n + g))
  {
    hide Cell;
    TokensFit(0, e, T, n, D);
    var short, long := Row(s[..e * n * D], D, kk * n + g), Row(s, D, kk * n + g);
    forall i | 0 <= i < D ensures short(i) == long(i) {
      PrefixCell(s, T, e, n, D, kk, g, i);
    }
  }

  /** A step's row is the prefill row of the same token. */
  lemma StepRow(a: Attn, T: nat, s: nat, e: nat, t: nat, hq: nat, window: nat, out: seq<real>, d: nat)
    requires a.ValidHeads() && a.Shaped(T, T) && s <= e <= T && t < e - s && hq < a.nHeads && d < a.D
    requires RowDone(Step(a, T, s, e), out, t, hq, s, e, window)
    ensures OutAt(a, out, t, hq, d)
         == HeadOut(a, s + t, hq, WindowStart(s + t, T, window), WindowEnd(s + t, T), d)
  {
    var lo, hi := WindowStart(s + t, T, window), WindowEnd(s + t, T);
    assert lo == WindowStart(s + t, e, window) && hi == WindowEnd(s + t, e);
    hide Cell, HeadOut, WindowStart, WindowEnd, Step, SameWindow;
    StepShaped(a, T, s, e);
    StepWindow(a, T, s, e, t, hq, lo, hi);
    WindowLocal(a, Step(a, T, s, e), s + t, t, hq, lo, hi, d);
  }

  /** The first n rows are the prefill rows. */
  ghost predicate RowsTo(a: Attn, outs: seq<real>, n: nat, T: nat, window: nat)
    requires a.nHeads > 0
  {
    |outs| == n * a.nHeads * a.D && forall p, hq | 0 <= p < n && 0 <= hq < a.nHeads ::
        RowDone(a, outs, p, hq, 0, T, window)
  }

  /** Feed a sequence in steps of any sizes (all ones is token-by-token decode) against a growing
      key/value cache: every row is the row a single prefill call produces. */
  method RunSteps(a: Attn, T: nat, steps: seq<nat>, window: nat) returns (outs: seq<real>)
    requires a.ValidHeads() && a.Shaped(T, T) && IsExp(a.exp) && Sum(steps) == T
    ensures RowsTo(a, outs, T, T, window)
    ensures forall p: nat, hq: nat, lo, hi | p < T && hq < a.nHeads && hi == p + 1
              && lo == (if window == 0 || hi <= window then 0 else hi - window) :: RowOut(a, outs, p, hq, lo, hi)
  {
    hide RowDone, RowOut, Step;
    var done := 0;
    outs := [];
    for n := 0 to |steps|
      invariant done == Sum(steps[..n]) <= T && RowsTo(a, outs, done, T, window)
    {
      SumMonotone(steps, n + 1);
      assert steps[..n + 1][..n] == steps[..n];
      var next := done + steps[n];
      var call := Step(a, T, done, next);
      StepShaped(a, T, done, next);
      var scratch, out := new real[next], new real[(next - done) * a.nHeads * a.D];
      var r := MultiHeadAttention(call, next - done, next, done, scratch, out, window);
      AppendRows(a, T, outs, out[..], done, next, window);
      outs := outs + out[..];
      done := next;
    }
    assert steps[..|steps|] == steps;
    StepWindows(a, outs, T, window);
  }

  lemma StepWindows(a: Attn, outs: seq<real>, T: nat, window: nat)
    requires a.nHeads > 0 && RowsTo(a, outs, T, T, window)
    ensures forall p: nat, hq: nat, lo, hi | p < T && hq < a.nHeads && hi == p + 1
              && lo == (if window == 0 || hi <= window then 0 else hi - window) :: RowOut(a, outs, p, hq, lo, hi)
  {
    hide RowDone, RowOut;
    forall p: nat, hq: nat, lo, hi | p < T && hq < a.nHeads && hi == p + 1
      && lo == (if window == 0 || hi <= window then 0 else hi - window) ensures RowOut(a, outs, p, hq, lo, hi) {
      assert RowDone(a, outs, p, hq, 0, T, window);
      LiveWindow(a, outs, p, hq, 0, T, window, lo, hi);
    }
  }

  lemma AppendRows(a: Attn, T: nat, outs: seq<real>, out: seq<real>, s: nat, e: nat, window: nat)
    requires a.ValidHeads() && a.Shaped(T, T) && s <= e <= T && RowsTo(a, outs, s, T, window)
    requires |out| == (e - s) * a.nHeads * a.D
    requires forall t, hq | 0 <= t < e - s && 0 <= hq < a.nHeads :: RowDone(Step(a, T, s, e), out, t, hq, s, e, window)
    ensures RowsTo(a, outs + out, e, T, window)
  {
    hide Step, RowDone;
    TokensFit(s, e, T, a.nHeads, a.D);
    StepShaped(a, T, s, e);
    forall p, hq | 0 <= p < e && 0 <= hq < a.nHeads ensures RowDone(a, outs + out, p, hq, 0, T, window) {
      if p < s {
        OldRow(a, T, outs, out, s, p, hq, window);
      } else {
        assert RowDone(Step(a, T, s, e), out, p - s, hq, s, e, window);
        NewRow(a, T, outs, out, s, e, p - s, hq, window);
      }
    }
  }

  lemma OldRow(a: Attn, T: nat, outs: seq<real>, out: seq<real>, s: nat, p: nat, hq: nat, window: nat)
    requires a.nHeads > 0 && |outs| == s * a.nHeads * a.D && p < s && hq < a.nHeads
             && RowDone(a, outs, p, hq, 0, T, window)
    ensures RowDone(a, outs + out, p, hq, 0, T, window)
  {
    hide Cell, HeadOut, WindowStart, WindowEnd;
    var lo, hi := WindowStart(0 + p, T, window), WindowEnd(0 + p, T);
    assert RowOut(a, outs, p, hq, lo, hi);
    forall d | 0 <= d < a.D ensures OutAt(a, outs + out, p, hq, d) == HeadOut(a, p, hq, lo, hi, d) {
      FrontCell(outs, out, s, a.nHeads, a.D, p, hq, d);
    }
    assert RowOut(a, outs + out, p, hq, lo, hi);
  }

  lemma NewRow(a: Attn, T: nat, outs: seq<real>, out: seq<real>, s: nat, e: nat, t: nat, hq: nat, window: nat)
    requires a.ValidHeads() && a.Shaped(T, T) && s <= e <= T && t < e - s && hq < a.nHeads
    requires |outs| == s * a.nHeads * a.D && |out| == (e - s) * a.nHeads * a.D
    requires RowDone(Step(a, T, s, e), out, t, hq, s, e, window)
    ensures RowDone(a, outs + out, s + t, hq, 0, T, window)
  {
    hide Cell, HeadOut, WindowStart, WindowEnd, Step;
    var p := s + t;
    var lo, hi := WindowStart(0 + p, T, window), WindowEnd(0 + p, T);
    forall d | 0 <= d < a.D ensures OutAt(a, outs + out, p, hq, d) == HeadOut(a, p, hq, lo, hi, d) {
      BackCell(outs, out, s, e - s, a.nHeads, a.D, t, hq, d);
      StepRow(a, T, s, e, t, hq, window, out, d);
    }
    assert RowOut(a, outs + out, p, hq, lo, hi);
  }
}
