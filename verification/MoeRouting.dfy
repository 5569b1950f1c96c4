/** moeTopKRoute: softmax over the experts, keep the K most probable, renormalise over the kept. */
module MoeRouting {
  import opened Sums
  import opened Buffers
  import opened Exponential
  import opened Softmax

  datatype Outcome = Done | NullPointer | NoExperts | TopKOutOfRange

  /** A read-only pointer argument. */
  datatype Operand = Null | Values(data: seq<real>)

  ghost predicate IsPermutation(idx: seq<nat>, n: nat) {
    |idx| == n && (forall i | 0 <= i < n :: idx[i] < n) && forall i, j | 0 <= i < j < n :: idx[i] != idx[j]
  }

  /** What partial_sort by descending p leaves behind: a permutation whose first K entries are sorted
      and whose remaining entries do not beat the K-th. Ties may be broken any way. */
  ghost predicate IsTopK(p: int -> real, idx: seq<nat>, n: nat, K: nat) {
    && IsPermutation(idx, n) && K <= n
    && (forall i, j | 0 <= i < j < K :: p(idx[i]) >= p(idx[j]))
    && (forall i, j | 0 <= i < K <= j < n :: p(idx[i]) >= p(idx[j]))
  }

  /** Positions of the experts beating a bar. */
  ghost function Beating(p: int -> real, n: nat, bar: real): set<nat> { set e: nat | e < n && p(e) > bar }

  /** In a top-K listing, everything that beats position k stands before it. */
  lemma BeatersFirst(p: int -> real, idx: seq<nat>, n: nat, K: nat, k: nat)
    requires IsTopK(p, idx, n, K) && k < K
    ensures |Beating(p, n, p(idx[k]))| <= k
  {
    var front := set i | 0 <= i < k :: idx[i];
    forall e | e in Beating(p, n, p(idx[k])) ensures e in front {
      var i := PositionOf(idx, n, e);
      LaterDoesNotBeat(p, idx, n, K, k, i);
    }
    FrontSize(idx, k);
    SubsetSize(Beating(p, n, p(idx[k])), front);
  }

  lemma LaterDoesNotBeat(p: int -> real, idx: seq<nat>, n: nat, K: nat, k: nat, i: nat)
    requires IsTopK(p, idx, n, K) && k < K && i < n
    ensures k <= i ==> p(idx[i]) <= p(idx[k])
  {
  }

  lemma SubsetSize(a: set<nat>, b: set<nat>)
    requires a <= b
    ensures |a| <= |b|
  {
    assert b == a + (b - a);
  }

  lemma {:induction false} FrontSize(idx: seq<nat>, k: nat)
    requires k <= |idx|
    ensures |set i | 0 <= i < k :: idx[i]| <= k
  {
    var front := set i | 0 <= i < k :: idx[i];
    if k > 0 {
      FrontSize(idx, k - 1);
      assert front == (set i | 0 <= i < k - 1 :: idx[i]) + {idx[k - 1]};
    } else {
      assert front == {};
    }
  }

  /** The first k+1 entries of a permutation are k+1 experts. */
  lemma {:induction false} FrontExact(idx: seq<nat>, n: nat, k: nat)
    requires IsPermutation(idx, n) && k <= n
    ensures |set i | 0 <= i < k :: idx[i]| == k
  {
    hide IsPermutation;
    FrontGrows(idx, n, k);
    if k > 0 { FrontExact(idx, n, k - 1); }
  }

  lemma FrontGrows(idx: seq<nat>, n: nat, k: nat)
    requires IsPermutation(idx, n) && k <= n
    ensures |idx| == n && |set i | 0 <= i < k :: idx[i]| == if k == 0 then 0 else |set i | 0 <= i < k - 1 :: idx[i]| + 1
  {
    var front := set i | 0 <= i < k :: idx[i];
    if k == 0 {
      assert front == {};
    } else {
      var before := set i | 0 <= i < k - 1 :: idx[i];
      assert idx[k - 1] !in before;
      assert front == before + {idx[k - 1]};
    }
  }

  /** A permutation reaches every expert. */
  lemma PositionOf(idx: seq<nat>, n: nat, e: nat) returns (i: nat)
    requires IsPermutation(idx, n) && e < n
    ensures i < n && idx[i] == e
  {
    FrontExact(idx, n, n);
    var image := set j | 0 <= j < n :: idx[j];
    SubsetFull(image, Below(n));
    assert e in image;
    i :| 0 <= i < n && idx[i] == e;
  }

  function Below(n: nat): (s: set<nat>)
    ensures |s| == n && forall e: nat :: e in s <==> e < n
  {
    if n == 0 then {} else Below(n - 1) + {n - 1}
  }

  lemma SubsetFull(a: set<nat>, b: set<nat>)
    requires a <= b && |a| == |b|
    ensures a == b
  {
    assert b == a + (b - a);
    assert |b - a| == 0;
  }

  /** However ties are broken, the ordered list of kept values is the same. */
  lemma KeptValuesDetermined(p: int -> real, idx: seq<nat>, idx': seq<nat>, n: nat, K: nat, k: nat)
    requires IsTopK(p, idx, n, K) && IsTopK(p, idx', n, K) && k < K
    ensures p(idx[k]) == p(idx'[k])
  {
    NotAbove(p, idx, idx', n, K, k);
    NotAbove(p, idx', idx, n, K, k);
  }

  lemma NotAbove(p: int -> real, idx: seq<nat>, idx': seq<nat>, n: nat, K: nat, k: nat)
    requires IsTopK(p, idx, n, K) && IsTopK(p, idx', n, K) && k < K
    ensures p(idx[k]) <= p(idx'[k])
  {
    if p(idx[k]) > p(idx'[k]) {
      var front := set i | 0 <= i < k + 1 :: idx[i];
      FrontExact(idx, n, k + 1);
      forall e | e in front ensures e in Beating(p, n, p(idx'[k])) {
        var i :| 0 <= i < k + 1 && idx[i] == e;
        assert p(idx[i]) >= p(idx[k]);
      }
      SubsetSize(front, Beating(p, n, p(idx'[k])));
      BeatersFirst(p, idx', n, K, k);
      assert false;
    }
  }

  /** With distinct values the kept experts themselves are determined. */
  lemma KeptExpertsDetermined(p: int -> real, idx: seq<nat>, idx': seq<nat>, n: nat, K: nat, k: nat)
    requires IsTopK(p, idx, n, K) && IsTopK(p, idx', n, K) && k < K
    requires forall a, b | 0 <= a < b < n :: p(a) != p(b)
    ensures idx[k] == idx'[k]
  {
    KeptValuesDetermined(p, idx, idx', n, K, k);
  }

  ghost predicate Strict(exp: real -> real, a: real, b: real) { a < b ==> exp(a) < exp(b) }

  ghost predicate IsStrictExp(exp: real -> real) { IsExp(exp) && forall a, b :: Strict(exp, a, b) }

  /** Logits of token t. */
  function Logits(logits: seq<real>, n: nat, t: nat): int -> real { Row(logits, n, t) }

  /** Softmax probabilities, for the row's own shift and normaliser. */
  function Probs(exp: real -> real, l: int -> real, shift: real,
                 inv: real): int -> real
  {
    Scaled(inv, Weights(exp, l, shift))
  }

  /** Probabilities order experts as logits do. */
  lemma SameOrder(exp: real -> real, l: int -> real, shift: real, inv: real, a: int, b: int)
    requires IsStrictExp(exp) && inv > 0.0
    ensures Probs(exp, l, shift, inv)(a) >= Probs(exp, l, shift, inv)(b) <==> l(a) >= l(b)
  {
    var u, v := exp(l(a) - shift), exp(l(b) - shift);
    assert Strict(exp, l(a) - shift, l(b) - shift) && Strict(exp, l(b) - shift, l(a) - shift);
    assert Monotone(exp, l(b) - shift, l(a) - shift);
    ScaleOrder(u, v, inv);
  }

  lemma ScaleOrder(u: real, v: real, c: real)
    requires c > 0.0
    ensures u * c >= v * c <==> u >= v
  {
    if u >= v { assert (u - v) * c >= 0.0; } else { assert (v - u) * c > 0.0; }
  }

  /** Sorting by probability is sorting by logit. */
  lemma TopKOfLogits(exp: real -> real, l: int -> real, shift: real, inv: real, idx: seq<nat>, n: nat, K: nat)
    requires IsStrictExp(exp) && inv > 0.0 && IsTopK(Probs(exp, l, shift, inv), idx, n, K)
    ensures IsTopK(l, idx, n, K)
  {
    hide Probs, IsStrictExp;
    forall i, j | 0 <= i < j < K ensures l(idx[i]) >= l(idx[j]) { SameOrder(exp, l, shift, inv, idx[i], idx[j]); }
    forall i, j | 0 <= i < K <= j < n ensures l(idx[i]) >= l(idx[j]) { SameOrder(exp, l, shift, inv, idx[i], idx[j]); }
  }

  /** The kept entries of a vector, in listing order. */
  function Kept(f: int -> real, idx: seq<nat>): int -> real { k => if 0 <= k < |idx| then f(idx[k]) else 0.0 }

  /** Softmax over just the kept logits. */
  ghost function KeptWeight(exp: real -> real, l: int -> real, idx: seq<nat>, K: nat, k: nat): real
    requires IsExp(exp) && k < K
  {
    MassPositive(exp, 0, K, Kept(l, idx), 0.0);
    Weights(exp, Kept(l, idx), 0.0)(k) / Mass(exp, 0, K, Kept(l, idx), 0.0)
  }

  /** Normalising over all experts first and then over the kept ones is softmax over the kept logits. */
  lemma Renormalised(exp: real -> real, l: int -> real, shift: real, inv: real, idx: seq<nat>, K: nat, k: nat,
                     kept: real)
    requires IsExp(exp) && inv > 0.0 && k < K <= |idx| && kept == Dot(0, K, Kept(Probs(exp, l, shift, inv), idx), One())
    ensures kept > 0.0 && Probs(exp, l, shift, inv)(idx[k]) * (1.0 / kept) == KeptWeight(exp, l, idx, K, k)
  {
    var s := Kept(l, idx);
    KeptSum(exp, l, shift, inv, idx, K);
    MassPositive(exp, 0, K, s, shift);
    MassPositive(exp, 0, K, s, 0.0);
    Rebias(exp, 0, K, s, shift, 0.0, One());
    ExpChain(exp, s(k), shift, 0.0);
    ExpPositive(exp, shift - 0.0);
    var w, m, c := Weights(exp, s, shift)(k), Mass(exp, 0, K, s, shift), exp(shift - 0.0);
    hide Dot, Mass, Mixed;
    assert Probs(exp, l, shift, inv)(idx[k]) == inv * w;
    assert Weights(exp, s, 0.0)(k) == c * w;
    CancelFactor(inv, w, m);
    CancelFactor(c, w, m);
    DivideIsTimes(inv * w, kept);
  }

  lemma KeptSum(exp: real -> real, l: int -> real, shift: real, inv: real, idx: seq<nat>, K: nat)
    requires K <= |idx|
    ensures Dot(0, K, Kept(Probs(exp, l, shift, inv), idx), One()) == inv * Mass(exp, 0, K, Kept(l, idx), shift)
  {
    hide Dot;
    var w := Weights(exp, Kept(l, idx), shift);
    DotAgree(0, K, Kept(Probs(exp, l, shift, inv), idx), Scaled(inv, w), One(), One());
    DotScaled(0, K, inv, w, One());
  }

  /** The kept weights are positive and sum to 1. */
  lemma WeightsSumToOne(exp: real -> real, l: int -> real, idx: seq<nat>, K: nat, w: int -> real)
    requires IsExp(exp) && 0 < K && forall k | 0 <= k < K :: w(k) == KeptWeight(exp, l, idx, K, k)
    ensures Dot(0, K, w, One()) == 1.0 && forall k | 0 <= k < K :: w(k) > 0.0
  {
    hide IsExp, KeptWeight, Weights, Mass, Scaled, Dot;
    var u, m := Weights(exp, Kept(l, idx), 0.0), Mass(exp, 0, K, Kept(l, idx), 0.0);
    MassPositive(exp, 0, K, Kept(l, idx), 0.0);
    forall k | 0 <= k < K ensures w(k) == Scaled(1.0 / m, u)(k) && w(k) > 0.0 { WeightShare(exp, l, idx, K, k); }
    DotAgree(0, K, w, Scaled(1.0 / m, u), One(), One());
    SharesSum(K, u, m, Dot(0, K, u, One()));
    MassIs(exp, l, idx, K);
  }

  lemma MassIs(exp: real -> real, l: int -> real, idx: seq<nat>, K: nat)
    ensures Mass(exp, 0, K, Kept(l, idx), 0.0) == Dot(0, K, Weights(exp, Kept(l, idx), 0.0), One())
  {
    hide Dot, Weights;
  }

  /** One kept weight is its share of the mass, and positive. */
  lemma WeightShare(exp: real -> real, l: int -> real, idx: seq<nat>, K: nat, k: nat)
    requires IsExp(exp) && k < K
    ensures var u, m := Weights(exp, Kept(l, idx), 0.0), Mass(exp, 0, K, Kept(l, idx), 0.0);
            m > 0.0 && KeptWeight(exp, l, idx, K, k) == Scaled(1.0 / m, u)(k) > 0.0
  {
    hide IsExp, Mass, Dot;
    MassPositive(exp, 0, K, Kept(l, idx), 0.0);
    ExpPositive(exp, Kept(l, idx)(k) - 0.0);
    Share(Weights(exp, Kept(l, idx), 0.0)(k), Mass(exp, 0, K, Kept(l, idx), 0.0));
  }

  lemma Share(a: real, b: real)
    requires a > 0.0 && b > 0.0
    ensures a / b == a * (1.0 / b) && a / b > 0.0
  {
    DivideIsTimes(a, b);
  }

  lemma SharesSum(K: nat, u: int -> real, m: real, sum: real)
    requires m > 0.0 && sum == Dot(0, K, u, One())
    ensures sum == m ==> Dot(0, K, Scaled(1.0 / m, u), One()) == 1.0
  {
    hide Dot;
    DotScaled(0, K, 1.0 / m, u, One());
  }

  /** The ordered kept weights depend on the logits alone, however ties are broken. */
  lemma WeightsDetermined(exp: real -> real, l: int -> real, idx: seq<nat>, idx': seq<nat>, n: nat, K: nat, k: nat)
    requires IsExp(exp) && IsTopK(l, idx, n, K) && IsTopK(l, idx', n, K) && k < K
    ensures KeptWeight(exp, l, idx, K, k) == KeptWeight(exp, l, idx', K, k)
  {
    hide Dot;
    forall i | 0 <= i < K ensures Kept(l, idx)(i) == Kept(l, idx')(i) { KeptValuesDetermined(l, idx, idx', n, K, i); }
    DotAgree(0, K, Weights(exp, Kept(l, idx), 0.0), Weights(exp, Kept(l, idx'), 0.0), One(), One());
  }

  /** Best remaining position from `from` on. */
  method BestFrom(p: seq<real>, idx: array<nat>, from: nat) returns (best: nat)
    requires from < idx.Length && forall i | 0 <= i < idx.Length :: idx[i] < |p|
    ensures from <= best < idx.Length && forall j | from <= j < idx.Length :: p[idx[best]] >= p[idx[j]]
  {
    best := from;
    for j := from + 1 to idx.Length
      invariant from <= best < j && forall i | from <= i < j :: p[idx[best]] >= p[idx[i]]
    {
      if p[idx[j]] > p[idx[best]] { best := j; }
    }
  }

  function AsVector(p: seq<real>): int -> real { i => if 0 <= i < |p| then p[i] else 0.0 }

  /** Stand-in for the library's partial sort: afterwards the listing is a top-K listing. */
  method PartialSort(p: seq<real>, idx: array<nat>, K: nat)
    requires |p| == idx.Length && K <= idx.Length && IsPermutation(idx[..], idx.Length)
    modifies idx
    ensures IsTopK(AsVector(p), idx[..], idx.Length, K)
  {
    for k := 0 to K
      invariant IsTopK(AsVector(p), idx[..], idx.Length, k)
    {
      var best := BestFrom(p, idx, k);
      ghost var before := idx[..];
      idx[k], idx[best] := idx[best], idx[k];
      SwapKeeps(p, before, idx[..], k, best);
    }
  }

  lemma SwapKeeps(p: seq<real>, s: seq<nat>, s': seq<nat>, k: nat, best: nat)
    requires IsTopK(AsVector(p), s, |p|, k) && k <= best < |p| && |s'| == |s|
    requires s' == s[k := s[best]][best := s[k]]
    requires forall j | k <= j < |p| :: p[s[best]] >= p[s[j]]
    ensures IsTopK(AsVector(p), s', |p|, k + 1)
  {
  }

  /** Row t of the result, for some tie-breaking. */
  ghost predicate RowRouted(exp: real -> real, logits: seq<real>, n: nat, K: nat, t: nat, outIdx: seq<nat>,
                            outWeight: seq<real>, idx: seq<nat>)
    requires IsExp(exp)
  {
    && IsTopK(Logits(logits, n, t), idx, n, K)
    && forall k | 0 <= k < K :: IndexAt(outIdx, K, t, k) == idx[k]
        && Cell(outWeight, K, t, k) == KeptWeight(exp, Logits(logits, n, t), idx, K, k)
  }

  function IndexAt(s: seq<nat>, w: int, r: int, j: int): nat { if 0 <= r * w + j < |s| then s[r * w + j] else 0 }

  ghost predicate OnlyIndexRow(s: seq<nat>, s': seq<nat>, w: int, r: int) {
    |s| == |s'| && forall r', j | r' != r && 0 <= j < w :: IndexAt(s', w, r', j) == IndexAt(s, w, r', j)
  }

  method SetIndex(y: array<nat>, w: nat, r: nat, j: nat, v: nat)
    requires HasRow(y.Length, w, r) && j < w
    modifies y
    ensures IndexAt(y[..], w, r, j) == v && OnlyIndexRow(old(y[..]), y[..], w, r)
    ensures forall j' | 0 <= j' < w && j' != j :: IndexAt(y[..], w, r, j') == IndexAt(old(y[..]), w, r, j')
  {
    y[r * w + j] := v;
    forall r', j' | r' != r && 0 <= j' < w ensures IndexAt(y[..], w, r', j') == IndexAt(old(y[..]), w, r', j') {
      RowsApart(r, r', w, j, j');
    }
  }

  method RowMax(logits: seq<real>, n: nat, t: nat) returns (maxL: real)
    requires n > 0 && HasRow(|logits|, n, t)
    ensures IsMax(Logits(logits, n, t), 0, n, maxL)
  {
    hide Cell, IsMax;
    ghost var l := Logits(logits, n, t);
    maxL := At(logits, n, t, 0);
    MaxFirst(l, 0);
    assert maxL == l(0);
    for e := 1 to n
      invariant IsMax(l, 0, e, maxL)
    {
      assert At(logits, n, t, e) == l(e);
      MaxStep(l, 0, e, maxL);
      if At(logits, n, t, e) > maxL { maxL := At(logits, n, t, e); }
    }
  }

  /** Step 1: the row's softmax. */
  method RowSoftmax(exp: real -> real, logits: seq<real>, n: nat, t: nat, probs: array<real>)
    returns (ghost shift: real, ghost inv: real)
    requires IsExp(exp) && n > 0 && HasRow(|logits|, n, t) && probs.Length == n
    modifies probs
    ensures IsMax(Logits(logits, n, t), 0, n, shift)
    ensures inv > 0.0 && inv * Mass(exp, 0, n, Logits(logits, n, t), shift) == 1.0
    ensures forall e | 0 <= e < n :: probs[e] == Probs(exp, Logits(logits, n, t), shift, inv)(e)
  {
    hide Dot, Cell, Scaled, Weights, IsMax;
    ghost var l := Logits(logits, n, t);
    var maxL := RowMax(logits, n, t);
    shift := maxL;
    var sum := ExpRow(exp, logits, n, t, maxL, probs);
    MassPositive(exp, 0, n, l, maxL);
    var invSum := 1.0 / sum;
    assert invSum > 0.0 && invSum * sum == 1.0;
    inv := invSum;
    for e := 0 to n
      invariant forall i | 0 <= i < e :: probs[i] == Probs(exp, l, maxL, invSum)(i)
      invariant forall i | e <= i < n :: probs[i] == Weights(exp, l, maxL)(i)
    {
      ScaledAt(Weights(exp, l, maxL), invSum, e);
      probs[e] := probs[e] * invSum;
    }
  }

  lemma ScaledAt(f: int -> real, c: real, i: int)
    ensures Scaled(c, f)(i) == f(i) * c
  {
  }

  method ExpRow(exp: real -> real, logits: seq<real>, n: nat, t: nat, maxL: real, probs: array<real>)
    returns (sum: real)
    requires HasRow(|logits|, n, t) && probs.Length == n
    modifies probs
    ensures sum == Mass(exp, 0, n, Logits(logits, n, t), maxL)
    ensures forall e | 0 <= e < n :: probs[e] == Weights(exp, Logits(logits, n, t), maxL)(e)
  {
    hide Dot, Cell;
    ghost var w := Weights(exp, Logits(logits, n, t), maxL);
    sum := 0.0;
    DotPeel(0, 0, w, One());
    for e := 0 to n
      invariant sum == Dot(0, e, w, One()) && forall i | 0 <= i < e :: probs[i] == w(i)
    {
      probs[e] := exp(At(logits, n, t, e) - maxL);
      DotPeel(0, e, w, One());
      sum := sum + probs[e];
    }
  }

  /** idx := 0, 1, ..., n-1. */
  method Iota(idx: array<nat>)
    modifies idx
    ensures IsPermutation(idx[..], idx.Length)
  {
    for i := 0 to idx.Length
      invariant forall j | 0 <= j < i :: idx[j] == j
    {
      idx[i] := i;
    }
  }

  method KeptMass(ghost p: int -> real, probs: seq<real>, idx: seq<nat>, K: nat) returns (kept: real)
    requires K <= |idx| && forall i | 0 <= i < |idx| :: idx[i] < |probs| && probs[idx[i]] == p(idx[i])
    ensures kept == Dot(0, K, Kept(p, idx), One())
  {
    hide Dot;
    kept := 0.0;
    DotPeel(0, 0, Kept(p, idx), One());
    for k := 0 to K
      invariant kept == Dot(0, k, Kept(p, idx), One())
    {
      DotPeel(0, k, Kept(p, idx), One());
      kept := kept + probs[idx[k]];
    }
  }

  /** Step 3: renormalise the kept weights and store the row. */
  method StoreRow(exp: real -> real, ghost l: int -> real, ghost shift: real, ghost inv: real, probs: seq<real>,
                  idx: seq<nat>, K: nat, t: nat,
                  outIdx: array<nat>, outWeight: array<real>)
    requires IsExp(exp) && inv > 0.0 && 0 < K <= |idx| && HasRow(outIdx.Length, K, t) && HasRow(outWeight.Length, K, t)
    requires forall i | 0 <= i < |idx| :: idx[i] < |probs| && probs[idx[i]] == Probs(exp, l, shift, inv)(idx[i])
    modifies outIdx, outWeight
    ensures forall k | 0 <= k < K ::
        IndexAt(outIdx[..], K, t, k) == idx[k] && Cell(outWeight[..], K, t, k) == KeptWeight(exp, l, idx, K, k)
    ensures OnlyIndexRow(old(outIdx[..]), outIdx[..], K, t) && OnlyRow(old(outWeight[..]), outWeight[..], K, t)
  {
    hide Dot, Cell, IndexAt, Probs, KeptWeight;
    var kept := KeptMass(Probs(exp, l, shift, inv), probs, idx, K);
    var invKept := if kept > 0.0 then 1.0 / kept else 1.0;
    for k := 0 to K
      invariant OnlyIndexRow(old(outIdx[..]), outIdx[..], K, t) && OnlyRow(old(outWeight[..]), outWeight[..], K, t)
      invariant forall k' | 0 <= k' < k ::
          IndexAt(outIdx[..], K, t, k') == idx[k'] && Cell(outWeight[..], K, t, k') == KeptWeight(exp, l, idx, K, k')
    {
      Renormalised(exp, l, shift, inv, idx, K, k, kept);
      SetIndex(outIdx, K, t, k, idx[k]);
      SetCell(outWeight, K, t, k, probs[idx[k]] * invKept);
    }
  }

  /** Some tie-breaking explains row t. */
  ghost predicate Routed(exp: real -> real, logits: seq<real>, n: nat, K: nat, t: nat, outIdx: seq<nat>,
                         outWeight: seq<real>)
    requires IsExp(exp)
  {
    exists idx :: RowRouted(exp, logits, n, K, t, outIdx, outWeight, idx)
  }

  method MoeTopKRoute(exp: real -> real, logits: Operand, T: nat, nExperts: nat, topK: nat,
                      outIdx: array?<nat>, outWeight: array?<real>) returns (r: Outcome)
    requires IsStrictExp(exp)
    requires logits.Values? && outIdx != null && outWeight != null && 0 < topK <= nExperts ==>
               |logits.data| == T * nExperts && outIdx.Length == outWeight.Length == T * topK
    modifies outIdx, outWeight
    ensures r == if logits.Null? || outIdx == null || outWeight == null then NullPointer
                 else if nExperts == 0 then NoExperts
                 else if topK == 0 || topK > nExperts then TopKOutOfRange
                 else Done
    ensures r != Done && outIdx != null ==> outIdx[..] == old(outIdx[..])
    ensures r != Done && outWeight != null ==> outWeight[..] == old(outWeight[..])
    ensures r == Done ==> forall t | 0 <= t < T :: Routed(exp, logits.data, nExperts, topK, t, outIdx[..],
            outWeight[..])
  {
    if logits.Null? || outIdx == null || outWeight == null { return NullPointer; }
    if nExperts == 0 { return NoExperts; }
    if topK == 0 || topK > nExperts { return TopKOutOfRange; }
    hide Routed;
    var probs, idx := new real[nExperts], new nat[nExperts];
    for t := 0 to T
      invariant forall t' | 0 <= t' < t :: Routed(exp, logits.data, nExperts, topK, t', outIdx[..], outWeight[..])
    {
      ghost var i0, w0 := outIdx[..], outWeight[..];
      RouteRow(exp, logits.data, T, nExperts, topK, t, probs, idx, outIdx, outWeight);
      forall t' | 0 <= t' < t ensures Routed(exp, logits.data, nExperts, topK, t', outIdx[..], outWeight[..]) {
        RoutedKept(exp, logits.data, nExperts, topK, t', t, i0, outIdx[..], w0, outWeight[..]);
      }
    }
    return Done;
  }

  method RouteRow(exp: real -> real, logits: seq<real>, T: nat, n: nat, K: nat, t: nat, probs: array<real>,
                  idx: array<nat>,
                  outIdx: array<nat>, outWeight: array<real>)
    requires IsStrictExp(exp) && |logits| == T * n && t < T && 0 < K <= n && outIdx.Length == outWeight.Length == T * K
    requires probs.Length == idx.Length == n && probs != outWeight && idx != outIdx
    modifies probs, idx, outIdx, outWeight
    ensures Routed(exp, logits, n, K, t, outIdx[..], outWeight[..])
    ensures OnlyIndexRow(old(outIdx[..]), outIdx[..], K, t) && OnlyRow(old(outWeight[..]), outWeight[..], K, t)
  {
    hide Dot, Cell, Probs, KeptWeight, IsTopK, IndexAt;
    RowBound(t, T, n);
    RowBound(t, T, K);
    ghost var l := Logits(logits, n, t);
    ghost var shift, inv := RowSoftmax(exp, logits, n, t, probs);
    Iota(idx);
    PartialSort(probs[..], idx, K);
    ListingOfProbs(exp, l, shift, inv, probs[..], idx[..], n, K);
    ghost var listing := idx[..];
    StoreRow(exp, l, shift, inv, probs[..], idx[..], K, t, outIdx, outWeight);
    assert RowRouted(exp, logits, n, K, t, outIdx[..], outWeight[..], listing);
  }

  lemma ListingOfProbs(exp: real -> real, l: int -> real, shift: real, inv: real, probs: seq<real>, idx: seq<nat>,
                       n: nat, K: nat)
    requires IsStrictExp(exp) && inv > 0.0 && |probs| == n && IsTopK(AsVector(probs), idx, n, K)
    requires forall e | 0 <= e < n :: probs[e] == Probs(exp, l, shift, inv)(e)
    ensures IsTopK(l, idx, n, K) && |idx| == n
    ensures forall i | 0 <= i < |idx| :: idx[i] < |probs| && probs[idx[i]] == Probs(exp, l, shift, inv)(idx[i])
  {
    hide Probs, IsStrictExp;
    var p := Probs(exp, l, shift, inv);
    forall i | 0 <= i < n ensures p(idx[i]) == AsVector(probs)(idx[i]) { }
    TopKOfLogits(exp, l, shift, inv, idx, n, K);
  }

  lemma RoutedKept(exp: real -> real, logits: seq<real>, n: nat, K: nat, t': nat, t: nat, i0: seq<nat>, i1: seq<nat>,
                   w0: seq<real>, w1: seq<real>)
    requires IsExp(exp) && t' != t && Routed(exp, logits, n, K, t', i0, w0) && OnlyIndexRow(i0, i1, K, t)
             && OnlyRow(w0, w1, K, t)
    ensures Routed(exp, logits, n, K, t', i1, w1)
  {
    hide Cell, IndexAt, KeptWeight, IsTopK;
    var idx :| RowRouted(exp, logits, n, K, t', i0, w0, idx);
    assert RowRouted(exp, logits, n, K, t', i1, w1, idx);
  }

  /** Two routings of the same logits store the same weights, however either breaks ties; with distinct
      logits they store the same experts too. */
  lemma RoutingsAgree(exp: real -> real, logits: seq<real>, n: nat, K: nat, t: nat, i1: seq<nat>, w1: seq<real>,
                      i2: seq<nat>, w2: seq<real>, k: nat)
    requires IsExp(exp) && k < K && Routed(exp, logits, n, K, t, i1, w1) && Routed(exp, logits, n, K, t, i2, w2)
    ensures Cell(w1, K, t, k) == Cell(w2, K, t, k)
    ensures (forall a, b | 0 <= a < b < n :: Cell(logits, n, t, a) != Cell(logits, n, t, b)) ==>
              IndexAt(i1, K, t, k) == IndexAt(i2, K, t, k)
  {
    hide Cell, IndexAt, KeptWeight, IsTopK;
    var idx1 :| RowRouted(exp, logits, n, K, t, i1, w1, idx1);
    var idx2 :| RowRouted(exp, logits, n, K, t, i2, w2, idx2);
    var l := Logits(logits, n, t);
    WeightsDetermined(exp, l, idx1, idx2, n, K, k);
    if forall a, b | 0 <= a < b < n :: Cell(logits, n, t, a) != Cell(logits, n, t, b) {
      assert forall a, b | 0 <= a < b < n :: l(a) != l(b);
      KeptExpertsDetermined(l, idx1, idx2, n, K, k);
    }
  }

  /** A routed row on the buffers alone: the stored expert k is an expert, no other slot stores it, later slots hold no
      greater logit, an expert stored nowhere has no greater logit, and the stored weight is the exponential of the
      stored expert's logit over the sum of the exponentials of all stored ones. */
  lemma RowInSource(exp: real -> real, logits: seq<real>, n: nat, K: nat, t: nat, outIdx: seq<nat>,
                    outWeight: seq<real>, k: nat, stored: int -> real)
    requires IsExp(exp) && k < K && Routed(exp, logits, n, K, t, outIdx, outWeight)
    requires forall j | 0 <= j < K :: stored(j) == Cell(logits, n, t, IndexAt(outIdx, K, t, j))
    ensures forall j | 0 <= j < K :: IndexAt(outIdx, K, t, j) < n
    ensures forall j | 0 <= j < K && j != k :: IndexAt(outIdx, K, t, j) != IndexAt(outIdx, K, t, k)
    ensures forall j | k <= j < K :: stored(j) <= stored(k)
    ensures forall e: nat | e < n && forall j | 0 <= j < K :: IndexAt(outIdx, K, t, j) != e ::
              Cell(logits, n, t, e) <= stored(k)
    ensures Cell(outWeight, K, t, k) * Dot(0, K, j => exp(stored(j)), _ => 1.0) == exp(stored(k))
  {
    hide Dot, Cell, IndexAt, IsTopK, KeptWeight, IsExp;
    var idx :| RowRouted(exp, logits, n, K, t, outIdx, outWeight, idx);
    var l := Logits(logits, n, t);
    ListingInSource(l, idx, n, K, k);
    forall j | 0 <= j < K ensures IndexAt(outIdx, K, t, j) == idx[j] && stored(j) == l(idx[j]) { }
    forall e: nat | e < n && forall j | 0 <= j < K :: IndexAt(outIdx, K, t, j) != e
      ensures Cell(logits, n, t, e) <= stored(k)
    {
      forall j | 0 <= j < K ensures idx[j] != e { assert IndexAt(outIdx, K, t, j) == idx[j]; }
      assert Cell(logits, n, t, e) == l(e);
    }
    KeptWeightInSource(exp, l, idx, K, k, stored);
  }

  lemma ListingInSource(l: int -> real, idx: seq<nat>, n: nat, K: nat, k: nat)
    requires IsTopK(l, idx, n, K) && k < K
    ensures K <= |idx| && forall j | 0 <= j < K :: idx[j] < n && (j != k ==> idx[j] != idx[k])
    ensures forall j | k <= j < K :: l(idx[j]) <= l(idx[k])
    ensures forall e: nat | e < n && forall j | 0 <= j < K :: idx[j] != e :: l(e) <= l(idx[k])
  {
    forall e: nat | e < n && forall j | 0 <= j < K :: idx[j] != e ensures l(e) <= l(idx[k]) {
      var i := PositionOf(idx, n, e);
      assert i >= K;
      LaterDoesNotBeat(l, idx, n, K, k, i);
    }
    forall j: nat | k <= j < K ensures l(idx[j]) <= l(idx[k]) { LaterDoesNotBeat(l, idx, n, K, k, j); }
  }

  lemma KeptWeightInSource(exp: real -> real, l: int -> real, idx: seq<nat>, K: nat, k: nat, stored: int -> real)
    requires IsExp(exp) && k < K <= |idx| && forall j | 0 <= j < K :: stored(j) == l(idx[j])
    ensures KeptWeight(exp, l, idx, K, k) * Dot(0, K, j => exp(stored(j)), _ => 1.0) == exp(stored(k))
  {
    hide Dot, IsExp;
    var e := j => exp(stored(j));
    var w := Weights(exp, Kept(l, idx), 0.0);
    MassPositive(exp, 0, K, Kept(l, idx), 0.0);
    forall j | 0 <= j < K ensures w(j) == e(j) { assert stored(j) - 0.0 == stored(j); }
    DotAgree(0, K, w, e, One(), _ => 1.0);
    QuotientTimes(w(k), Mass(exp, 0, K, Kept(l, idx), 0.0));
  }

  lemma QuotientTimes(a: real, b: real)
    requires b > 0.0
    ensures (a / b) * b == a
  {
  }

  /** The stored index by position. */
  lemma IndexIs(s: seq<nat>, w: int, r: int, j: int)
    requires 0 <= r * w + j < |s|
    ensures IndexAt(s, w, r, j) == s[r * w + j]
  {
  }
}
