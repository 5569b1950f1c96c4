/** ComputeBuffer: a move-only owner of a device allocation, and every run of allocations, moves and
    destructions over a pool of them. */
module Ownership {

  /** What a non-null buffer with a deleter owes: one deleter call with exactly these arguments. */
  datatype Claim = Claim(ptr: nat, bytes: nat, deleter: nat, ctx: int)

  /** The deleter calls made so far, in order. */
  class Ledger {
    var calls: seq<Claim>

    constructor ()
      ensures calls == []
    {
      calls := [];
    }
  }

  /** The four fields; null pointers and null deleters are 0. */
  datatype Slot = Slot(ptr: nat, bytes: nat, deleter: nat, ctx: int)
  {
    /** The deleter call this value still owes: none without a pointer or without a deleter. */
    function Owes(): seq<Claim> { if deleter != 0 && ptr != 0 then [Claim(ptr, bytes, deleter, ctx)] else [] }
  }

  const EMPTY := Slot(0, 0, 0, 0)

  class ComputeBuffer {
    var ptr: nat
    var bytes: nat
    var deleter: nat
    var ctx: int

    function Fields(): Slot
      reads this
    {
      Slot(ptr, bytes, deleter, ctx)
    }

    constructor Default()
      ensures Fields() == EMPTY && ptr == 0 && bytes == 0 && deleter == 0 && ctx == 0
    {
      ptr, bytes, deleter, ctx := 0, 0, 0, 0;
    }

    constructor Allocated(ptr: nat, bytes: nat, deleter: nat, ctx: int)
      ensures Fields() == Slot(ptr, bytes, deleter, ctx)
      ensures this.ptr == ptr && this.bytes == bytes && this.deleter == deleter && this.ctx == ctx
    {
      this.ptr, this.bytes, this.deleter, this.ctx := ptr, bytes, deleter, ctx;
    }

    /** Move construction: the source is left empty. */
    constructor MoveFrom(other: ComputeBuffer)
      modifies other
      ensures Fields() == old(other.Fields()) && other.Fields() == EMPTY
      ensures ptr == old(other.ptr) && bytes == old(other.bytes)
      ensures deleter == old(other.deleter) && ctx == old(other.ctx)
      ensures other.ptr == 0 && other.bytes == 0 && other.deleter == 0 && other.ctx == 0
    {
      ptr, bytes, deleter, ctx := other.ptr, other.bytes, other.deleter, other.ctx;
      new;
      other.ptr, other.bytes, other.deleter, other.ctx := 0, 0, 0, 0;
    }

    /** The destructor, also the first half of move assignment. */
    method Release(ledger: Ledger)
      modifies ledger
      ensures ledger.calls == old(ledger.calls) + Fields().Owes()
      ensures deleter != 0 && ptr != 0 ==> ledger.calls == old(ledger.calls) + [Claim(ptr, bytes, deleter, ctx)]
      ensures deleter == 0 || ptr == 0 ==> ledger.calls == old(ledger.calls)
    {
      if deleter != 0 && ptr != 0 {
        ledger.calls := ledger.calls + [Claim(ptr, bytes, deleter, ctx)];
      }
    }

    /** Move assignment: releases what this object held, then takes over `other`; nothing on itself. */
    method MoveAssign(other: ComputeBuffer, ledger: Ledger)
      modifies this, other, ledger
      ensures other == this ==> unchanged(this) && unchanged(ledger)
      ensures other != this ==> Fields() == old(other.Fields()) && other.Fields() == EMPTY
                                && ledger.calls == old(ledger.calls) + old(Fields()).Owes()
      ensures other != this ==> ptr == old(other.ptr) && bytes == old(other.bytes) && deleter == old(other.deleter)
                                && ctx == old(other.ctx) && other.ptr == 0 && other.bytes == 0
                                && other.deleter == 0 && other.ctx == 0
      ensures other != this && old(deleter != 0 && ptr != 0) ==>
                ledger.calls == old(ledger.calls) + [old(Claim(ptr, bytes, deleter, ctx))]
      ensures other != this && old(deleter == 0 || ptr == 0) ==> ledger.calls == old(ledger.calls)
    {
      if this != other {
        Release(ledger);
        ptr, bytes, deleter, ctx := other.ptr, other.bytes, other.deleter, other.ctx;
        other.ptr, other.bytes, other.deleter, other.ctx := 0, 0, 0, 0;
      }
    }
  }

  /** One step of a program: slots are positions in the pool of live objects. */
  datatype Op = Allocate(ptr: nat, bytes: nat, deleter: nat, ctx: int)
              | MoveConstruct(src: nat)
              | MoveAssign(dst: nat, src: nat)
              | Destroy(victim: nat)

  /** A step may only name live objects. */
  predicate Legal(op: Op, live: nat) {
    match op
    case Allocate(_, _, _, _) => true
    case MoveConstruct(src) => src < live
    case MoveAssign(dst, src) => dst < live && src < live
    case Destroy(victim) => victim < live
  }

  /** Live values, deleter calls so far, and every claim an allocation has issued. */
  datatype State = State(slots: seq<Slot>, calls: seq<Claim>, issued: multiset<Claim>)

  function Step(s: State, op: Op): State
    requires Legal(op, |s.slots|)
  {
    match op
    case Allocate(p, b, d, c) =>
      var v := Slot(p, b, d, c);
      State(s.slots + [v], s.calls, s.issued + multiset(v.Owes()))
    case MoveConstruct(src) => s.(slots := s.slots[src := EMPTY] + [s.slots[src]])
    case MoveAssign(dst, src) =>
      if dst == src then s
      else s.(slots := s.slots[dst := s.slots[src]][src := EMPTY], calls := s.calls + s.slots[dst].Owes())
    case Destroy(v) => s.(slots := s.slots[..v] + s.slots[v + 1..], calls := s.calls + s.slots[v].Owes())
  }

  /** The steps spelled out. An allocation adds a live value and, with a deleter and a pointer, one claim. */
  lemma AllocateStep(s: State, p: nat, b: nat, d: nat, c: int)
    ensures Legal(Allocate(p, b, d, c), |s.slots|)
    ensures Step(s, Allocate(p, b, d, c)) == State(s.slots + [Slot(p, b, d, c)], s.calls,
              s.issued + if d != 0 && p != 0 then multiset{Claim(p, b, d, c)} else multiset{})
  {
  }

  /** A move construction empties its source and adds its value. */
  lemma MoveConstructStep(s: State, src: nat)
    ensures Legal(MoveConstruct(src), |s.slots|) <==> src < |s.slots|
    ensures src < |s.slots| ==>
              Step(s, MoveConstruct(src)) == State(s.slots[src := Slot(0, 0, 0, 0)] + [s.slots[src]], s.calls, s.issued)
  {
  }

  /** A move assignment releases the target, moves the value and empties the source; on itself it does nothing. */
  lemma MoveAssignStep(s: State, dst: nat, src: nat)
    ensures Legal(MoveAssign(dst, src), |s.slots|) <==> dst < |s.slots| && src < |s.slots|
    ensures dst == src < |s.slots| ==> Step(s, MoveAssign(dst, src)) == s
    ensures dst < |s.slots| && src < |s.slots| && dst != src ==>
              var v := s.slots[dst];
              Step(s, MoveAssign(dst, src)) == State(s.slots[dst := s.slots[src]][src := Slot(0, 0, 0, 0)],
                s.calls + (if v.deleter != 0 && v.ptr != 0 then [Claim(v.ptr, v.bytes, v.deleter, v.ctx)] else []),
                s.issued)
  {
  }

  /** A destruction releases the value and drops it. */
  lemma DestroyStep(s: State, i: nat)
    ensures Legal(Destroy(i), |s.slots|) <==> i < |s.slots|
    ensures i < |s.slots| ==>
              var v := s.slots[i];
              Step(s, Destroy(i)) == State(s.slots[..i] + s.slots[i + 1..],
                s.calls + (if v.deleter != 0 && v.ptr != 0 then [Claim(v.ptr, v.bytes, v.deleter, v.ctx)] else []),
                s.issued)
  {
  }

  predicate LegalRun(s: State, ops: seq<Op>)
    decreases |ops|
  {
    ops == [] || (Legal(ops[0], |s.slots|) && LegalRun(Step(s, ops[0]), ops[1..]))
  }

  function Run(s: State, ops: seq<Op>): State
    requires LegalRun(s, ops)
    decreases |ops|
  {
    if ops == [] then s else Run(Step(s, ops[0]), ops[1..])
  }

  /** A program runs its steps in order, each on the state the previous ones left. */
  lemma RunInOrder(s: State, op: Op, ops: seq<Op>)
    ensures LegalRun(s, []) && Run(s, []) == s
    ensures LegalRun(s, [op] + ops) <==> Legal(op, |s.slots|) && LegalRun(Step(s, op), ops)
    ensures LegalRun(s, [op] + ops) ==> Run(s, [op] + ops) == Run(Step(s, op), ops)
  {
    assert ([op] + ops)[1..] == ops;
  }

  /** Everything the live values owe. */
  function Owed(slots: seq<Slot>): multiset<Claim> {
    if slots == [] then multiset{} else Owed(slots[..|slots| - 1]) + multiset(slots[|slots| - 1].Owes())
  }

  lemma OwedSnoc(slots: seq<Slot>, v: Slot)
    ensures Owed(slots + [v]) == Owed(slots) + multiset(v.Owes())
  {
    hide Slot.Owes;
    assert (slots + [v])[..|slots + [v]| - 1] == slots;
  }

  lemma Associates(a: multiset<Claim>, b: multiset<Claim>, c: multiset<Claim>)
    ensures (a + b) + c == a + (b + c)
  {
  }

  lemma {:induction false} OwedConcat(a: seq<Slot>, b: seq<Slot>)
    ensures Owed(a + b) == Owed(a) + Owed(b)
  {
    hide Slot.Owes, Owed;
    if b == [] {
      assert a + b == a;
      OwedNone();
    } else {
      var b', v := b[..|b| - 1], b[|b| - 1];
      assert b == b' + [v] && a + b == (a + b') + [v];
      OwedConcat(a, b');
      OwedSnoc(a + b', v);
      OwedSnoc(b', v);
      Associates(Owed(a), Owed(b'), multiset(v.Owes()));
    }
  }

  lemma OwedNone()
    ensures Owed([]) == multiset{}
  {
  }

  lemma OwedSplit(slots: seq<Slot>, i: nat)
    requires i < |slots|
    ensures Owed(slots) == Owed(slots[..i]) + multiset(slots[i].Owes()) + Owed(slots[i + 1..])
  {
    hide Slot.Owes, Owed;
    assert slots == (slots[..i] + [slots[i]]) + slots[i + 1..];
    OwedConcat(slots[..i] + [slots[i]], slots[i + 1..]);
    OwedSnoc(slots[..i], slots[i]);
  }

  /** Replacing one value swaps its debt. */
  lemma OwedUpdate(slots: seq<Slot>, i: nat, v: Slot)
    requires i < |slots|
    ensures Owed(slots[i := v]) + multiset(slots[i].Owes()) == Owed(slots) + multiset(v.Owes())
  {
    hide Slot.Owes, Owed;
    OwedSplit(slots, i);
    OwedSplit(slots[i := v], i);
    assert slots[i := v][..i] == slots[..i] && slots[i := v][i + 1..] == slots[i + 1..];
    Swapped(Owed(slots[..i]), multiset(slots[i].Owes()), multiset(v.Owes()), Owed(slots[i + 1..]));
  }

  lemma Swapped(a: multiset<Claim>, x: multiset<Claim>, y: multiset<Claim>, b: multiset<Claim>)
    ensures a + y + b + x == a + x + b + y
  {
  }

  /** Claims are conserved: owed plus already called is exactly what was issued. */
  ghost predicate Balanced(s: State) { Owed(s.slots) + multiset(s.calls) == s.issued }

  lemma StepBalanced(s: State, op: Op)
    requires Balanced(s) && Legal(op, |s.slots|)
    ensures Balanced(Step(s, op))
  {
    hide Slot.Owes, Owed;
    match op
    case Allocate(p, b, d, c) =>
      OwedSnoc(s.slots, Slot(p, b, d, c));
      Exchange(Owed(s.slots), multiset(Slot(p, b, d, c).Owes()), multiset(s.calls));
    case MoveConstruct(src) =>
      OwedUpdate(s.slots, src, EMPTY);
      OwedSnoc(s.slots[src := EMPTY], s.slots[src]);
      EmptyOwes();
    case MoveAssign(dst, src) =>
      if dst != src { AssignBalanced(s, dst, src); }
    case Destroy(v) =>
      DestroyBalanced(s, v);
  }

  lemma EmptyOwes()
    ensures multiset(EMPTY.Owes()) == multiset{}
  {
  }

  lemma Exchange(a: multiset<Claim>, x: multiset<Claim>, c: multiset<Claim>)
    ensures (a + x) + c == (a + c) + x
  {
  }

  lemma AssignBalanced(s: State, dst: nat, src: nat)
    requires Balanced(s) && dst < |s.slots| && src < |s.slots| && dst != src
    ensures Balanced(Step(s, MoveAssign(dst, src)))
  {
    hide Slot.Owes, Owed;
    var x := s.slots[src];
    var mid := s.slots[dst := x];
    OwedUpdate(s.slots, dst, x);
    OwedUpdate(mid, src, EMPTY);
    EmptyOwes();
    CallsGrow(s.calls, s.slots[dst].Owes());
    AssignSums(Owed(s.slots), Owed(mid), Owed(mid[src := EMPTY]), multiset(s.slots[dst].Owes()), multiset(x.Owes()),
        multiset(s.calls));
  }

  lemma CallsGrow(calls: seq<Claim>, more: seq<Claim>)
    ensures multiset(calls + more) == multiset(calls) + multiset(more)
  {
  }

  lemma AssignSums(before: multiset<Claim>, mid: multiset<Claim>, after: multiset<Claim>, d: multiset<Claim>,
                   x: multiset<Claim>, calls: multiset<Claim>)
    requires mid + d == before + x && after + x == mid + multiset{}
    ensures after + (calls + d) == before + calls
  {
    forall c ensures (after + (calls + d))[c] == (before + calls)[c] {
      assert (mid + d)[c] == (before + x)[c] && (after + x)[c] == (mid + multiset{})[c];
    }
  }

  lemma DestroyBalanced(s: State, v: nat)
    requires Balanced(s) && v < |s.slots|
    ensures Balanced(Step(s, Destroy(v)))
  {
    hide Slot.Owes, Owed;
    OwedSplit(s.slots, v);
    OwedConcat(s.slots[..v], s.slots[v + 1..]);
    CallsGrow(s.calls, s.slots[v].Owes());
    Rotated(Owed(s.slots[..v]), multiset(s.slots[v].Owes()), Owed(s.slots[v + 1..]), multiset(s.calls));
  }

  lemma Rotated(a: multiset<Claim>, x: multiset<Claim>, b: multiset<Claim>, c: multiset<Claim>)
    ensures (a + b) + (c + x) == (a + x + b) + c
  {
  }

  /** Over every run. */
  lemma {:induction false} RunBalanced(s: State, ops: seq<Op>)
    requires Balanced(s) && LegalRun(s, ops)
    ensures Balanced(Run(s, ops))
    decreases |ops|
  {
    if ops != [] {
      StepBalanced(s, ops[0]);
      RunBalanced(Step(s, ops[0]), ops[1..]);
    }
  }

  const START := State([], [], multiset{})

  /** How many live values owe claim c. */
  function Owners(slots: seq<Slot>, c: Claim): nat {
    if slots == [] then 0
    else Owners(slots[..|slots| - 1], c) + if slots[|slots| - 1].Owes() == [c] then 1 else 0
  }

  lemma {:induction false} OwnersCount(slots: seq<Slot>, c: Claim)
    ensures Owners(slots, c) == Owed(slots)[c]
  {
    if slots != [] { OwnersCount(slots[..|slots| - 1], c); }
  }

  /** Every claim, reissued addresses included, at every point of every run: the live values that still owe
      it and the deleter calls already made for it add up to the allocations that issued it. */
  lemma ClaimsConserved(ops: seq<Op>, c: Claim)
    requires LegalRun(START, ops)
    ensures var s := Run(START, ops); Owners(s.slots, c) + multiset(s.calls)[c] == s.issued[c]
  {
    RunBalanced(START, ops);
    OwnersCount(Run(START, ops).slots, c);
  }

  /** A claim issued once is, at every point of every run, either owed by exactly one live value and not
      yet called, or owed by none and called exactly once, with its original arguments. */
  lemma ExactlyOneOwner(ops: seq<Op>, c: Claim)
    requires LegalRun(START, ops) && Run(START, ops).issued[c] == 1
    ensures var s := Run(START, ops);
            || (c !in s.calls && exists i :: 0 <= i < |s.slots| && s.slots[i].Owes() == [c]
                                   && forall j | 0 <= j < |s.slots| && j != i :: s.slots[j].Owes() != [c])
            || (multiset(s.calls)[c] == 1 && forall i | 0 <= i < |s.slots| :: s.slots[i].Owes() != [c])
  {
    var s := Run(START, ops);
    RunBalanced(START, ops);
    OwedOnce(s.slots, c);
    if multiset(s.calls)[c] == 0 { assert c !in multiset(s.calls); }
  }

  /** A claim owed once is owed by exactly one value; owed never, by none. */
  lemma OwedOnce(slots: seq<Slot>, c: Claim)
    ensures Owed(slots)[c] == 0 ==> forall i | 0 <= i < |slots| :: slots[i].Owes() != [c]
    ensures Owed(slots)[c] == 1 ==> exists i :: 0 <= i < |slots| && slots[i].Owes() == [c]
                                        && forall j | 0 <= j < |slots| && j != i :: slots[j].Owes() != [c]
  {
    if Owed(slots)[c] == 0 {
      forall i | 0 <= i < |slots| ensures slots[i].Owes() != [c] { OwedSplit(slots, i); }
    } else if Owed(slots)[c] == 1 {
      var i := Owner(slots, c);
      forall j | 0 <= j < |slots| && j != i ensures slots[j].Owes() != [c] {
        TwoOwners(slots, c, i, j);
      }
    }
  }

  lemma {:induction false} Owner(slots: seq<Slot>, c: Claim) returns (i: nat)
    requires Owed(slots)[c] > 0
    ensures i < |slots| && slots[i].Owes() == [c]
  {
    var last := |slots| - 1;
    if slots[last].Owes() == [c] {
      i := last;
    } else {
      i := Owner(slots[..last], c);
    }
  }

  lemma TwoOwners(slots: seq<Slot>, c: Claim, i: nat, j: nat)
    requires i < |slots| && j < |slots| && i != j && slots[i].Owes() == [c]
    ensures slots[j].Owes() == [c] ==> Owed(slots)[c] >= 2
  {
    var a, b := if i < j then i else j, if i < j then j else i;
    OwedSplit(slots, b);
    OwedSplit(slots[..b], a);
  }

  /** Once nothing is live, every claim has been called exactly as often as it was issued. */
  lemma AllReleased(ops: seq<Op>)
    requires LegalRun(START, ops) && Run(START, ops).slots == []
    ensures multiset(Run(START, ops).calls) == Run(START, ops).issued
  {
    RunBalanced(START, ops);
  }

  /** The field values of a pool of objects. */
  function Values(live: seq<ComputeBuffer>): (s: seq<Slot>)
    reads live
    ensures |s| == |live|
  {
    seq(|live|, i requires 0 <= i < |live| reads live => live[i].Fields())
  }

  /** The live objects of a program and the log of deleter calls. */
  class Pool {
    var live: seq<ComputeBuffer>
    const ledger: Ledger
    ghost var issued: multiset<Claim>

    predicate Valid()
      reads this
    {
      forall i, j | 0 <= i < j < |live| :: live[i] != live[j]
    }

    ghost function Abstract(): State
      reads this, live, ledger
    {
      State(Values(live), ledger.calls, issued)
    }

    constructor ()
      ensures Valid() && Abstract() == START && fresh(ledger) && fresh(live)
    {
      ledger := new Ledger();
      live, issued := [], multiset{};
    }

    method DoAllocate(p: nat, b: nat, d: nat, c: int)
      requires Valid()
      modifies this
      ensures Valid() && |live| == |old(live)| + 1 && live[..|old(live)|] == old(live) && fresh(live[|old(live)|])
      ensures Abstract() == Step(old(Abstract()), Allocate(p, b, d, c))
    {
      var buffer := new ComputeBuffer.Allocated(p, b, d, c);
      live, issued := live + [buffer], issued + multiset(Slot(p, b, d, c).Owes());
      assert Values(live) == old(Values(live)) + [Slot(p, b, d, c)];
    }

    method DoMoveConstruct(src: nat)
      requires Valid() && src < |live|
      modifies this, live[src]
      ensures Valid() && |live| == |old(live)| + 1 && live[..|old(live)|] == old(live) && fresh(live[|old(live)|])
      ensures Abstract() == Step(old(Abstract()), MoveConstruct(src))
    {
      var buffer := new ComputeBuffer.MoveFrom(live[src]);
      live := live + [buffer];
      assert Values(live) == old(Values(live))[src := EMPTY] + [old(Values(live))[src]];
    }

    method DoMoveAssign(dst: nat, src: nat)
      requires Valid() && dst < |live| && src < |live|
      modifies live[dst], live[src], ledger
      ensures Valid() && live == old(live)
      ensures Abstract() == Step(old(Abstract()), MoveAssign(dst, src))
    {
      live[dst].MoveAssign(live[src], ledger);
      if dst != src {
        assert live[dst] != live[src];
        assert Values(live) == old(Values(live))[dst := old(Values(live))[src]][src := EMPTY];
      } else {
        assert Values(live) == old(Values(live));
      }
    }

    method DoDestroy(v: nat)
      requires Valid() && v < |live|
      modifies this, ledger
      ensures Valid() && live == old(live)[..v] + old(live)[v + 1..]
      ensures Abstract() == Step(old(Abstract()), Destroy(v))
    {
      live[v].Release(ledger);
      live := live[..v] + live[v + 1..];
      assert Values(live) == old(Values(live))[..v] + old(Values(live))[v + 1..];
    }

    /** A program step on real objects is the step on their values. */
    method Do(op: Op)
      requires Valid() && Legal(op, |live|)
      modifies this, live, ledger
      ensures Valid() && Abstract() == Step(old(Abstract()), op)
      ensures forall i | 0 <= i < |live| :: live[i] in old(live) || fresh(live[i])
    {
      match op
      case Allocate(p, b, d, c) => DoAllocate(p, b, d, c);
      case MoveConstruct(src) => DoMoveConstruct(src);
      case MoveAssign(dst, src) => DoMoveAssign(dst, src);
      case Destroy(v) => DoDestroy(v);
    }

    /** Any legal program: the pool ends in the state the run computes. */
    method Execute(ops: seq<Op>)
      requires Valid() && LegalRun(Abstract(), ops)
      modifies this, live, ledger
      ensures Valid() && Abstract() == Run(old(Abstract()), ops)
      decreases |ops|
    {
      if ops != [] {
        Do(ops[0]);
        Execute(ops[1..]);
      }
    }
  }
}
