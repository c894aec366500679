/** Heaps that differ in garbage: objects nothing refers to, and the places objects are at. */
module Garbage {
  import opened Values
  import opened BigStep

  /** Which object of one heap is which of the other; None where both heaps are the same. */
  type Link = Option<map<nat, nat>>

  ghost predicate Injective(m: map<nat, nat>) {
    forall i, j :: i in m && j in m && m[i] == m[j] ==> i == j
  }

  predicate Same(k: Link, x: Value, y: Value)
    decreases x
  {
    if k.None? then x == y
    else match x
      case Ref(kind, i) => i in k.value && y == Ref(kind, k.value[i])
      case Fn(f, xs) =>
        && y.Fn? && y.index == f && |xs| == |y.captured|
        && forall i :: 0 <= i < |xs| ==> Same(k, xs[i], y.captured[i])
      case _ => y == x
  }

  predicate AllSame(k: Link, xs: seq<Value>, ys: seq<Value>) {
    |xs| == |ys| && forall i :: 0 <= i < |xs| ==> Same(k, xs[i], ys[i])
  }

  /** Objects that correspond have the same contents. */
  ghost predicate SameHeap(k: Link, g: Heap, h: Heap) {
    if k.None? then g == h
    else Injective(k.value) && forall i :: i in k.value ==>
      i in g && k.value[i] in h && AllSame(k, g[i], h[k.value[i]])
  }

  /** What corresponds keeps doing so. */
  predicate Grown(k: Link, l: Link) {
    if k.None? then l.None?
    else l.Some? && forall i :: i in k.value ==> i in l.value && l.value[i] == k.value[i]
  }

  lemma {:induction false} SameGrown(k: Link, l: Link, x: Value, y: Value)
    requires Grown(k, l) && Same(k, x, y)
    ensures Same(l, x, y)
    decreases x
  {
    if k.Some? && x.Fn? {
      forall i | 0 <= i < |x.captured| ensures Same(l, x.captured[i], y.captured[i]) {
        SameGrown(k, l, x.captured[i], y.captured[i]);
      }
    }
  }

  lemma AllGrown(k: Link, l: Link, xs: seq<Value>, ys: seq<Value>)
    requires Grown(k, l) && AllSame(k, xs, ys)
    ensures AllSame(l, xs, ys)
  {
    forall i | 0 <= i < |xs| ensures Same(l, xs[i], ys[i]) { SameGrown(k, l, xs[i], ys[i]); }
  }

  lemma GrownOn(k: Link, l: Link, m: Link)
    requires Grown(k, l) && Grown(l, m)
    ensures Grown(k, m)
  {
  }

  ghost predicate SameResult(k: Link, x: PrimResult, y: PrimResult) {
    match x
    case Ok(v, g) => y.Ok? && Same(k, v, y.v) && SameHeap(k, g, y.heap)
    case Err(e, g) => y.Err? && Same(k, e, y.exc) && SameHeap(k, g, y.heap)
  }

  /** The results correspond, with new objects that correspond to each other. */
  ghost predicate Agree(k: Link, x: PrimResult, y: PrimResult) {
    exists l :: Grown(k, l) && SameResult(l, x, y)
  }

  ghost predicate OpAgrees(
    ops: HeapOps, k: Link, p: PrimOp, xs: seq<Value>, ys: seq<Value>, g: Heap, h: Heap)
  {
    |xs| == Pops(p) && AllSame(k, xs, ys) && SameHeap(k, g, h) ==> Agree(k, ops.op(p, xs, g), ops.op(p, ys, h))
  }

  ghost predicate NextAgrees(ops: HeapOps, k: Link, x: Value, y: Value, g: Heap, h: Heap) {
    Same(k, x, y) && SameHeap(k, g, h) ==> Agree(k, ops.next(x, g), ops.next(y, h))
  }

  ghost predicate ElementsAgree(ops: HeapOps, k: Link, x: Value, y: Value, g: Heap, h: Heap) {
    Same(k, x, y) && SameHeap(k, g, h) ==>
      match ops.elements(x, g)
      case None => ops.elements(y, h) == None
      case Some(xs) => ops.elements(y, h).Some? && AllSame(k, xs, ops.elements(y, h).value)
  }

  /** Operators see neither garbage nor where objects are. */
  ghost predicate Oblivious(ops: HeapOps) {
    && (forall k: Link, p, xs, ys, g, h :: OpAgrees(ops, k, p, xs, ys, g, h))
    && (forall k: Link, x, y, g, h :: NextAgrees(ops, k, x, y, g, h))
    && (forall k: Link, x, y, g, h :: ElementsAgree(ops, k, x, y, g, h))
  }

  /** All that was there is there, and as it was. */
  predicate Keeps(g: Heap, h: Heap) {
    forall i :: i in g ==> i in h && h[i] == g[i]
  }

  ghost predicate Makes(ops: HeapOps, p: PrimOp, xs: seq<Value>, h: Heap) {
    var r := ops.op(p, xs, h); r.Ok? && Truthy(r.v) && Keeps(h, r.heap)
  }

  /** Making an array or a tuple works, and changes no other object. */
  ghost predicate MakesSequences(ops: HeapOps) {
    forall xs, h :: Makes(ops, NewArr(|xs|), xs, h) && Makes(ops, NewTuple(|xs|), xs, h)
  }

  /** An operator that does not look at the heap. */
  lemma KnownSame(k: Link, p: PrimOp, xs: seq<Value>, ys: seq<Value>, g: Heap, h: Heap)
    requires |xs| == Pops(p) && AllSame(k, xs, ys) && SameHeap(k, g, h)
    ensures match Known(p, xs, g)
      case None => Known(p, ys, h) == None
      case Some(r) => Known(p, ys, h).Some? && SameResult(k, r, Known(p, ys, h).value)
  {
    if k.None? {
      assert xs == ys;
    } else if p.Simple? {
      KnownSimpleSame(k, p.op, xs, ys, g, h);
    }
  }

  lemma KnownSimpleSame(k: Link, op: SimpleOp, xs: seq<Value>, ys: seq<Value>, g: Heap, h: Heap)
    requires k.Some? && |xs| == SimplePops(op) && AllSame(k, xs, ys) && SameHeap(k, g, h)
    ensures match KnownSimple(op, xs, g)
      case None => KnownSimple(op, ys, h) == None
      case Some(r) => KnownSimple(op, ys, h).Some? && SameResult(k, r, KnownSimple(op, ys, h).value)
  {
    hide SameHeap, KnownArith, StepByOne;
    if |xs| == 1 {
      OneOperandSame(k, op, xs, ys, g, h);
    } else if |xs| == 2 {
      assert Same(k, xs[0], ys[0]) && Same(k, xs[1], ys[1]);
      hide Same;
      if op == Eql || op == Ueql {
        EqualitySame(k, op, xs, ys, g, h);
      } else {
        SumSame(k, op, xs, ys, g, h);
      }
    }
  }

  lemma EqualitySame(k: Link, op: SimpleOp, xs: seq<Value>, ys: seq<Value>, g: Heap, h: Heap)
    requires k.Some? && |xs| == |ys| == 2 && Same(k, xs[0], ys[0]) && Same(k, xs[1], ys[1]) && SameHeap(k, g, h)
    requires op == Eql || op == Ueql
    ensures match KnownSimple(op, xs, g)
      case None => KnownSimple(op, ys, h) == None
      case Some(r) => KnownSimple(op, ys, h).Some? && SameResult(k, r, KnownSimple(op, ys, h).value)
  {
    hide SameHeap;
    SameKind(k, xs[0], ys[0]);
    SameKind(k, xs[1], ys[1]);
  }

  lemma SumSame(k: Link, op: SimpleOp, xs: seq<Value>, ys: seq<Value>, g: Heap, h: Heap)
    requires k.Some? && |xs| == |ys| == SimplePops(op) == 2 && Same(k, xs[0], ys[0]) && Same(k, xs[1], ys[1])
    requires SameHeap(k, g, h) && op != Eql && op != Ueql
    ensures match KnownSimple(op, xs, g)
      case None => KnownSimple(op, ys, h) == None
      case Some(r) => KnownSimple(op, ys, h).Some? && SameResult(k, r, KnownSimple(op, ys, h).value)
  {
    hide SameHeap, KnownArith;
    SameKind(k, xs[0], ys[0]);
    SameKind(k, xs[1], ys[1]);
    ArithSame(k, op, xs[0], xs[1], ys[0], ys[1], g, h);
    if op == Add && xs[0].Str? && xs[1].Str? { Itself(k, Str(xs[0].s + xs[1].s)); }
    hide Same;
  }

  lemma OneOperandSame(k: Link, op: SimpleOp, xs: seq<Value>, ys: seq<Value>, g: Heap, h: Heap)
    requires k.Some? && |xs| == SimplePops(op) == 1 && AllSame(k, xs, ys) && SameHeap(k, g, h)
    ensures match KnownSimple(op, xs, g)
      case None => KnownSimple(op, ys, h) == None
      case Some(r) => KnownSimple(op, ys, h).Some? && SameResult(k, r, KnownSimple(op, ys, h).value)
  {
    hide SameHeap, StepByOne;
    assert Same(k, xs[0], ys[0]);
    if op == Inc { StepSame(k, xs[0], ys[0], 1, g, h); }
    else if op == Dec { StepSame(k, xs[0], ys[0], -1, g, h); }
    else { SameKind(k, xs[0], ys[0]); }
  }

  lemma StepSame(k: Link, x: Value, y: Value, delta: int, g: Heap, h: Heap)
    requires k.Some? && Same(k, x, y) && SameHeap(k, g, h)
    ensures match StepByOne(x, delta, g)
      case None => StepByOne(y, delta, h) == None
      case Some(r) => StepByOne(y, delta, h).Some? && SameResult(k, r, StepByOne(y, delta, h).value)
  {
    hide SameHeap, Signed8;
  }

  lemma Itself(k: Link, v: Value)
    requires !v.Ref? && !v.Fn?
    ensures Same(k, v, v)
  {
  }

  /** What can be told apart without the heap is equal. */
  lemma SameKind(k: Link, x: Value, y: Value)
    requires Same(k, x, y)
    ensures x.Ref? == y.Ref? && x.Fn? == y.Fn? && (!x.Ref? && !x.Fn? ==> x == y) && Truthy(x) == Truthy(y)
  {
  }

  lemma ArithSame(k: Link, op: SimpleOp, a: Value, b: Value, x: Value, y: Value, g: Heap, h: Heap)
    requires k.Some? && Same(k, a, x) && Same(k, b, y) && SameHeap(k, g, h)
    ensures match KnownArith(op, a, b, g)
      case None => KnownArith(op, x, y, h) == None
      case Some(r) => KnownArith(op, x, y, h).Some? && SameResult(k, r, KnownArith(op, x, y, h).value)
  {
    hide SameHeap, ScalarArith, AsInt, SameResult;
    SameKind(k, a, x);
    SameKind(k, b, y);
    if Scalar(a) && Scalar(b) { NumbersSame(k, op, AsInt(a), AsInt(b), g, h); }
  }

  lemma NumbersSame(k: Link, op: SimpleOp, a: int, b: int, g: Heap, h: Heap)
    requires SameHeap(k, g, h)
    ensures match ScalarArith(op, a, b, g)
      case None => ScalarArith(op, a, b, h) == None
      case Some(r) => ScalarArith(op, a, b, h).Some? && SameResult(k, r, ScalarArith(op, a, b, h).value)
  {
    hide SameHeap, TruncDiv, TruncMod;
  }

  /** Whatever an operator does to operands that correspond, the results do as well. */
  lemma ApplySame(ops: HeapOps, k: Link, p: PrimOp, xs: seq<Value>, ys: seq<Value>, g: Heap, h: Heap) returns (l: Link)
    requires k.Some? ==> Oblivious(ops)
    requires |xs| == Pops(p) && AllSame(k, xs, ys) && SameHeap(k, g, h)
    ensures Grown(k, l) && SameResult(l, Apply(ops, p, xs, g), Apply(ops, p, ys, h))
  {
    hide Known;
    KnownSame(k, p, xs, ys, g, h);
    l := k;
    if Known(p, xs, g) == None {
      if k.Some? {
        assert OpAgrees(ops, k, p, xs, ys, g, h);
        l :| Grown(k, l) && SameResult(l, ops.op(p, xs, g), ops.op(p, ys, h));
      } else {
        assert xs == ys;
      }
    }
  }

  lemma NextSame(ops: HeapOps, k: Link, x: Value, y: Value, g: Heap, h: Heap) returns (l: Link)
    requires k.Some? ==> Oblivious(ops)
    requires Same(k, x, y) && SameHeap(k, g, h)
    ensures Grown(k, l) && SameResult(l, ops.next(x, g), ops.next(y, h))
  {
    l := k;
    if k.Some? {
      assert NextAgrees(ops, k, x, y, g, h);
      l :| Grown(k, l) && SameResult(l, ops.next(x, g), ops.next(y, h));
    }
  }

  /** The same world but for garbage. Frames may have different sizes: the slots both have
      correspond. */
  ghost predicate SameWorld(k: Link, w: World, n: World) {
    AllSame(k, w.globals, n.globals) && SameSlots(k, w.locals, n.locals) && SameHeap(k, w.heap, n.heap)
  }

  predicate SameSlots(k: Link, xs: seq<Value>, ys: seq<Value>) {
    forall i :: 0 <= i < |xs| && i < |ys| ==> Same(k, xs[i], ys[i])
  }

  predicate SameOut(k: Link, x: Out, y: Out) {
    match x
    case Done(xs) => y.Done? && AllSame(k, xs, y.vs)
    case Raised(e) => y.Raised? && Same(k, e, y.x)
    case Returned(v) => y.Returned? && Same(k, v, y.v)
    case Left(l, v, pending) => y.Left? && y.target == l && Same(k, v, y.v) && AllSame(k, pending, y.pending)
    case _ => x == y
  }

  ghost predicate SameRes(k: Link, x: Res, y: Res) {
    SameOut(k, x.out, y.out) && (x.out.OutOfFuel? || SameWorld(k, x.w, y.w))
  }

  lemma {:induction false} AboveAll(s: set<nat>) returns (n: nat)
    ensures forall i :: i in s ==> i < n
    decreases |s|
  {
    n := 0;
    if s != {} {
      var x :| x in s;
      var m := AboveAll(s - {x});
      assert forall i :: i in s ==> i == x || i in s - {x};
      n := if m > x then m else x + 1;
    }
  }

  /** A place where no object is. */
  ghost function Free(h: Heap): (i: nat)
    ensures i !in h
  {
    assert exists i: nat :: i !in h by {
      var n := AboveAll(h.Keys);
      assert n !in h;
    }
    var i: nat :| i !in h;
    i
  }

  ghost function MakeSequence(p: PrimOp, xs: seq<Value>, h: Heap): PrimResult {
    if p.NewArr? || p.NewTuple? then Ok(Ref(0, Free(h)), h[Free(h) := xs]) else Err(Str("Invalid argument"), h)
  }

  /** There are such operators: ones that make sequences in free places, and know nothing
      else. */
  lemma ObliviousMakers() returns (ops: HeapOps)
    ensures Oblivious(ops) && MakesSequences(ops)
  {
    ops := HeapOps(MakeSequence, (x, h) => Err(Str("Invalid argument"), h), (x, h) => None);
    hide Same, SameHeap;
    forall k: Link, p, xs, ys, g, h ensures OpAgrees(ops, k, p, xs, ys, g, h) {
      if |xs| == Pops(p) && AllSame(k, xs, ys) && SameHeap(k, g, h) { var l := MadeSame(k, p, xs, ys, g, h); }
    }
    forall k: Link, x, y, g, h ensures NextAgrees(ops, k, x, y, g, h) {
      if Same(k, x, y) && SameHeap(k, g, h) {
        Itself(k, Str("Invalid argument"));
        assert Grown(k, k) && SameResult(k, ops.next(x, g), ops.next(y, h));
      }
    }
    forall k: Link, x, y, g, h ensures ElementsAgree(ops, k, x, y, g, h) {}
    forall xs: seq<Value>, h ensures Makes(ops, NewArr(|xs|), xs, h) && Makes(ops, NewTuple(|xs|), xs, h) {}
  }

  /** The new objects correspond to each other. */
  lemma MadeSame(k: Link, p: PrimOp, xs: seq<Value>, ys: seq<Value>, g: Heap, h: Heap) returns (l: Link)
    requires AllSame(k, xs, ys) && SameHeap(k, g, h)
    ensures Grown(k, l) && SameResult(l, MakeSequence(p, xs, g), MakeSequence(p, ys, h))
  {
    l := k;
    if k.None? {
      assert xs == ys;
    } else if p.NewArr? || p.NewTuple? {
      l := Some(k.value[Free(g) := Free(h)]);
      AllGrown(k, l, xs, ys);
      forall i | i in k.value ensures AllSame(l, g[i], h[k.value[i]]) { AllGrown(k, l, g[i], h[k.value[i]]); }
    } else {
      Itself(k, Str("Invalid argument"));
    }
  }
}
