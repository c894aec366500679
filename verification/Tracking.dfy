/** A program and its optimized form run side by side: a tree that both have does the
    same in both, though frames have other sizes, bodies are optimized and heaps differ
    in garbage. */
module Tracking {
  import opened Values
  import opened Instructions
  import opened Machine
  import opened Sst
  import opened BigStep
  import opened WellFormed
  import opened Optimize
  import opened Folding
  import opened Garbage
  import opened Arrays

  /** b is the original and a the optimized program. */
  datatype Twins = Twins(ff: FloatFolds, a: Source, b: Source, sh: Shape)

  ghost predicate TwinAt(arrays: bool, t: Twins, f: nat)
    requires |t.a.fns| == |t.b.fns| == |t.a.env.fns| == |t.b.env.fns| && f < |t.b.fns|
  {
    && t.a.env.fns[f] == t.b.env.fns[f].(frameSize := t.a.env.fns[f].frameSize, address := t.a.env.fns[f].address)
    && t.a.fns[f] == t.b.fns[f].(body := OptStmt(t.ff, t.b.fns[f].body))
    && FairStmt(arrays, t.ff, t.b.fns[f].body)
  }

  /** Arrays may be dropped where the operators do not notice. */
  ghost predicate Twinned(arrays: bool, t: Twins) {
    && t.a.env.ops == t.b.env.ops && |t.a.fns| == |t.b.fns| == |t.a.env.fns| == |t.b.env.fns|
    && (arrays ==> Oblivious(t.b.env.ops) && MakesSequences(t.b.env.ops))
    && forall f :: 0 <= f < |t.b.fns| ==> TwinAt(arrays, t, f)
  }

  /** Both programs are well formed and in the same state. */
  ghost predicate Both(k: Link, t: Twins, w: World, n: World) {
    && Twinned(k.Some?, t) && SameWorld(k, w, n)
    && Setting(t.a, t.sh, w, |w.locals|) && Setting(t.b, t.sh, n, |n.locals|)
  }

  /** Both have come to results that correspond. */
  ghost predicate Tracked(
    k: Link, t: Twins, w: World, n: World, x: Res, y: Res, count: nat, targets: set<Label>)
  {
    SameRes(k, x, y) && Good(t.sh, x, |w.locals|, count, targets) && Good(t.sh, y, |n.locals|, count, targets)
  }

  /** From there they go on together. */
  lemma Onward(k: Link, l: Link, t: Twins, w: World, n: World, x: Res, y: Res, count: nat, targets: set<Label>)
    requires Both(k, t, w, n) && Grown(k, l) && Tracked(l, t, w, n, x, y, count, targets)
    ensures !x.out.OutOfFuel? ==>
      Both(l, t, x.w, y.w) && |x.w.locals| == |w.locals| && |y.w.locals| == |n.locals|
    ensures x.out.Done? ==> AllSane(t.sh, x.out.vs) && AllSane(t.sh, y.out.vs)
  {
    hide Sane, SaneOps, WfSource, TwinAt, Oblivious, MakesSequences;
  }

  lemma SameOps(arrays: bool, t: Twins)
    requires Twinned(arrays, t)
    ensures t.a.env.ops == t.b.env.ops && (arrays ==> Oblivious(t.b.env.ops) && MakesSequences(t.b.env.ops))
  {
  }

  lemma PrimTracks(
    k: Link, t: Twins, p: PrimOp, xs: seq<Value>, ys: seq<Value>, w: World, n: World) returns (l: Link)
    requires Both(k, t, w, n) && |xs| == Pops(p) && AllSame(k, xs, ys) && AllSane(t.sh, xs) && AllSane(t.sh, ys)
    ensures Grown(k, l)
    ensures Tracked(l, t, w, n, PrimOut(t.a, p, xs, w), PrimOut(t.b, p, ys, n), if Pushes(p) then 1 else 0, {})
  {
    hide Sane, SaneOps, WfSource, TwinAt, Oblivious, MakesSequences, Apply, SameHeap, Same;
    PrimGood(t.a, t.sh, p, xs, w, |w.locals|);
    PrimGood(t.b, t.sh, p, ys, n, |n.locals|);
    l := ApplySame(t.b.env.ops, k, p, xs, ys, w.heap, n.heap);
    WorldGrown(k, l, w, n);
  }

  /** Globals and slots correspond as before. */
  lemma WorldGrown(k: Link, l: Link, w: World, n: World)
    requires SameWorld(k, w, n) && Grown(k, l)
    ensures AllSame(l, w.globals, n.globals) && SameSlots(l, w.locals, n.locals)
  {
    AllGrown(k, l, w.globals, n.globals);
    SlotsGrown(k, l, w.locals, n.locals);
  }

  lemma LitTracks(k: Link, t: Twins, x: Literal, w: World, n: World) returns (l: Link)
    requires Both(k, t, w, n)
    ensures Grown(k, l) && SameRes(l, EvalLit(t.a, x, w), EvalLit(t.b, x, n))
  {
    hide Setting, Twinned, PrimOut, SameHeap;
    l := k;
    match x
    case FloatLit(bits) => l := PrimTracks(k, t, NewF(bits), [], [], w, n);
    case TypeLit(code) => l := PrimTracks(k, t, NewType(code), [], [], w, n);
    case _ =>
  }

  lemma {:induction false} SameFunctions(a: seq<Context>, b: seq<Context>, l: Label)
    requires |a| == |b| && forall f :: 0 <= f < |a| ==> a[f].name == b[f].name
    ensures FindFn(a, l) == FindFn(b, l)
  {
    if a != [] { SameFunctions(a[1..], b[1..], l); }
  }

  lemma TwinNames(arrays: bool, t: Twins, l: Label)
    requires Twinned(arrays, t)
    ensures FindFn(t.a.env.fns, l) == FindFn(t.b.env.fns, l) && |t.a.env.fns| == |t.b.env.fns|
    ensures forall f :: 0 <= f < |t.b.env.fns| ==> Arity(t.a.env.fns[f]) == Arity(t.b.env.fns[f])
  {
    hide OptStmt, FairStmt, Oblivious, MakesSequences;
    forall f | 0 <= f < |t.b.fns|
      ensures t.a.env.fns[f].name == t.b.env.fns[f].name && Arity(t.a.env.fns[f]) == Arity(t.b.env.fns[f])
    {
      assert TwinAt(arrays, t, f);
    }
    SameFunctions(t.a.env.fns, t.b.env.fns, l);
  }

  /** An expression both programs have. */
  lemma {:induction false} ExprTracks(k: Link, t: Twins, e: Expr, w: World, n: World, fuel: nat) returns (l: Link)
    requires Both(k, t, w, n) && WfExpr(t.a, t.sh, e, |w.locals|) && WfExpr(t.b, t.sh, e, |n.locals|)
    ensures Grown(k, l) && Tracked(l, t, w, n, EvalExpr(t.a, e, w, fuel), EvalExpr(t.b, e, n, fuel), 1, {})
    decreases fuel, e, 4
  {
    hide Twinned, EvalExpr, WfExpr, SameRes, SaneOps, SaneWorld, WfSource, SameWorld;
    l := ExprSame(k, t, e, w, n, fuel);
    GoodExpr(t.a, t.sh, e, w, |w.locals|, fuel);
    GoodExpr(t.b, t.sh, e, n, |n.locals|, fuel);
  }

  lemma {:induction false} ExprSame(k: Link, t: Twins, e: Expr, w: World, n: World, fuel: nat) returns (l: Link)
    requires Both(k, t, w, n) && WfExpr(t.a, t.sh, e, |w.locals|) && WfExpr(t.b, t.sh, e, |n.locals|)
    ensures Grown(k, l) && SameRes(l, EvalExpr(t.a, e, w, fuel), EvalExpr(t.b, e, n, fuel))
    decreases fuel, e, 3
  {
    hide Setting, Twinned, EvalCascade, EvalArms, EvalStrict, EvalNullTest, EvalLogic, EvalTernary, EvalStruct, EvalMap,
      EvalCallExpr, EvalInvokeExpr, EvalInvokeMember, EvalFxPointer, EvalIife, EvalLit, WfStmt, SameHeap;
    l := k;
    match e
    case Lit(x) => l := LitTracks(k, t, x, w, n);
    case Var(i) =>
    case GlobalVar(_) => assert Setting(t.b, t.sh, n, |n.locals|); assert Setting(t.a, t.sh, w, |w.locals|);
    case Strict(_, _) => l := StrictTracks(k, t, e, w, n, fuel);
    case NullTest(_) => l := NullTestTracks(k, t, e, w, n, fuel);
    case Logic(_, _, _) => l := LogicTracks(k, t, e, w, n, fuel);
    case Ternary(_, _, _) => l := TernaryTracks(k, t, e, w, n, fuel);
    case Conditional(cs) => l := CascadeTracks(k, t, cs, w, n, None, fuel);
    case Switch(q, cs) =>
      l := ExprTracks(k, t, q, w, n, fuel);
      var x, y := EvalExpr(t.a, q, w, fuel), EvalExpr(t.b, q, n, fuel);
      if y.out.Done? {
        Onward(k, l, t, w, n, x, y, 1, {});
        var m := ArmsTracks(l, t, x.out.vs[0], y.out.vs[0], cs, x.w, y.w, None, fuel);
        GrownOn(k, l, m);
        l := m;
      }
    case StructLit(_) => l := StructTracks(k, t, e, w, n, fuel);
    case MapLit(_) => l := MapTracks(k, t, e, w, n, fuel);
    case CallExpr(_, _) => l := CallExprTracks(k, t, e, w, n, fuel);
    case InvokeExpr(_, _) => l := InvokeTracks(k, t, e, w, n, fuel);
    case InvokeMember(_, _, _) => l := InvokeMemberTracks(k, t, e, w, n, fuel);
    case FxPointer(_, _) => l := FxPointerTracks(k, t, e, w, n, fuel);
    case Iife(_, _) => l := IifeTracks(k, t, e, w, n, fuel);
  }

  lemma {:induction false} StrictTracks(k: Link, t: Twins, e: Expr, w: World, n: World, fuel: nat) returns (l: Link)
    requires e.Strict?
    requires Both(k, t, w, n) && WfExpr(t.a, t.sh, e, |w.locals|) && WfExpr(t.b, t.sh, e, |n.locals|)
    ensures Grown(k, l) && SameRes(l, EvalStrict(t.a, e, w, fuel), EvalStrict(t.b, e, n, fuel))
    decreases fuel, e, 0
  {
    hide Both, EvalArgs, PrimOut, WfExprs, SameWorld, Same, Sane;
    l := ArgsTracks(k, t, e.args, w, n, fuel);
    var x, y := EvalArgs(t.a, e.args, w, fuel), EvalArgs(t.b, e.args, n, fuel);
    if y.out.Done? {
      Onward(k, l, t, w, n, x, y, Count(e.args), {});
      var m := PrimTracks(l, t, StrictOp(e.node, Count(e.args)), x.out.vs, y.out.vs, x.w, y.w);
      GrownOn(k, l, m);
      l := m;
    }
  }

  lemma {:induction false} NullTestTracks(k: Link, t: Twins, e: Expr, w: World, n: World, fuel: nat) returns (l: Link)
    requires e.NullTest?
    requires Both(k, t, w, n) && WfExpr(t.a, t.sh, e, |w.locals|) && WfExpr(t.b, t.sh, e, |n.locals|)
    ensures Grown(k, l) && SameRes(l, EvalNullTest(t.a, e, w, fuel), EvalNullTest(t.b, e, n, fuel))
    decreases fuel, e, 0
  {
    hide Both, EvalExpr, SameWorld, Sane;
    l := ExprTracks(k, t, e.e, w, n, fuel);
  }

  lemma {:induction false} LogicTracks(k: Link, t: Twins, e: Expr, w: World, n: World, fuel: nat) returns (l: Link)
    requires e.Logic?
    requires Both(k, t, w, n) && WfExpr(t.a, t.sh, e, |w.locals|) && WfExpr(t.b, t.sh, e, |n.locals|)
    ensures Grown(k, l) && SameRes(l, EvalLogic(t.a, e, w, fuel), EvalLogic(t.b, e, n, fuel))
    decreases fuel, e, 0
  {
    hide Both, EvalExpr, SameWorld, Sane;
    l := ExprTracks(k, t, e.l, w, n, fuel);
    var x, y := EvalExpr(t.a, e.l, w, fuel), EvalExpr(t.b, e.l, n, fuel);
    if y.out.Done? {
      Onward(k, l, t, w, n, x, y, 1, {});
      SameKind(l, x.out.vs[0], y.out.vs[0]);
      if !KeepsLeft(e.lop, y.out.vs[0]) {
        var m := ExprTracks(l, t, e.r, x.w, y.w, fuel);
        GrownOn(k, l, m);
        l := m;
        var z := EvalExpr(t.b, e.r, y.w, fuel);
        if z.out.Done? { SameKind(l, EvalExpr(t.a, e.r, x.w, fuel).out.vs[0], z.out.vs[0]); }
      }
    }
  }

  lemma {:induction false} TernaryTracks(k: Link, t: Twins, e: Expr, w: World, n: World, fuel: nat) returns (l: Link)
    requires e.Ternary?
    requires Both(k, t, w, n) && WfExpr(t.a, t.sh, e, |w.locals|) && WfExpr(t.b, t.sh, e, |n.locals|)
    ensures Grown(k, l) && SameRes(l, EvalTernary(t.a, e, w, fuel), EvalTernary(t.b, e, n, fuel))
    decreases fuel, e, 0
  {
    hide Both, EvalExpr, SameWorld, Sane;
    l := ExprTracks(k, t, e.cond, w, n, fuel);
    var x, y := EvalExpr(t.a, e.cond, w, fuel), EvalExpr(t.b, e.cond, n, fuel);
    if y.out.Done? {
      Onward(k, l, t, w, n, x, y, 1, {});
      SameKind(l, x.out.vs[0], y.out.vs[0]);
      var m := ExprTracks(l, t, if Truthy(y.out.vs[0]) then e.thn else e.els, x.w, y.w, fuel);
      GrownOn(k, l, m);
      l := m;
    }
  }

  lemma {:induction false} StructTracks(k: Link, t: Twins, e: Expr, w: World, n: World, fuel: nat) returns (l: Link)
    requires e.StructLit?
    requires Both(k, t, w, n) && WfExpr(t.a, t.sh, e, |w.locals|) && WfExpr(t.b, t.sh, e, |n.locals|)
    ensures Grown(k, l) && SameRes(l, EvalStruct(t.a, e, w, fuel), EvalStruct(t.b, e, n, fuel))
    decreases fuel, e, 0
  {
    hide Both, EvalMembers, PrimOut, SameWorld, Sane, Same;
    l := PrimTracks(k, t, Simple(NewStruct), [], [], w, n);
    var x, y := PrimOut(t.a, Simple(NewStruct), [], w), PrimOut(t.b, Simple(NewStruct), [], n);
    if y.out.Done? {
      Onward(k, l, t, w, n, x, y, 1, {});
      var m := MembersTracks(l, t, x.out.vs[0], y.out.vs[0], e.members, x.w, y.w, fuel);
      GrownOn(k, l, m);
      l := m;
    }
  }

  lemma {:induction false} MapTracks(k: Link, t: Twins, e: Expr, w: World, n: World, fuel: nat) returns (l: Link)
    requires e.MapLit?
    requires Both(k, t, w, n) && WfExpr(t.a, t.sh, e, |w.locals|) && WfExpr(t.b, t.sh, e, |n.locals|)
    ensures Grown(k, l) && SameRes(l, EvalMap(t.a, e, w, fuel), EvalMap(t.b, e, n, fuel))
    decreases fuel, e, 0
  {
    hide Both, EvalPairs, PrimOut, SameWorld, Sane, Same;
    l := PrimTracks(k, t, Simple(NewMap), [], [], w, n);
    var x, y := PrimOut(t.a, Simple(NewMap), [], w), PrimOut(t.b, Simple(NewMap), [], n);
    if y.out.Done? {
      Onward(k, l, t, w, n, x, y, 1, {});
      var m := PairsTracks(l, t, x.out.vs[0], y.out.vs[0], e.pairs, x.w, y.w, fuel);
      GrownOn(k, l, m);
      l := m;
    }
  }

  /** A function and the slots it gets, in both programs. */
  ghost predicate SameInvocation(k: Link, i: Invocation, j: Invocation) {
    match i
    case Target(f, xs, g) => j.Target? && j.f == f && AllSame(k, xs, j.slots) && SameHeap(k, g, j.heap)
    case NoTarget(out, g) => j.NoTarget? && SameOut(k, out, j.out) && SameHeap(k, g, j.heap)
  }

  lemma {:induction false} CallExprTracks(k: Link, t: Twins, e: Expr, w: World, n: World, fuel: nat) returns (l: Link)
    requires e.CallExpr?
    requires Both(k, t, w, n) && WfExpr(t.a, t.sh, e, |w.locals|) && WfExpr(t.b, t.sh, e, |n.locals|)
    ensures Grown(k, l) && SameRes(l, EvalCallExpr(t.a, e, w, fuel), EvalCallExpr(t.b, e, n, fuel))
    decreases fuel, e, 0
  {
    hide Setting, Twinned, EvalArgs, EvalCall, WfExprs, SameSlots, Sane, Same, FindFn;
    TwinNames(k.Some?, t, e.fn);
    l := ArgsTracks(k, t, e.args, w, n, fuel);
    var x, y := EvalArgs(t.a, e.args, w, fuel), EvalArgs(t.b, e.args, n, fuel);
    if y.out.Done? && fuel > 0 {
      Onward(k, l, t, w, n, x, y, Count(e.args), {});
      var f := FindFn(t.b.env.fns, e.fn).value;
      assert SaneHeap(t.sh, x.w.heap) && SaneHeap(t.sh, y.w.heap);
      var m := CallTracks(l, t, Target(f, x.out.vs, x.w.heap), Target(f, y.out.vs, y.w.heap), x.w, y.w, fuel - 1);
      GrownOn(k, l, m);
      l := m;
    }
  }

  /** What a value denotes with these arguments. */
  lemma ResolveTracks(k: Link, t: Twins, fv: Value, gv: Value, xs: seq<Value>, ys: seq<Value>, w: World, n: World)
    returns (l: Link)
    requires Both(k, t, w, n) && Same(k, fv, gv) && AllSame(k, xs, ys) && |xs| < 256
    requires Sane(t.sh, fv) && Sane(t.sh, gv) && AllSane(t.sh, xs) && AllSane(t.sh, ys)
    ensures var i, j := Resolve(t.a, fv, xs, w), Resolve(t.b, gv, ys, n);
      && Grown(k, l) && SameInvocation(l, i, j) && GoodTarget(t.a, t.sh, i) && GoodTarget(t.b, t.sh, j)
      && Both(l, t, w.(heap := i.heap), n.(heap := j.heap))
  {
    hide OptStmt, FairStmt, Oblivious, MakesSequences, SameHeap, WfStmt, SaneOps;
    GoodResolve(t.a, t.sh, fv, xs, w, |w.locals|);
    GoodResolve(t.b, t.sh, gv, ys, n, |n.locals|);
    l := k;
    var i, j := Resolve(t.a, fv, xs, w), Resolve(t.b, gv, ys, n);
    if fv.Fn? {
      assert TwinAt(k.Some?, t, fv.index);
      var c := t.b.env.fns[fv.index];
      if c.isVariadic && |xs| >= c.arity {
        SameOps(k.Some?, t);
        assert AllSame(k, xs[c.arity..], ys[c.arity..]);
        l := ApplySame(t.b.env.ops, k, NewTuple(|xs| - c.arity), xs[c.arity..], ys[c.arity..], w.heap, n.heap);
        AllGrown(k, l, xs, ys);
      }
      FunctionResolves(k, l, t, fv, gv, xs, ys, w, n);
    } else {
      OtherResolves(k, t, fv, gv, xs, ys, w, n);
    }
    WorldGrown(k, l, w, n);
    ResolvedWorld(k, l, t, w, n, i, j);
  }

  lemma ResolvedWorld(k: Link, l: Link, t: Twins, w: World, n: World, i: Invocation, j: Invocation)
    requires Both(k, t, w, n) && Grown(k, l) && SameInvocation(l, i, j)
    requires GoodTarget(t.a, t.sh, i) && GoodTarget(t.b, t.sh, j)
    requires AllSame(l, w.globals, n.globals) && SameSlots(l, w.locals, n.locals)
    ensures Both(l, t, w.(heap := i.heap), n.(heap := j.heap))
  {
    hide Sane, SaneOps, WfSource, TwinAt, Oblivious, MakesSequences, Same;
  }

  lemma OtherResolves(k: Link, t: Twins, fv: Value, gv: Value, xs: seq<Value>, ys: seq<Value>, w: World, n: World)
    requires Both(k, t, w, n) && Same(k, fv, gv) && !fv.Fn?
    requires Sane(t.sh, fv) && Sane(t.sh, gv)
    ensures SameInvocation(k, Resolve(t.a, fv, xs, w), Resolve(t.b, gv, ys, n))
  {
    hide Setting, Twinned, SameHeap;
  }

  lemma FunctionResolves(
    k: Link, l: Link, t: Twins, fv: Value, gv: Value, xs: seq<Value>, ys: seq<Value>, w: World, n: World)
    requires Both(k, t, w, n) && Same(k, fv, gv) && AllSame(k, xs, ys) && |xs| < 256 && fv.Fn? && Sane(t.sh, fv)
    requires Grown(k, l) && fv.index < |t.b.env.fns| && TwinAt(k.Some?, t, fv.index)
    requires var c := t.b.env.fns[fv.index];
      if c.isVariadic && |xs| >= c.arity then
        && AllSame(l, xs, ys)
        && SameResult(l, Apply(t.b.env.ops, NewTuple(|xs| - c.arity), xs[c.arity..], w.heap),
                      Apply(t.b.env.ops, NewTuple(|ys| - c.arity), ys[c.arity..], n.heap))
      else l == k
    ensures SameInvocation(l, Resolve(t.a, fv, xs, w), Resolve(t.b, gv, ys, n))
  {
    hide Apply, SameHeap, OptStmt, FairStmt, Setting, Oblivious, MakesSequences, Same, Decimal;
    var c := t.b.env.fns[fv.index];
    CapturesSame(k, l, fv, gv);
    if c.isVariadic && |xs| >= c.arity {
      assert AllSame(l, xs[..c.arity], ys[..c.arity]);
    } else if c.isVariadic || |xs| != c.arity {
      var e := InvalidParameters(c.arity, |xs|);
      Itself(k, e);
    } else {
      assert AllSame(l, xs + fv.captured, ys + gv.captured);
    }
  }

  lemma CapturesSame(k: Link, l: Link, fv: Value, gv: Value)
    requires Same(k, fv, gv) && fv.Fn? && Grown(k, l)
    ensures gv.Fn? && gv.index == fv.index && AllSame(l, fv.captured, gv.captured)
  {
    SameGrown(k, l, fv, gv);
    if l.None? { assert forall i :: 0 <= i < |fv.captured| ==> Same(l, fv.captured[i], gv.captured[i]); }
  }

  lemma {:induction false} InvokeTracks(k: Link, t: Twins, e: Expr, w: World, n: World, fuel: nat) returns (l: Link)
    requires e.InvokeExpr?
    requires Both(k, t, w, n) && WfExpr(t.a, t.sh, e, |w.locals|) && WfExpr(t.b, t.sh, e, |n.locals|)
    ensures Grown(k, l) && SameRes(l, EvalInvokeExpr(t.a, e, w, fuel), EvalInvokeExpr(t.b, e, n, fuel))
    decreases fuel, e, 0
  {
    hide Both, EvalArgs, EvalExpr, EvalCall, Resolve, WfExprs, SameWorld, Sane, Same;
    l := ArgsTracks(k, t, e.args, w, n, fuel);
    var x, y := EvalArgs(t.a, e.args, w, fuel), EvalArgs(t.b, e.args, n, fuel);
    if !y.out.Done? { return; }
    Onward(k, l, t, w, n, x, y, Count(e.args), {});
    var m := ExprTracks(l, t, e.fnExpr, x.w, y.w, fuel);
    var fx, fy := EvalExpr(t.a, e.fnExpr, x.w, fuel), EvalExpr(t.b, e.fnExpr, y.w, fuel);
    GrownOn(k, l, m);
    if fy.out.Done? && fuel > 0 {
      Onward(l, m, t, x.w, y.w, fx, fy, 1, {});
      AllGrown(l, m, x.out.vs, y.out.vs);
      var o := InvocationTracks(m, t, e.args, fx.out.vs[0], fy.out.vs[0], x.out.vs, y.out.vs, fx.w, fy.w, fuel - 1);
      GrownOn(k, m, o);
      m := o;
    }
    l := m;
  }

  /** Resolving and calling. */
  lemma {:induction false} InvocationTracks(
    k: Link, t: Twins, es: Exprs, fv: Value, gv: Value, xs: seq<Value>, ys: seq<Value>, w: World, n: World, fuel: nat)
    returns (l: Link)
    requires Both(k, t, w, n) && Same(k, fv, gv) && AllSame(k, xs, ys) && |xs| < 256
    requires Sane(t.sh, fv) && Sane(t.sh, gv) && AllSane(t.sh, xs) && AllSane(t.sh, ys)
    ensures Grown(k, l)
    ensures SameRes(l, EvalCall(t.a, Resolve(t.a, fv, xs, w), w, fuel), EvalCall(t.b, Resolve(t.b, gv, ys, n), n, fuel))
    decreases fuel + 1, es, 9
  {
    hide Both, EvalCall, Resolve, SameWorld, Sane, Same, GoodTarget, SameInvocation;
    l := ResolveTracks(k, t, fv, gv, xs, ys, w, n);
    var m := CallTracks(l, t, Resolve(t.a, fv, xs, w), Resolve(t.b, gv, ys, n), w, n, fuel);
    GrownOn(k, l, m);
    l := m;
  }

  lemma {:induction false} InvokeMemberTracks(
    k: Link, t: Twins, e: Expr, w: World, n: World, fuel: nat) returns (l: Link)
    requires e.InvokeMember?
    requires Both(k, t, w, n) && WfExpr(t.a, t.sh, e, |w.locals|) && WfExpr(t.b, t.sh, e, |n.locals|)
    ensures Grown(k, l) && SameRes(l, EvalInvokeMember(t.a, e, w, fuel), EvalInvokeMember(t.b, e, n, fuel))
    decreases fuel, e, 0
  {
    hide Both, EvalArgs, EvalExpr, EvalCall, Resolve, PrimOut, WfExprs, SameWorld, Sane, Same;
    l := ExprTracks(k, t, e.e, w, n, fuel);
    var ox, oy := EvalExpr(t.a, e.e, w, fuel), EvalExpr(t.b, e.e, n, fuel);
    if !oy.out.Done? { return; }
    Onward(k, l, t, w, n, ox, oy, 1, {});
    var m := PrimTracks(l, t, MemberRead(e.id), ox.out.vs, oy.out.vs, ox.w, oy.w);
    var fx, fy := PrimOut(t.a, MemberRead(e.id), ox.out.vs, ox.w), PrimOut(t.b, MemberRead(e.id), oy.out.vs, oy.w);
    GrownOn(k, l, m);
    if !fy.out.Done? { l := m; return; }
    Onward(l, m, t, ox.w, oy.w, fx, fy, 1, {});
    var o := ArgsTracks(m, t, e.args, fx.w, fy.w, fuel);
    var x, y := EvalArgs(t.a, e.args, fx.w, fuel), EvalArgs(t.b, e.args, fy.w, fuel);
    GrownOn(k, m, o);
    if y.out.Done? && fuel > 0 {
      Onward(m, o, t, fx.w, fy.w, x, y, Count(e.args), {});
      GrownOn(l, m, o);
      AllGrown(l, o, ox.out.vs, oy.out.vs);
      AllGrown(m, o, fx.out.vs, fy.out.vs);
      var p := InvocationTracks(
        o, t, e.args, fx.out.vs[0], fy.out.vs[0], ox.out.vs + x.out.vs, oy.out.vs + y.out.vs, x.w, y.w, fuel - 1);
      GrownOn(k, o, p);
      o := p;
    }
    l := o;
  }

  lemma {:induction false} FxPointerTracks(
    k: Link, t: Twins, e: Expr, w: World, n: World, fuel: nat) returns (l: Link)
    requires e.FxPointer?
    requires Both(k, t, w, n) && WfExpr(t.a, t.sh, e, |w.locals|) && WfExpr(t.b, t.sh, e, |n.locals|)
    ensures Grown(k, l) && SameRes(l, EvalFxPointer(t.a, e, w, fuel), EvalFxPointer(t.b, e, n, fuel))
    decreases fuel, e, 0
  {
    hide Setting, Twinned, EvalArgs, WfExprs, SameWorld, Sane, FindFn;
    TwinNames(k.Some?, t, e.fn);
    l := ArgsTracks(k, t, e.args, w, n, fuel);
  }

  lemma {:induction false} IifeTracks(k: Link, t: Twins, e: Expr, w: World, n: World, fuel: nat) returns (l: Link)
    requires e.Iife?
    requires Both(k, t, w, n) && WfExpr(t.a, t.sh, e, |w.locals|) && WfExpr(t.b, t.sh, e, |n.locals|)
    ensures Grown(k, l) && SameRes(l, EvalIife(t.a, e, w, fuel), EvalIife(t.b, e, n, fuel))
    decreases fuel, e, 0
  {
    hide Both, EvalStmt, WfStmt, SameWorld, Sane;
    l := StmtTracks(k, t, e.body, w, n, {e.end}, fuel);
  }

  lemma {:induction false} ArgsTracks(k: Link, t: Twins, es: Exprs, w: World, n: World, fuel: nat) returns (l: Link)
    requires Both(k, t, w, n) && WfExprs(t.a, t.sh, es, |w.locals|) && WfExprs(t.b, t.sh, es, |n.locals|)
    ensures Grown(k, l)
    ensures Tracked(l, t, w, n, EvalArgs(t.a, es, w, fuel), EvalArgs(t.b, es, n, fuel), Count(es), {})
    decreases fuel, es, 0
  {
    hide Both, Setting, EvalExpr, WfExpr, SameWorld, Same, Sane, Good;
    BothSet(k, t, w, n);
    GoodArgs(t.a, t.sh, es, w, |w.locals|, fuel);
    GoodArgs(t.b, t.sh, es, n, |n.locals|, fuel);
    l := k;
    if es.ENil? {
      NothingTracks(k, t, w, n);
    } else {
      l := ExprTracks(k, t, es.head, w, n, fuel);
      var x, y := EvalExpr(t.a, es.head, w, fuel), EvalExpr(t.b, es.head, n, fuel);
      assert Good(t.sh, y, |n.locals|, 1, {}) && Good(t.sh, x, |w.locals|, 1, {});
      assert x.out.Done? ==> |x.out.vs| == 1 by { OneOf(t.sh, x, |w.locals|, 1); }
      assert y.out.Done? ==> |y.out.vs| == 1 by { OneOf(t.sh, y, |n.locals|, 1); }
      if y.out.Done? {
        Onward(k, l, t, w, n, x, y, 1, {});
        var m := ArgsTracks(l, t, es.tail, x.w, y.w, fuel);
        GrownOn(k, l, m);
        AllGrown(l, m, x.out.vs, y.out.vs);
        l := m;
      }
    }
  }

  lemma BothSet(k: Link, t: Twins, w: World, n: World)
    requires Both(k, t, w, n)
    ensures Setting(t.a, t.sh, w, |w.locals|) && Setting(t.b, t.sh, n, |n.locals|)
  {
    hide Twinned, Setting, SameWorld;
  }

  lemma OneOf(sh: Shape, r: Res, slots: nat, count: nat)
    requires Good(sh, r, slots, count, {})
    ensures r.out.Done? ==> |r.out.vs| == count
  {
  }

  lemma NothingTracks(k: Link, t: Twins, w: World, n: World)
    requires Both(k, t, w, n)
    ensures SameWorld(k, w, n)
  {
  }

  lemma {:induction false} MembersTracks(
    k: Link, t: Twins, o: Value, p: Value, ms: Members, w: World, n: World, fuel: nat) returns (l: Link)
    requires Both(k, t, w, n) && WfMembers(t.a, t.sh, ms, |w.locals|) && WfMembers(t.b, t.sh, ms, |n.locals|)
    requires Same(k, o, p) && Sane(t.sh, o) && Sane(t.sh, p)
    ensures Grown(k, l) && SameRes(l, EvalMembers(t.a, o, ms, w, fuel), EvalMembers(t.b, p, ms, n, fuel))
    decreases fuel, ms, 0
  {
    hide Both, EvalExpr, WfExpr, PrimOut, SameWorld, Same, Sane;
    l := k;
    if ms.MNil? { NothingTracks(k, t, w, n); return; }
    l := ExprTracks(k, t, ms.e, w, n, fuel);
    var x, y := EvalExpr(t.a, ms.e, w, fuel), EvalExpr(t.b, ms.e, n, fuel);
    if !y.out.Done? { return; }
    Onward(k, l, t, w, n, x, y, 1, {});
    SameGrown(k, l, o, p);
    var xs, ys := x.out.vs + [o], y.out.vs + [p];
    var m := PrimTracks(l, t, MemberWrite(ms.id), xs, ys, x.w, y.w);
    GrownOn(k, l, m);
    var px, py := PrimOut(t.a, MemberWrite(ms.id), xs, x.w), PrimOut(t.b, MemberWrite(ms.id), ys, y.w);
    if py.out.Done? {
      Onward(l, m, t, x.w, y.w, px, py, 0, {});
      SameGrown(k, m, o, p);
      var q := MembersTracks(m, t, o, p, ms.tail, px.w, py.w, fuel);
      GrownOn(k, m, q);
      m := q;
    }
    l := m;
  }

  lemma {:induction false} PairsTracks(
    k: Link, t: Twins, o: Value, p: Value, ps: Pairs, w: World, n: World, fuel: nat) returns (l: Link)
    requires Both(k, t, w, n) && WfPairs(t.a, t.sh, ps, |w.locals|) && WfPairs(t.b, t.sh, ps, |n.locals|)
    requires Same(k, o, p) && Sane(t.sh, o) && Sane(t.sh, p)
    ensures Grown(k, l) && SameRes(l, EvalPairs(t.a, o, ps, w, fuel), EvalPairs(t.b, p, ps, n, fuel))
    decreases fuel, ps, 1
  {
    hide Both, EvalExpr, WfExpr, PrimOut, SameWorld, Same, Sane;
    l := k;
    if ps.PNil? { NothingTracks(k, t, w, n); return; }
    l := ExprTracks(k, t, ps.val, w, n, fuel);
    var x, y := EvalExpr(t.a, ps.val, w, fuel), EvalExpr(t.b, ps.val, n, fuel);
    if !y.out.Done? { return; }
    Onward(k, l, t, w, n, x, y, 1, {});
    var m := ExprTracks(l, t, ps.key, x.w, y.w, fuel);
    GrownOn(k, l, m);
    var kx, ky := EvalExpr(t.a, ps.key, x.w, fuel), EvalExpr(t.b, ps.key, y.w, fuel);
    if !ky.out.Done? { l := m; return; }
    Onward(l, m, t, x.w, y.w, kx, ky, 1, {});
    SameGrown(k, m, o, p);
    AllGrown(l, m, x.out.vs, y.out.vs);
    l := PairTracks(k, m, t, o, p, x.out.vs, y.out.vs, kx.out.vs, ky.out.vs, ps, kx.w, ky.w, fuel);
  }

  /** From the write of a pair on. */
  lemma {:induction false} PairTracks(
    k: Link, m: Link, t: Twins, o: Value, p: Value, xs: seq<Value>, ys: seq<Value>,
    kxs: seq<Value>, kys: seq<Value>, ps: Pairs, w: World, n: World, fuel: nat) returns (l: Link)
    requires ps.PCons? && Grown(k, m) && Both(m, t, w, n) && |xs| == |ys| == |kxs| == |kys| == 1
    requires WfPairs(t.a, t.sh, ps.tail, |w.locals|) && WfPairs(t.b, t.sh, ps.tail, |n.locals|)
    requires Same(m, o, p) && Sane(t.sh, o) && Sane(t.sh, p) && AllSame(m, xs, ys) && AllSame(m, kxs, kys)
    requires AllSane(t.sh, xs) && AllSane(t.sh, ys) && AllSane(t.sh, kxs) && AllSane(t.sh, kys)
    ensures Grown(k, l)
    ensures var rx, ry := PrimOut(t.a, Simple(AtWrite), xs + [o] + kxs, w),
        PrimOut(t.b, Simple(AtWrite), ys + [p] + kys, n);
      SameRes(l, if rx.out.Done? then EvalPairs(t.a, o, ps.tail, rx.w, fuel) else rx,
              if ry.out.Done? then EvalPairs(t.b, p, ps.tail, ry.w, fuel) else ry)
    decreases fuel, ps, 0
  {
    hide Both, EvalPairs, WfPairs, PrimOut, SameWorld, Same, Sane;
    var us, vs := xs + [o] + kxs, ys + [p] + kys;
    l := PrimTracks(m, t, Simple(AtWrite), us, vs, w, n);
    GrownOn(k, m, l);
    var rx, ry := PrimOut(t.a, Simple(AtWrite), us, w), PrimOut(t.b, Simple(AtWrite), vs, n);
    if ry.out.Done? {
      Onward(m, l, t, w, n, rx, ry, 0, {});
      SameGrown(m, l, o, p);
      var q := PairsTracks(l, t, o, p, ps.tail, rx.w, ry.w, fuel);
      GrownOn(k, l, q);
      l := q;
    }
  }

  lemma {:induction false} NodeTracks(
    k: Link, t: Twins, x: Node, w: World, n: World, targets: Option<set<Label>>, fuel: nat) returns (l: Link)
    requires Both(k, t, w, n)
    requires WfNode(t.a, t.sh, x, |w.locals|, targets) && WfNode(t.b, t.sh, x, |n.locals|, targets)
    ensures Grown(k, l) && SameRes(l, EvalNode(t.a, x, w, fuel), EvalNode(t.b, x, n, fuel))
    decreases fuel, x, 0
  {
    hide Both, EvalExpr, WfExpr, EvalStmt, WfStmt, SameRes;
    match x
    case E(e) => l := ExprTracks(k, t, e, w, n, fuel);
    case S(s) => l := StmtTracks(k, t, s, w, n, targets.value, fuel);
  }

  lemma {:induction false} CascadeTracks(
    k: Link, t: Twins, cs: Cases, w: World, n: World, targets: Option<set<Label>>, fuel: nat) returns (l: Link)
    requires Both(k, t, w, n)
    requires WfCases(t.a, t.sh, cs, |w.locals|, targets) && WfCases(t.b, t.sh, cs, |n.locals|, targets)
    ensures Grown(k, l) && SameRes(l, EvalCascade(t.a, cs, w, fuel), EvalCascade(t.b, cs, n, fuel))
    decreases fuel, cs, 0
  {
    hide Both, EvalExpr, WfExpr, EvalNode, WfNode, SameWorld, Sane;
    match cs
    case Otherwise(b) => l := NodeTracks(k, t, b, w, n, targets, fuel);
    case CCons(c, b, tail) =>
      l := ExprTracks(k, t, c, w, n, fuel);
      var x, y := EvalExpr(t.a, c, w, fuel), EvalExpr(t.b, c, n, fuel);
      if y.out.Done? {
        Onward(k, l, t, w, n, x, y, 1, {});
        SameKind(l, x.out.vs[0], y.out.vs[0]);
        var m := l;
        if Truthy(y.out.vs[0]) { m := NodeTracks(l, t, b, x.w, y.w, targets, fuel); }
        else { m := CascadeTracks(l, t, tail, x.w, y.w, targets, fuel); }
        GrownOn(k, l, m);
        l := m;
      }
  }

  lemma {:induction false} ArmsTracks(
    k: Link, t: Twins, v: Value, u: Value, cs: Cases, w: World, n: World, targets: Option<set<Label>>, fuel: nat)
    returns (l: Link)
    requires Both(k, t, w, n) && Same(k, v, u) && Sane(t.sh, v) && Sane(t.sh, u)
    requires WfCases(t.a, t.sh, cs, |w.locals|, targets) && WfCases(t.b, t.sh, cs, |n.locals|, targets)
    ensures Grown(k, l) && SameRes(l, EvalArms(t.a, v, cs, w, fuel), EvalArms(t.b, u, cs, n, fuel))
    decreases fuel, cs, 1
  {
    hide Both, EvalExpr, WfExpr, EvalNode, WfNode, PrimOut, SameWorld, Sane, Same;
    match cs
    case Otherwise(b) => l := NodeTracks(k, t, b, w, n, targets, fuel);
    case CCons(c, b, tail) =>
      l := ExprTracks(k, t, c, w, n, fuel);
      var x, y := EvalExpr(t.a, c, w, fuel), EvalExpr(t.b, c, n, fuel);
      if !y.out.Done? { return; }
      Onward(k, l, t, w, n, x, y, 1, {});
      SameGrown(k, l, v, u);
      l := ArmTracks(k, l, t, v, u, x.out.vs, y.out.vs, cs, x.w, y.w, targets, fuel);
  }

  /** From the comparison with a label on. */
  lemma {:induction false} ArmTracks(
    k: Link, m: Link, t: Twins, v: Value, u: Value, xs: seq<Value>, ys: seq<Value>, cs: Cases, w: World, n: World,
    targets: Option<set<Label>>, fuel: nat) returns (l: Link)
    requires cs.CCons? && Grown(k, m) && Both(m, t, w, n) && |xs| == |ys| == 1 && AllSame(m, xs, ys)
    requires AllSane(t.sh, xs) && AllSane(t.sh, ys) && Same(m, v, u) && Sane(t.sh, v) && Sane(t.sh, u)
    requires WfNode(t.a, t.sh, cs.body, |w.locals|, targets) && WfNode(t.b, t.sh, cs.body, |n.locals|, targets)
    requires WfCases(t.a, t.sh, cs.tail, |w.locals|, targets) && WfCases(t.b, t.sh, cs.tail, |n.locals|, targets)
    ensures Grown(k, l)
    ensures var rx, ry := PrimOut(t.a, Simple(Ueql), [v] + xs, w), PrimOut(t.b, Simple(Ueql), [u] + ys, n);
      SameRes(l, AfterTest(t.a, rx, v, cs, fuel), AfterTest(t.b, ry, u, cs, fuel))
    decreases fuel, cs, 0
  {
    hide Both, EvalArms, WfCases, EvalNode, WfNode, PrimOut, SameWorld, Sane, Same;
    l := PrimTracks(m, t, Simple(Ueql), [v] + xs, [u] + ys, w, n);
    GrownOn(k, m, l);
    var rx, ry := PrimOut(t.a, Simple(Ueql), [v] + xs, w), PrimOut(t.b, Simple(Ueql), [u] + ys, n);
    if ry.out.Done? {
      Onward(m, l, t, w, n, rx, ry, 1, {});
      SameGrown(m, l, v, u);
      SameKind(l, rx.out.vs[0], ry.out.vs[0]);
      var q := l;
      if Truthy(ry.out.vs[0]) { q := ArmsTracks(l, t, v, u, cs.tail, rx.w, ry.w, targets, fuel); }
      else { q := NodeTracks(l, t, cs.body, rx.w, ry.w, targets, fuel); }
      GrownOn(k, l, q);
      l := q;
    }
  }

  /** After the comparison of v with a label. */
  function AfterTest(u: Source, r: Res, v: Value, cs: Cases, fuel: nat): Res
    requires cs.CCons? && (r.out.Done? ==> |r.out.vs| == 1)
  {
    if !r.out.Done? then r
    else if Truthy(r.out.vs[0]) then EvalArms(u, v, cs.tail, r.w, fuel)
    else EvalNode(u, cs.body, r.w, fuel)
  }

  lemma FrameSane(sh: Shape, slots: seq<Value>, size: nat)
    requires AllSane(sh, slots)
    ensures AllSane(sh, slots + Nulls(size)) && |slots + Nulls(size)| == |slots| + size
  {
  }

  /** Frames of both programs start with the same slots; the others are empty. */
  lemma FrameSame(k: Link, xs: seq<Value>, ys: seq<Value>, few: nat, many: nat)
    requires AllSame(k, xs, ys)
    ensures SameSlots(k, xs + Nulls(few), ys + Nulls(many))
  {
    Itself(k, Null);
  }

  /** The start of a body: its frame and the state it finds. */
  lemma BodyStarts(
    k: Link, t: Twins, xs: seq<Value>, ys: seq<Value>, few: nat, many: nat, w: World, n: World)
    requires Both(k, t, w, n) && AllSame(k, xs, ys) && AllSane(t.sh, xs) && AllSane(t.sh, ys)
    ensures Both(k, t, w.(locals := xs + Nulls(few)), n.(locals := ys + Nulls(many)))
    ensures |xs + Nulls(few)| == |xs| + few && |ys + Nulls(many)| == |ys| + many
  {
    hide Sane, SaneOps, WfSource, Twinned, Same, Nulls;
    FrameSame(k, xs, ys, few, many);
    FrameSane(t.sh, xs, few);
    FrameSane(t.sh, ys, many);
  }

  lemma {:induction false} CallTracks(
    k: Link, t: Twins, i: Invocation, j: Invocation, w: World, n: World, fuel: nat) returns (l: Link)
    requires SameInvocation(k, i, j) && GoodTarget(t.a, t.sh, i) && GoodTarget(t.b, t.sh, j)
    requires Both(k, t, w.(heap := i.heap), n.(heap := j.heap))
    ensures Grown(k, l) && SameRes(l, EvalCall(t.a, i, w, fuel), EvalCall(t.b, j, n, fuel))
    decreases fuel
  {
    hide Sane, SaneOps, EvalStmt, WfStmt, Nulls, OptStmt, FairStmt, Oblivious, MakesSequences, Same;
    l := k;
    if i.NoTarget? { return; }
    assert WfFunction(t.a, t.sh, i.f) && WfFunction(t.b, t.sh, i.f) && TwinAt(k.Some?, t, i.f);
    var few, many := t.a.env.fns[i.f].frameSize, t.b.env.fns[i.f].frameSize;
    BodyStarts(k, t, i.slots, j.slots, few, many, w.(heap := i.heap), n.(heap := j.heap));
    var w0, n0 := World(w.globals, i.slots + Nulls(few), i.heap), World(n.globals, j.slots + Nulls(many), j.heap);
    assert w0 == w.(heap := i.heap).(locals := i.slots + Nulls(few));
    assert n0 == n.(heap := j.heap).(locals := j.slots + Nulls(many));
    l := OptStmtTracks(k, t, t.b.fns[i.f].body, w0, n0, {}, fuel);
    var x, y := EvalStmt(t.a, t.a.fns[i.f].body, w0, fuel), EvalStmt(t.b, t.b.fns[i.f].body, n0, fuel);
    Onward(k, l, t, w0, n0, x, y, 0, {});
    CallerSame(k, l, t, w.(heap := i.heap), n.(heap := j.heap));
    if y.out.Raised? && t.b.fns[i.f].except.Some? {
      var m := HandlerTracks(l, t, i.f, x, y, w, n, fuel);
      GrownOn(k, l, m);
      l := m;
    } else {
      ResultSame(l, x, y, w, n);
    }
  }

  /** The result of a body as its caller sees it. */
  lemma ResultSame(k: Link, x: Res, y: Res, w: World, n: World)
    requires SameRes(k, x, y) && SameSlots(k, w.locals, n.locals)
    ensures SameRes(k, CallResult(x, w), CallResult(y, n))
  {
    hide Same, SameHeap, SameSlots;
    Itself(k, Null);
  }

  /** The caller has its slots back. */
  lemma CallerSame(k: Link, l: Link, t: Twins, w: World, n: World)
    requires Both(k, t, w, n) && Grown(k, l)
    ensures SameSlots(l, w.locals, n.locals)
  {
    WorldGrown(k, l, w, n);
  }

  lemma {:induction false} HandlerTracks(
    k: Link, t: Twins, f: nat, x: Res, y: Res, w: World, n: World, fuel: nat) returns (l: Link)
    requires Both(k, t, x.w, y.w) && f < |t.b.fns| && x.out.Raised? && y.out.Raised? && Same(k, x.out.x, y.out.x)
    requires Sane(t.sh, x.out.x) && Sane(t.sh, y.out.x) && t.b.fns[f].except.Some?
    requires f < |t.sh.captures| && SameSlots(k, w.locals, n.locals)
    ensures f < |t.a.fns| && f < |t.a.env.fns| && f < |t.b.env.fns| && t.a.fns[f].except == t.b.fns[f].except
    ensures Grown(k, l)
    ensures var e := t.b.fns[f].except.value;
      SameRes(l,
        CallResult(EvalStmt(t.a, e, x.w.(locals := [x.out.x] + Nulls(t.a.env.fns[f].frameSize)), fuel), w),
        CallResult(EvalStmt(t.b, e, y.w.(locals := [y.out.x] + Nulls(t.b.env.fns[f].frameSize)), fuel), n))
    decreases fuel, t.b.fns[f].except.value, 7
  {
    hide Sane, SaneOps, EvalStmt, WfStmt, Nulls, OptStmt, FairStmt, Oblivious, MakesSequences, Same, SameWorld;
    assert WfFunction(t.a, t.sh, f) && WfFunction(t.b, t.sh, f) && TwinAt(k.Some?, t, f);
    var e, few, many := t.b.fns[f].except.value, t.a.env.fns[f].frameSize, t.b.env.fns[f].frameSize;
    BodyStarts(k, t, [x.out.x], [y.out.x], few, many, x.w, y.w);
    var w1, n1 := x.w.(locals := [x.out.x] + Nulls(few)), y.w.(locals := [y.out.x] + Nulls(many));
    l := StmtTracks(k, t, e, w1, n1, {}, fuel);
    SlotsGrown(k, l, w.locals, n.locals);
    ResultSame(l, EvalStmt(t.a, e, w1, fuel), EvalStmt(t.b, e, n1, fuel), w, n);
  }

  lemma SlotsGrown(k: Link, l: Link, xs: seq<Value>, ys: seq<Value>)
    requires SameSlots(k, xs, ys) && Grown(k, l)
    ensures SameSlots(l, xs, ys)
  {
    forall i | 0 <= i < |xs| && i < |ys| ensures Same(l, xs[i], ys[i]) { SameGrown(k, l, xs[i], ys[i]); }
  }

  lemma ElementsSame(k: Link, t: Twins, x: Value, y: Value, w: World, n: World)
    requires Both(k, t, w, n) && Same(k, x, y)
    ensures match t.a.env.ops.elements(x, w.heap)
      case None => t.b.env.ops.elements(y, n.heap) == None
      case Some(xs) => t.b.env.ops.elements(y, n.heap).Some? && AllSame(k, xs, t.b.env.ops.elements(y, n.heap).value)
  {
    hide Setting, TwinAt, MakesSequences;
    if k.Some? { assert ElementsAgree(t.b.env.ops, k, x, y, w.heap, n.heap); }
  }

  lemma SlotWritten(k: Link, t: Twins, a: nat, x: Value, y: Value, w: World, n: World)
    requires Both(k, t, w, n) && Same(k, x, y)
    ensures a < |w.locals| && a < |n.locals| ==>
      SameWorld(k, w.(locals := w.locals[a := x]), n.(locals := n.locals[a := y]))
    ensures |w.globals| == |n.globals|
    ensures a < |w.globals| ==> SameWorld(k, w.(globals := w.globals[a := x]), n.(globals := n.globals[a := y]))
    ensures SameWorld(k, w, n)
  {
    hide Setting, Twinned, Same, SameHeap;
  }

  lemma {:induction false} BindTracks(
    k: Link, t: Twins, d: Binding, v: Value, u: Value, w: World, n: World, fuel: nat) returns (l: Link)
    requires Both(k, t, w, n) && Same(k, v, u) && Sane(t.sh, v) && Sane(t.sh, u)
    requires WfBinding(t.a, t.sh, d, |w.locals|) && WfBinding(t.b, t.sh, d, |n.locals|)
    ensures Grown(k, l) && Tracked(l, t, w, n, EvalBind(t.a, d, v, w, fuel), EvalBind(t.b, d, u, n, fuel), 0, {})
    decreases fuel, d, 3
  {
    hide Twinned, EvalBind, WfBinding, SameRes, SaneOps, SaneWorld, WfSource, SameWorld, Same, Sane;
    l := BindSame(k, t, d, v, u, w, n, fuel);
    GoodBind(t.a, t.sh, d, v, w, |w.locals|, fuel);
    GoodBind(t.b, t.sh, d, u, n, |n.locals|, fuel);
  }

  lemma {:induction false} BindSame(
    k: Link, t: Twins, d: Binding, v: Value, u: Value, w: World, n: World, fuel: nat) returns (l: Link)
    requires Both(k, t, w, n) && Same(k, v, u) && Sane(t.sh, v) && Sane(t.sh, u)
    requires WfBinding(t.a, t.sh, d, |w.locals|) && WfBinding(t.b, t.sh, d, |n.locals|)
    ensures Grown(k, l) && SameRes(l, EvalBind(t.a, d, v, w, fuel), EvalBind(t.b, d, u, n, fuel))
    decreases fuel, d, 2
  {
    hide Both, EvalGroup, EvalPlace, WfBindings, WfExprs, SameWorld, Sane, Same;
    l := k;
    match d
    case Group(_) => l := GroupTracks(k, t, d, v, u, w, n, fuel);
    case Place(_, _) => l := PlaceTracks(k, t, d, v, u, w, n, fuel);
    case NewVar(a) => SlotWritten(k, t, a, v, u, w, n);
    case Local(a) => SlotWritten(k, t, a, v, u, w, n);
    case Global(a) => SlotWritten(k, t, a, v, u, w, n);
    case Discard => NothingTracks(k, t, w, n);
  }

  lemma {:induction false} PlaceTracks(
    k: Link, t: Twins, d: Binding, v: Value, u: Value, w: World, n: World, fuel: nat) returns (l: Link)
    requires d.Place? && Both(k, t, w, n) && Same(k, v, u) && Sane(t.sh, v) && Sane(t.sh, u)
    requires WfBinding(t.a, t.sh, d, |w.locals|) && WfBinding(t.b, t.sh, d, |n.locals|)
    ensures Grown(k, l) && SameRes(l, EvalPlace(t.a, d, v, w, fuel), EvalPlace(t.b, d, u, n, fuel))
    decreases fuel, d, 0
  {
    hide Both, EvalArgs, WfExprs, PrimOut, SameWorld, Sane, Same;
    l := ArgsTracks(k, t, d.args, w, n, fuel);
    var x, y := EvalArgs(t.a, d.args, w, fuel), EvalArgs(t.b, d.args, n, fuel);
    if y.out.Done? {
      Onward(k, l, t, w, n, x, y, Count(d.args), {});
      SameGrown(k, l, v, u);
      var m := PrimTracks(l, t, PlaceOp(d.place), [v] + x.out.vs, [u] + y.out.vs, x.w, y.w);
      GrownOn(k, l, m);
      l := m;
    }
  }

  lemma {:induction false} GroupTracks(
    k: Link, t: Twins, d: Binding, v: Value, u: Value, w: World, n: World, fuel: nat) returns (l: Link)
    requires d.Group? && Both(k, t, w, n) && Same(k, v, u) && Sane(t.sh, v) && Sane(t.sh, u)
    requires WfBinding(t.a, t.sh, d, |w.locals|) && WfBinding(t.b, t.sh, d, |n.locals|)
    ensures Grown(k, l) && SameRes(l, EvalGroup(t.a, d, v, w, fuel), EvalGroup(t.b, d, u, n, fuel))
    decreases fuel, d, 0
  {
    hide Twinned, EvalBinds, WfBindings, WfSource, SameHeap, Sane, Same;
    l := k;
    NothingTracks(k, t, w, n);
    Itself(k, Str("Not a tuple"));
    Itself(k, Str("Cannot unpack tuple"));
    ElementsSame(k, t, v, u, w, n);
    assert t.a.env.ops == t.b.env.ops by { SameOps(k.Some?, t); }
    var xs, ys := t.a.env.ops.elements(v, w.heap), t.b.env.ops.elements(u, n.heap);
    var count := CountBindings(d.subs);
    if xs.Some? {
      assert AllSane(t.sh, xs.value) && AllSane(t.sh, ys.value);
      if |xs.value| >= count { l := BindsTracks(k, t, d.subs, xs.value[..count], ys.value[..count], w, n, fuel); }
    }
  }

  lemma {:induction false} BindsTracks(
    k: Link, t: Twins, ds: Bindings, vs: seq<Value>, us: seq<Value>, w: World, n: World, fuel: nat) returns (l: Link)
    requires Both(k, t, w, n) && AllSame(k, vs, us) && AllSane(t.sh, vs) && AllSane(t.sh, us)
    requires WfBindings(t.a, t.sh, ds, |w.locals|) && WfBindings(t.b, t.sh, ds, |n.locals|) && |vs| == CountBindings(ds)
    ensures Grown(k, l) && SameRes(l, EvalBinds(t.a, ds, vs, w, fuel), EvalBinds(t.b, ds, us, n, fuel))
    decreases fuel, ds, 0
  {
    hide Both, EvalBind, WfBinding, SameWorld, Sane, Same;
    l := k;
    if ds.BNil? { NothingTracks(k, t, w, n); return; }
    l := BindTracks(k, t, ds.head, vs[0], us[0], w, n, fuel);
    var x, y := EvalBind(t.a, ds.head, vs[0], w, fuel), EvalBind(t.b, ds.head, us[0], n, fuel);
    if y.out.Done? {
      Onward(k, l, t, w, n, x, y, 0, {});
      AllGrown(k, l, vs[1..], us[1..]);
      var m := BindsTracks(l, t, ds.tail, vs[1..], us[1..], x.w, y.w, fuel);
      GrownOn(k, l, m);
      l := m;
    }
  }

  /** A statement both programs have. */
  lemma {:induction false} StmtTracks(
    k: Link, t: Twins, s: Stmt, w: World, n: World, targets: set<Label>, fuel: nat) returns (l: Link)
    requires Both(k, t, w, n)
    requires WfStmt(t.a, t.sh, s, |w.locals|, targets) && WfStmt(t.b, t.sh, s, |n.locals|, targets)
    ensures Grown(k, l) && Tracked(l, t, w, n, EvalStmt(t.a, s, w, fuel), EvalStmt(t.b, s, n, fuel), 0, targets)
    decreases fuel, s, 4
  {
    hide Twinned, EvalStmt, WfStmt, SameRes, SaneOps, SaneWorld, WfSource, SameWorld;
    l := StmtSame(k, t, s, w, n, targets, fuel);
    GoodStmt(t.a, t.sh, s, w, |w.locals|, targets, fuel);
    GoodStmt(t.b, t.sh, s, n, |n.locals|, targets, fuel);
  }

  lemma {:induction false} StmtSame(
    k: Link, t: Twins, s: Stmt, w: World, n: World, targets: set<Label>, fuel: nat) returns (l: Link)
    requires Both(k, t, w, n)
    requires WfStmt(t.a, t.sh, s, |w.locals|, targets) && WfStmt(t.b, t.sh, s, |n.locals|, targets)
    ensures Grown(k, l) && SameRes(l, EvalStmt(t.a, s, w, fuel), EvalStmt(t.b, s, n, fuel))
    decreases fuel, s, 3
  {
    hide Both, EvalCascade, EvalArms, EvalIf, EvalWhile, EvalInfinite, EvalForEach, EvalAssign, EvalStmts, EvalExpr,
      WfExpr, WfCases, WfBinding, WfStmts, SameWorld, Sane;
    l := k;
    match s
    case NoOp => NothingTracks(k, t, w, n);
    case Block(ss) => l := StmtsTrack(k, t, ss, w, n, targets, fuel);
    case IfStmt(_, _, _) => l := IfTracks(k, t, s, w, n, targets, fuel);
    case While(_, _) => l := WhileTracks(k, t, s, w, n, targets, fuel);
    case InfiniteLoop(_) => l := InfiniteTracks(k, t, s, w, n, targets, fuel);
    case ForEach(_, _, _) => l := ForEachTracks(k, t, s, w, n, targets, fuel);
    case SwitchStmt(e, cs) =>
      l := ExprTracks(k, t, e, w, n, fuel);
      var x, y := EvalExpr(t.a, e, w, fuel), EvalExpr(t.b, e, n, fuel);
      if y.out.Done? {
        Onward(k, l, t, w, n, x, y, 1, {});
        var m := ArmsTracks(l, t, x.out.vs[0], y.out.vs[0], cs, x.w, y.w, Some(targets), fuel);
        GrownOn(k, l, m);
        l := m;
      }
    case ConditionalStmt(cs) => l := CascadeTracks(k, t, cs, w, n, Some(targets), fuel);
    case Assign(_, _) => l := AssignTracks(k, t, s, w, n, targets, fuel);
    case ReturnStmt(e, _) => l := ExprTracks(k, t, e, w, n, fuel);
    case ThrowStmt(e) => l := ExprTracks(k, t, e, w, n, fuel);
    case YieldStmt(_) => NothingTracks(k, t, w, n);
    case CoReturnStmt(_) => NothingTracks(k, t, w, n);
  }

  lemma {:induction false} IfTracks(
    k: Link, t: Twins, s: Stmt, w: World, n: World, targets: set<Label>, fuel: nat) returns (l: Link)
    requires s.IfStmt? && Both(k, t, w, n)
    requires WfStmt(t.a, t.sh, s, |w.locals|, targets) && WfStmt(t.b, t.sh, s, |n.locals|, targets)
    ensures Grown(k, l) && SameRes(l, EvalIf(t.a, s, w, fuel), EvalIf(t.b, s, n, fuel))
    decreases fuel, s, 0
  {
    hide Both, EvalExpr, EvalStmt, WfExpr, SameWorld, Sane;
    l := ExprTracks(k, t, s.cond, w, n, fuel);
    var x, y := EvalExpr(t.a, s.cond, w, fuel), EvalExpr(t.b, s.cond, n, fuel);
    if y.out.Done? {
      Onward(k, l, t, w, n, x, y, 1, {});
      NothingTracks(l, t, x.w, y.w);
      SameKind(l, x.out.vs[0], y.out.vs[0]);
      var m := l;
      if Truthy(y.out.vs[0]) { m := StmtTracks(l, t, s.thn, x.w, y.w, targets, fuel); }
      else if s.els.Some? { m := StmtTracks(l, t, s.els.value, x.w, y.w, targets, fuel); }
      GrownOn(k, l, m);
      l := m;
    }
  }

  lemma {:induction false} WhileTracks(
    k: Link, t: Twins, s: Stmt, w: World, n: World, targets: set<Label>, fuel: nat) returns (l: Link)
    requires s.While? && Both(k, t, w, n)
    requires WfStmt(t.a, t.sh, s, |w.locals|, targets) && WfStmt(t.b, t.sh, s, |n.locals|, targets)
    ensures Grown(k, l) && SameRes(l, EvalWhile(t.a, s, w, fuel), EvalWhile(t.b, s, n, fuel))
    decreases fuel, s, 0
  {
    hide Both, EvalExpr, EvalStmt, WfExpr, SameWorld, Sane;
    l := ExprTracks(k, t, s.cond, w, n, fuel);
    var x, y := EvalExpr(t.a, s.cond, w, fuel), EvalExpr(t.b, s.cond, n, fuel);
    if !y.out.Done? { return; }
    SameKind(l, x.out.vs[0], y.out.vs[0]);
    if !Truthy(y.out.vs[0]) { return; }
    Onward(k, l, t, w, n, x, y, 1, {});
    var m := StmtTracks(l, t, s.body, x.w, y.w, targets, fuel);
    GrownOn(k, l, m);
    var dx, dy := EvalStmt(t.a, s.body, x.w, fuel), EvalStmt(t.b, s.body, y.w, fuel);
    if dy.out.Done? && fuel > 0 {
      Onward(l, m, t, x.w, y.w, dx, dy, 0, targets);
      var q := StmtTracks(m, t, s, dx.w, dy.w, targets, fuel - 1);
      GrownOn(k, m, q);
      m := q;
    }
    l := m;
  }

  lemma {:induction false} InfiniteTracks(
    k: Link, t: Twins, s: Stmt, w: World, n: World, targets: set<Label>, fuel: nat) returns (l: Link)
    requires s.InfiniteLoop? && Both(k, t, w, n)
    requires WfStmt(t.a, t.sh, s, |w.locals|, targets) && WfStmt(t.b, t.sh, s, |n.locals|, targets)
    ensures Grown(k, l) && SameRes(l, EvalInfinite(t.a, s, w, fuel), EvalInfinite(t.b, s, n, fuel))
    decreases fuel, s, 0
  {
    hide Both, EvalStmt, SameWorld, Sane;
    l := StmtTracks(k, t, s.body, w, n, targets, fuel);
    var dx, dy := EvalStmt(t.a, s.body, w, fuel), EvalStmt(t.b, s.body, n, fuel);
    if dy.out.Done? && fuel > 0 {
      Onward(k, l, t, w, n, dx, dy, 0, targets);
      var m := StmtTracks(l, t, s, dx.w, dy.w, targets, fuel - 1);
      GrownOn(k, l, m);
      l := m;
    }
  }

  lemma {:induction false} ForEachTracks(
    k: Link, t: Twins, s: Stmt, w: World, n: World, targets: set<Label>, fuel: nat) returns (l: Link)
    requires s.ForEach? && Both(k, t, w, n)
    requires WfStmt(t.a, t.sh, s, |w.locals|, targets) && WfStmt(t.b, t.sh, s, |n.locals|, targets)
    ensures Grown(k, l) && SameRes(l, EvalForEach(t.a, s, w, fuel), EvalForEach(t.b, s, n, fuel))
    decreases fuel, s, 0
  {
    hide Both, EvalExpr, EvalRounds, WfExpr, WfBinding, PrimOut, SameWorld, Sane, Same;
    l := ExprTracks(k, t, s.e, w, n, fuel);
    var x, y := EvalExpr(t.a, s.e, w, fuel), EvalExpr(t.b, s.e, n, fuel);
    if !y.out.Done? { return; }
    Onward(k, l, t, w, n, x, y, 1, {});
    var m := PrimTracks(l, t, Simple(Iter), x.out.vs, y.out.vs, x.w, y.w);
    GrownOn(k, l, m);
    var ix, iy := PrimOut(t.a, Simple(Iter), x.out.vs, x.w), PrimOut(t.b, Simple(Iter), y.out.vs, y.w);
    if iy.out.Done? && fuel > 0 {
      Onward(l, m, t, x.w, y.w, ix, iy, 1, {});
      var q := RoundsTrack(m, t, ix.out.vs[0], iy.out.vs[0], s.bind, s.body, ix.w, iy.w, fuel - 1);
      GrownOn(k, m, q);
      m := q;
    }
    l := m;
  }

  /** The next value of an iterator. */
  lemma NextTracks(k: Link, t: Twins, it: Value, ut: Value, w: World, n: World) returns (l: Link)
    requires Both(k, t, w, n) && Same(k, it, ut) && Sane(t.sh, it) && Sane(t.sh, ut)
    ensures var x, y := t.a.env.ops.next(it, w.heap), t.b.env.ops.next(ut, n.heap);
      && Grown(k, l) && SameResult(l, x, y) && SameWorld(l, w.(heap := x.heap), n.(heap := y.heap))
      && (x.Ok? ==>
            && Sane(t.sh, x.v) && Sane(t.sh, y.v) && (x.v.Stop? <==> y.v.Stop?)
            && Both(l, t, w.(heap := x.heap), n.(heap := y.heap)))
  {
    hide Sane, TwinAt, Oblivious, MakesSequences, SameHeap, WfSource;
    l := NextSame(t.b.env.ops, k, it, ut, w.heap, n.heap);
    WorldGrown(k, l, w, n);
    assert SaneResult(t.sh, t.a.env.ops.next(it, w.heap)) && SaneResult(t.sh, t.b.env.ops.next(ut, n.heap));
  }

  lemma {:induction false} RoundsTrack(
    k: Link, t: Twins, it: Value, ut: Value, bind: Binding, s: Stmt, w: World, n: World, fuel: nat)
    returns (l: Link)
    requires Both(k, t, w, n) && Same(k, it, ut) && Sane(t.sh, it) && Sane(t.sh, ut)
    requires WfBinding(t.a, t.sh, bind, |w.locals|) && WfBinding(t.b, t.sh, bind, |n.locals|)
    requires WfStmt(t.a, t.sh, s, |w.locals|, {}) && WfStmt(t.b, t.sh, s, |n.locals|, {})
    ensures Grown(k, l) && SameRes(l, EvalRounds(t.a, it, bind, s, w, fuel), EvalRounds(t.b, ut, bind, s, n, fuel))
    decreases fuel
  {
    hide Both, EvalRounds, WfBinding, WfStmt, Sane, Same, SameWorld, SameHeap, SameRes, Grown, Round;
    l := NextTracks(k, t, it, ut, w, n);
    var x, y := t.a.env.ops.next(it, w.heap), t.b.env.ops.next(ut, n.heap);
    RoundsAre(t.a, it, bind, s, w, fuel);
    RoundsAre(t.b, ut, bind, s, n, fuel);
    if x.Err? {
      RaisedSame(l, x.exc, y.exc, w.(heap := x.heap), n.(heap := y.heap));
    } else if x.v.Stop? {
      UnitSame(l, w.(heap := x.heap), n.(heap := y.heap));
    } else {
      SameGrown(k, l, it, ut);
      var m := RoundTracks(l, t, it, ut, x.v, y.v, bind, s, w.(heap := x.heap), n.(heap := y.heap), w, n, fuel);
      GrownOn(k, l, m);
      l := m;
    }
  }

  lemma UnitSame(k: Link, w: World, n: World)
    requires SameWorld(k, w, n)
    ensures SameRes(k, Unit(w), Unit(n))
  {
  }

  lemma RaisedSame(k: Link, x: Value, y: Value, w: World, n: World)
    requires Same(k, x, y) && SameWorld(k, w, n)
    ensures SameRes(k, Res(Raised(x), w), Res(Raised(y), n))
  {
  }

  /** A round with the value v, and those after it; w0 is the state before it. */
  function Round(u: Source, it: Value, v: Value, bind: Binding, s: Stmt, w: World, w0: World, fuel: nat): Res {
    var rv := Neutral(EvalBind(u, bind, v, w, fuel));
    if !rv.out.Done? then rv else AfterBind(u, it, bind, s, rv.w, w0, fuel)
  }

  /** The body of a round, and the rounds after it. */
  function AfterBind(u: Source, it: Value, bind: Binding, s: Stmt, w: World, w0: World, fuel: nat): Res {
    var rb := Neutral(EvalStmt(u, s, w, fuel));
    if !rb.out.Done? then OverIterator(rb, it)
    else if fuel == 0 then Res(OutOfFuel, w0)
    else EvalRounds(u, it, bind, s, rb.w, fuel - 1)
  }

  lemma RoundsAre(u: Source, it: Value, bind: Binding, s: Stmt, w: World, fuel: nat)
    ensures var x, r := u.env.ops.next(it, w.heap), EvalRounds(u, it, bind, s, w, fuel);
      && (x.Err? ==> r == Res(Raised(x.exc), w.(heap := x.heap)))
      && (x.Ok? && x.v.Stop? ==> r == Unit(w.(heap := x.heap)))
      && (x.Ok? && !x.v.Stop? ==> r == Round(u, it, x.v, bind, s, w.(heap := x.heap), w, fuel))
  {
    hide EvalBind, EvalStmt;
  }

  lemma {:induction false} RoundTracks(
    k: Link, t: Twins, it: Value, ut: Value, v: Value, u: Value, bind: Binding, s: Stmt,
    w: World, n: World, w0: World, n0: World, fuel: nat) returns (l: Link)
    requires Both(k, t, w, n) && Same(k, it, ut) && Sane(t.sh, it) && Sane(t.sh, ut)
    requires Same(k, v, u) && Sane(t.sh, v) && Sane(t.sh, u)
    requires WfBinding(t.a, t.sh, bind, |w.locals|) && WfBinding(t.b, t.sh, bind, |n.locals|)
    requires WfStmt(t.a, t.sh, s, |w.locals|, {}) && WfStmt(t.b, t.sh, s, |n.locals|, {})
    ensures Grown(k, l) && SameRes(l, Round(t.a, it, v, bind, s, w, w0, fuel), Round(t.b, ut, u, bind, s, n, n0, fuel))
    decreases fuel, ForEach(bind, Lit(NullLit), s), 1
  {
    hide Both, EvalBind, AfterBind, WfBinding, WfStmt, Sane, Same, SameWorld;
    l := BindTracks(k, t, bind, v, u, w, n, fuel);
    var x, y := EvalBind(t.a, bind, v, w, fuel), EvalBind(t.b, bind, u, n, fuel);
    if y.out.Done? {
      Onward(k, l, t, w, n, x, y, 0, {});
      SameGrown(k, l, it, ut);
      var m := BodyTracks(l, t, it, ut, bind, s, x.w, y.w, w0, n0, fuel);
      GrownOn(k, l, m);
      l := m;
    }
  }

  lemma {:induction false} BodyTracks(
    k: Link, t: Twins, it: Value, ut: Value, bind: Binding, s: Stmt,
    w: World, n: World, w0: World, n0: World, fuel: nat) returns (l: Link)
    requires Both(k, t, w, n) && Same(k, it, ut) && Sane(t.sh, it) && Sane(t.sh, ut)
    requires WfBinding(t.a, t.sh, bind, |w.locals|) && WfBinding(t.b, t.sh, bind, |n.locals|)
    requires WfStmt(t.a, t.sh, s, |w.locals|, {}) && WfStmt(t.b, t.sh, s, |n.locals|, {})
    ensures Grown(k, l)
    ensures SameRes(l, AfterBind(t.a, it, bind, s, w, w0, fuel), AfterBind(t.b, ut, bind, s, n, n0, fuel))
    decreases fuel, ForEach(bind, Lit(NullLit), s), 0
  {
    hide Both, EvalStmt, EvalRounds, WfBinding, WfStmt, Sane, Same, SameWorld;
    l := StmtTracks(k, t, s, w, n, {}, fuel);
    var x, y := EvalStmt(t.a, s, w, fuel), EvalStmt(t.b, s, n, fuel);
    SameGrown(k, l, it, ut);
    if y.out.Done? && fuel > 0 {
      Onward(k, l, t, w, n, x, y, 0, {});
      var m := RoundsTrack(l, t, it, ut, bind, s, x.w, y.w, fuel - 1);
      GrownOn(k, l, m);
      l := m;
    }
  }

  lemma {:induction false} AssignTracks(
    k: Link, t: Twins, s: Stmt, w: World, n: World, targets: set<Label>, fuel: nat) returns (l: Link)
    requires s.Assign? && Both(k, t, w, n)
    requires WfStmt(t.a, t.sh, s, |w.locals|, targets) && WfStmt(t.b, t.sh, s, |n.locals|, targets)
    ensures Grown(k, l) && SameRes(l, EvalAssign(t.a, s, w, fuel), EvalAssign(t.b, s, n, fuel))
    decreases fuel, s, 0
  {
    hide Both, EvalExpr, EvalBind, WfExpr, WfBinding, SameWorld, Sane, Same;
    l := ExprTracks(k, t, s.e, w, n, fuel);
    var x, y := EvalExpr(t.a, s.e, w, fuel), EvalExpr(t.b, s.e, n, fuel);
    if y.out.Done? {
      Onward(k, l, t, w, n, x, y, 1, {});
      var m := BindTracks(l, t, s.bind, x.out.vs[0], y.out.vs[0], x.w, y.w, fuel);
      GrownOn(k, l, m);
      l := m;
    }
  }

  lemma {:induction false} StmtsTrack(
    k: Link, t: Twins, ss: Stmts, w: World, n: World, targets: set<Label>, fuel: nat) returns (l: Link)
    requires Both(k, t, w, n)
    requires WfStmts(t.a, t.sh, ss, |w.locals|, targets) && WfStmts(t.b, t.sh, ss, |n.locals|, targets)
    ensures Grown(k, l) && SameRes(l, EvalStmts(t.a, ss, w, fuel), EvalStmts(t.b, ss, n, fuel))
    decreases fuel, ss, 0
  {
    hide Both, EvalStmt, WfStmt, SameWorld, Sane;
    l := k;
    if ss.SNil? { NothingTracks(k, t, w, n); return; }
    l := StmtTracks(k, t, ss.head, w, n, targets, fuel);
    var x, y := EvalStmt(t.a, ss.head, w, fuel), EvalStmt(t.b, ss.head, n, fuel);
    if y.out.Done? {
      Onward(k, l, t, w, n, x, y, 0, targets);
      var m := StmtsTrack(l, t, ss.tail, x.w, y.w, targets, fuel);
      GrownOn(k, l, m);
      l := m;
    }
  }

  /** An expression whose value the optimizer knows: only the original evaluates it, and
      what it leaves behind is garbage. */
  lemma SettledTracks(k: Link, t: Twins, e: Expr, w: World, n: World, fuel: nat)
    requires Both(k, t, w, n) && FairExpr(k.Some?, t.ff, e) && Settled(k.Some?, OptExpr(t.ff, e))
    requires WfExpr(t.b, t.sh, e, |n.locals|)
    ensures var y := EvalExpr(t.b, e, n, fuel);
      && Settles(k.Some?, OptExpr(t.ff, e), y, n) && Both(k, t, w, y.w) && |y.w.locals| == |n.locals|
      && Good(t.sh, y, |n.locals|, 1, {})
  {
    hide EvalExpr, WfExpr, OptExpr, FairExpr, Settled, SaneOps, WfSource, TwinAt, Oblivious, MakesSequences, Same, Sane;
    SameOps(k.Some?, t);
    SettledRight(k.Some?, t.ff, t.b, t.sh, e, n, fuel);
    GoodExpr(t.b, t.sh, e, n, |n.locals|, fuel);
    GarbageIgnored(k, w, n, EvalExpr(t.b, e, n, fuel).w);
  }

  lemma GarbageIgnored(k: Link, w: World, n: World, m: World)
    requires SameWorld(k, w, n) && m == n.(heap := m.heap) && Keeps(n.heap, m.heap) && (k.None? ==> m == n)
    ensures SameWorld(k, w, m)
  {
    hide Same;
  }

  /** An expression and what the optimizer makes of it. */
  lemma {:induction false} OptExprTracks(
    k: Link, t: Twins, e: Expr, w: World, n: World, fuel: nat) returns (l: Link)
    requires Both(k, t, w, n) && FairExpr(k.Some?, t.ff, e)
    requires WfExpr(t.a, t.sh, OptExpr(t.ff, e), |w.locals|) && WfExpr(t.b, t.sh, e, |n.locals|)
    ensures Grown(k, l)
    ensures Tracked(l, t, w, n, EvalExpr(t.a, OptExpr(t.ff, e), w, fuel), EvalExpr(t.b, e, n, fuel), 1, {})
    decreases fuel, e, 9
  {
    hide Twinned, EvalExpr, WfExpr, FairExpr, SameRes, SaneOps, SaneWorld, WfSource, SameWorld, OptExpr;
    l := OptExprSame(k, t, e, w, n, fuel);
    GoodExpr(t.a, t.sh, OptExpr(t.ff, e), w, |w.locals|, fuel);
    GoodExpr(t.b, t.sh, e, n, |n.locals|, fuel);
  }

  lemma {:induction false} OptExprSame(
    k: Link, t: Twins, e: Expr, w: World, n: World, fuel: nat) returns (l: Link)
    requires Both(k, t, w, n) && FairExpr(k.Some?, t.ff, e)
    requires WfExpr(t.a, t.sh, OptExpr(t.ff, e), |w.locals|) && WfExpr(t.b, t.sh, e, |n.locals|)
    ensures Grown(k, l) && SameRes(l, EvalExpr(t.a, OptExpr(t.ff, e), w, fuel), EvalExpr(t.b, e, n, fuel))
    decreases fuel, e, 8
  {
    hide Both, EvalExpr, SameRes, SameWorld, WfExpr, WfStmt, FairExpr, Folds;
    match e
    case CallExpr(_, _) => l := OptCallTracks(k, t, e, w, n, fuel);
    case Strict(Unary(_), ECons(_, ENil)) => l := OptUnaryTracks(k, t, e, w, n, fuel);
    case Strict(Binary(_), ECons(_, ECons(_, ENil))) => l := OptBinaryTracks(k, t, e, w, n, fuel);
    case NullTest(_) => l := OptNullTestTracks(k, t, e, w, n, fuel);
    case Logic(_, _, _) => l := OptLogicTracks(k, t, e, w, n, fuel);
    case Ternary(_, _, _) => l := OptTernaryTracks(k, t, e, w, n, fuel);
    case _ => l := ExprSame(k, t, e, w, n, fuel);
  }

  /** Operators that were folded fairly became neither floats nor types. */
  lemma BecameLiteral(arrays: bool, ff: FloatFolds, e: Expr)
    requires FairExpr(arrays, ff, e) && OptExpr(ff, e).Lit? && (e.Strict? || e.NullTest?)
    ensures Settled(arrays, OptExpr(ff, e))
  {
    hide FoldsRightly;
  }

  /** An expression that became a literal. */
  lemma LiteralTracks(k: Link, t: Twins, e: Expr, w: World, n: World, fuel: nat)
    requires Both(k, t, w, n) && FairExpr(k.Some?, t.ff, e) && WfExpr(t.b, t.sh, e, |n.locals|)
    requires OptExpr(t.ff, e).Lit? && (e.Strict? || e.NullTest?)
    ensures SameRes(k, EvalExpr(t.a, OptExpr(t.ff, e), w, fuel), EvalExpr(t.b, e, n, fuel))
  {
    hide EvalExpr, WfExpr, OptExpr, FairExpr, Twinned, Setting, SameWorld;
    BecameLiteral(k.Some?, t.ff, e);
    SettledTracks(k, t, e, w, n, fuel);
    LiteralValue(t.a, OptExpr(t.ff, e).lit, w, fuel);
    Itself(k, ValueOf(OptExpr(t.ff, e).lit));
  }

  lemma UnaryIsWf(u: Source, sh: Shape, op: SimpleOp, e: Expr, slots: nat)
    requires WfExpr(u, sh, Strict(Unary(op), ECons(e, ENil)), slots)
    ensures Pops(Simple(op)) == 1 && Pushes(Simple(op)) && WfExpr(u, sh, e, slots)
  {
    assert Count(ECons(e, ENil)) == 1;
  }

  lemma BinaryIsWf(u: Source, sh: Shape, op: SimpleOp, x: Expr, y: Expr, slots: nat)
    requires WfExpr(u, sh, Strict(Binary(op), ECons(x, ECons(y, ENil))), slots)
    ensures Pops(Simple(op)) == 2 && Pushes(Simple(op)) && WfExpr(u, sh, x, slots) && WfExpr(u, sh, y, slots)
  {
    assert Count(ECons(y, ENil)) == 1;
    assert WfExprs(u, sh, ECons(y, ENil), slots);
  }

  lemma {:induction false} OptUnaryTracks(
    k: Link, t: Twins, e: Expr, w: World, n: World, fuel: nat) returns (l: Link)
    requires e.Strict? && e.node.Unary? && e.args.ECons? && e.args.tail.ENil?
    requires Both(k, t, w, n) && FairExpr(k.Some?, t.ff, e)
    requires WfExpr(t.a, t.sh, OptExpr(t.ff, e), |w.locals|) && WfExpr(t.b, t.sh, e, |n.locals|)
    ensures Grown(k, l) && SameRes(l, EvalExpr(t.a, OptExpr(t.ff, e), w, fuel), EvalExpr(t.b, e, n, fuel))
    decreases fuel, e, 0
  {
    hide Both, EvalExpr, SameWorld, PrimOut, Same, Sane, MakesSequences, WfExpr, Pops;
    var op, x := e.node.op, e.args.head;
    var ox := OptExpr(t.ff, x);
    l := k;
    if OptExpr(t.ff, e).Lit? { LiteralTracks(k, t, e, w, n, fuel); return; }
    UnaryIsWf(t.a, t.sh, op, ox, |w.locals|);
    UnaryIsWf(t.b, t.sh, op, x, |n.locals|);
    l := OptExprTracks(k, t, x, w, n, fuel);
    UnaryIs(t.a, op, ox, w, fuel);
    UnaryIs(t.b, op, x, n, fuel);
    var rx, ry := EvalExpr(t.a, ox, w, fuel), EvalExpr(t.b, x, n, fuel);
    if ry.out.Done? {
      Onward(k, l, t, w, n, rx, ry, 1, {});
      var m := PrimTracks(l, t, Simple(op), rx.out.vs, ry.out.vs, rx.w, ry.w);
      GrownOn(k, l, m);
      l := m;
    }
  }

  lemma {:induction false} OptBinaryTracks(
    k: Link, t: Twins, e: Expr, w: World, n: World, fuel: nat) returns (l: Link)
    requires e.Strict? && e.node.Binary? && e.args.ECons? && e.args.tail.ECons? && e.args.tail.tail.ENil?
    requires Both(k, t, w, n) && FairExpr(k.Some?, t.ff, e)
    requires WfExpr(t.a, t.sh, OptExpr(t.ff, e), |w.locals|) && WfExpr(t.b, t.sh, e, |n.locals|)
    ensures Grown(k, l) && SameRes(l, EvalExpr(t.a, OptExpr(t.ff, e), w, fuel), EvalExpr(t.b, e, n, fuel))
    decreases fuel, e, 0
  {
    hide Both, EvalExpr, SameWorld, PrimOut, Same, Sane, MakesSequences, FoldsRightly, FoldNumbers, WfExpr, Pops;
    var op, x, y := e.node.op, e.args.head, e.args.tail.head;
    var ox, oy := OptExpr(t.ff, x), OptExpr(t.ff, y);
    l := k;
    if OptExpr(t.ff, e).Lit? { LiteralTracks(k, t, e, w, n, fuel); return; }
    BinaryIsWf(t.a, t.sh, op, ox, oy, |w.locals|);
    BinaryIsWf(t.b, t.sh, op, x, y, |n.locals|);
    l := OptExprTracks(k, t, x, w, n, fuel);
    BinaryIs(t.a, op, ox, oy, w, fuel);
    BinaryIs(t.b, op, x, y, n, fuel);
    var rx, ry := EvalExpr(t.a, ox, w, fuel), EvalExpr(t.b, x, n, fuel);
    if ry.out.Done? {
      Onward(k, l, t, w, n, rx, ry, 1, {});
      var m := SecondOperandTracks(l, t, op, y, rx.out.vs, ry.out.vs, rx.w, ry.w, fuel);
      GrownOn(k, l, m);
      l := m;
    }
  }

  /** After the first operand. */
  function SecondOperand(u: Source, op: SimpleOp, e: Expr, xs: seq<Value>, w: World, fuel: nat): Res {
    var rr := BigStep.One(EvalExpr(u, e, w, fuel));
    if !rr.out.Done? then rr else PrimOut(u, Simple(op), xs + rr.out.vs, rr.w)
  }

  lemma {:induction false} SecondOperandTracks(
    k: Link, t: Twins, op: SimpleOp, e: Expr, xs: seq<Value>, ys: seq<Value>, w: World, n: World, fuel: nat)
    returns (l: Link)
    requires Both(k, t, w, n) && FairExpr(k.Some?, t.ff, e) && Pops(Simple(op)) == 2 && Pushes(Simple(op))
    requires WfExpr(t.a, t.sh, OptExpr(t.ff, e), |w.locals|) && WfExpr(t.b, t.sh, e, |n.locals|)
    requires |xs| == |ys| == 1 && AllSame(k, xs, ys) && AllSane(t.sh, xs) && AllSane(t.sh, ys)
    ensures Grown(k, l)
    ensures SameRes(l, SecondOperand(t.a, op, OptExpr(t.ff, e), xs, w, fuel), SecondOperand(t.b, op, e, ys, n, fuel))
    decreases fuel, e, 10
  {
    hide Both, EvalExpr, SameWorld, PrimOut, Same, Sane;
    l := OptExprTracks(k, t, e, w, n, fuel);
    var rx, ry := EvalExpr(t.a, OptExpr(t.ff, e), w, fuel), EvalExpr(t.b, e, n, fuel);
    if ry.out.Done? {
      Onward(k, l, t, w, n, rx, ry, 1, {});
      AllGrown(k, l, xs, ys);
      var m := PrimTracks(l, t, Simple(op), xs + rx.out.vs, ys + ry.out.vs, rx.w, ry.w);
      GrownOn(k, l, m);
      l := m;
    }
  }

  lemma {:induction false} OptNullTestTracks(
    k: Link, t: Twins, e: Expr, w: World, n: World, fuel: nat) returns (l: Link)
    requires e.NullTest? && Both(k, t, w, n) && FairExpr(k.Some?, t.ff, e)
    requires WfExpr(t.a, t.sh, OptExpr(t.ff, e), |w.locals|) && WfExpr(t.b, t.sh, e, |n.locals|)
    ensures Grown(k, l) && SameRes(l, EvalExpr(t.a, OptExpr(t.ff, e), w, fuel), EvalExpr(t.b, e, n, fuel))
    decreases fuel, e, 0
  {
    hide Both, EvalStrict, EvalLogic, EvalTernary, SameWorld, Sane, MakesSequences;
    l := k;
    if OptExpr(t.ff, e).Lit? { LiteralTracks(k, t, e, w, n, fuel); return; }
    l := OptExprTracks(k, t, e.e, w, n, fuel);
  }

  lemma {:induction false} OptLogicTracks(
    k: Link, t: Twins, e: Expr, w: World, n: World, fuel: nat) returns (l: Link)
    requires e.Logic? && Both(k, t, w, n) && FairExpr(k.Some?, t.ff, e)
    requires WfExpr(t.a, t.sh, OptExpr(t.ff, e), |w.locals|) && WfExpr(t.b, t.sh, e, |n.locals|)
    ensures Grown(k, l) && SameRes(l, EvalExpr(t.a, OptExpr(t.ff, e), w, fuel), EvalExpr(t.b, e, n, fuel))
    decreases fuel, e, 0
  {
    hide Both, SameWorld, Sane, EvalStrict, EvalTernary, EvalNullTest, EvalCascade, EvalArms, EvalStruct, EvalMap,
      EvalCallExpr, EvalInvokeExpr, EvalInvokeMember, EvalFxPointer, EvalIife, EvalLit, WfStmt, WfCases;
    l := OptExprTracks(k, t, e.l, w, n, fuel);
    var x, y := EvalExpr(t.a, OptExpr(t.ff, e.l), w, fuel), EvalExpr(t.b, e.l, n, fuel);
    if y.out.Done? {
      Onward(k, l, t, w, n, x, y, 1, {});
      SameKind(l, x.out.vs[0], y.out.vs[0]);
      if !KeepsLeft(e.lop, y.out.vs[0]) {
        var m := OptExprTracks(l, t, e.r, x.w, y.w, fuel);
        GrownOn(k, l, m);
        l := m;
        var z := EvalExpr(t.b, e.r, y.w, fuel);
        if z.out.Done? { SameKind(l, EvalExpr(t.a, OptExpr(t.ff, e.r), x.w, fuel).out.vs[0], z.out.vs[0]); }
      }
    }
  }

  lemma {:induction false} OptTernaryTracks(
    k: Link, t: Twins, e: Expr, w: World, n: World, fuel: nat) returns (l: Link)
    requires e.Ternary? && Both(k, t, w, n) && FairExpr(k.Some?, t.ff, e)
    requires WfExpr(t.a, t.sh, OptExpr(t.ff, e), |w.locals|) && WfExpr(t.b, t.sh, e, |n.locals|)
    ensures Grown(k, l) && SameRes(l, EvalExpr(t.a, OptExpr(t.ff, e), w, fuel), EvalExpr(t.b, e, n, fuel))
    decreases fuel, e, 1
  {
    hide Both, EvalExpr, SameWorld, Sane, MakesSequences, Quiet;
    var c := OptExpr(t.ff, e.cond);
    var d := Decided(t.ff, c);
    if d.Some? {
      DecidedSettled(k.Some?, t.ff, c);
      SettledTracks(k, t, e.cond, w, n, fuel);
      TernaryAfter(t.b, e, n, fuel);
      l := OptExprTracks(k, t, if d.value then e.thn else e.els, w, EvalExpr(t.b, e.cond, n, fuel).w, fuel);
    } else {
      l := OpenTernaryTracks(k, t, e, w, n, fuel);
    }
  }

  /** The condition is left to the run time. */
  lemma {:induction false} OpenTernaryTracks(
    k: Link, t: Twins, e: Expr, w: World, n: World, fuel: nat) returns (l: Link)
    requires e.Ternary? && Both(k, t, w, n) && FairExpr(k.Some?, t.ff, e) && Decided(t.ff, OptExpr(t.ff, e.cond)).None?
    requires WfExpr(t.a, t.sh, OptExpr(t.ff, e), |w.locals|) && WfExpr(t.b, t.sh, e, |n.locals|)
    ensures Grown(k, l) && SameRes(l, EvalExpr(t.a, OptExpr(t.ff, e), w, fuel), EvalExpr(t.b, e, n, fuel))
    decreases fuel, e, 0
  {
    hide Both, EvalStrict, EvalLogic, SameWorld, Sane, Quiet, Decided;
    var c := OptExpr(t.ff, e.cond);
    l := OptExprTracks(k, t, e.cond, w, n, fuel);
    var x, y := EvalExpr(t.a, c, w, fuel), EvalExpr(t.b, e.cond, n, fuel);
    if y.out.Done? {
      Onward(k, l, t, w, n, x, y, 1, {});
      SameKind(l, x.out.vs[0], y.out.vs[0]);
      var m := OptExprTracks(l, t, if Truthy(y.out.vs[0]) then e.thn else e.els, x.w, y.w, fuel);
      GrownOn(k, l, m);
      l := m;
    }
  }

  lemma {:induction false} OptCallTracks(
    k: Link, t: Twins, e: Expr, w: World, n: World, fuel: nat) returns (l: Link)
    requires e.CallExpr? && Both(k, t, w, n) && FairExpr(k.Some?, t.ff, e)
    requires WfExpr(t.a, t.sh, OptExpr(t.ff, e), |w.locals|) && WfExpr(t.b, t.sh, e, |n.locals|)
    ensures Grown(k, l) && SameRes(l, EvalExpr(t.a, OptExpr(t.ff, e), w, fuel), EvalExpr(t.b, e, n, fuel))
    decreases fuel, e, 0
  {
    hide Setting, Twinned, EvalArgs, EvalCall, WfExprs, FairExprs, OptExprs, SameSlots, Sane, Same, FindFn;
    TwinNames(k.Some?, t, e.fn);
    l := OptArgsTracks(k, t, e.args, w, n, fuel);
    var x, y := EvalArgs(t.a, OptExprs(t.ff, e.args), w, fuel), EvalArgs(t.b, e.args, n, fuel);
    if y.out.Done? && fuel > 0 {
      Onward(k, l, t, w, n, x, y, Count(e.args), {});
      var f := FindFn(t.b.env.fns, e.fn).value;
      assert SaneHeap(t.sh, x.w.heap) && SaneHeap(t.sh, y.w.heap);
      var m := CallTracks(l, t, Target(f, x.out.vs, x.w.heap), Target(f, y.out.vs, y.w.heap), x.w, y.w, fuel - 1);
      GrownOn(k, l, m);
      l := m;
    }
  }

  lemma {:induction false} OptArgsTracks(
    k: Link, t: Twins, es: Exprs, w: World, n: World, fuel: nat) returns (l: Link)
    requires Both(k, t, w, n) && FairExprs(k.Some?, t.ff, es)
    requires WfExprs(t.a, t.sh, OptExprs(t.ff, es), |w.locals|) && WfExprs(t.b, t.sh, es, |n.locals|)
    ensures Grown(k, l)
    ensures Tracked(
      l, t, w, n, EvalArgs(t.a, OptExprs(t.ff, es), w, fuel), EvalArgs(t.b, es, n, fuel), Count(es), {})
    decreases fuel, es, 0
  {
    hide Both, Setting, EvalExpr, WfExpr, FairExpr, OptExpr, SameWorld, Same, Sane, Good;
    BothSet(k, t, w, n);
    SameCount(t.ff, es);
    GoodArgs(t.a, t.sh, OptExprs(t.ff, es), w, |w.locals|, fuel);
    GoodArgs(t.b, t.sh, es, n, |n.locals|, fuel);
    l := k;
    if es.ENil? {
      NothingTracks(k, t, w, n);
    } else {
      var e := OptExpr(t.ff, es.head);
      l := OptExprTracks(k, t, es.head, w, n, fuel);
      var x, y := EvalExpr(t.a, e, w, fuel), EvalExpr(t.b, es.head, n, fuel);
      assert x.out.Done? ==> |x.out.vs| == 1 by { OneOf(t.sh, x, |w.locals|, 1); }
      assert y.out.Done? ==> |y.out.vs| == 1 by { OneOf(t.sh, y, |n.locals|, 1); }
      if y.out.Done? {
        Onward(k, l, t, w, n, x, y, 1, {});
        var m := OptArgsTracks(l, t, es.tail, x.w, y.w, fuel);
        GrownOn(k, l, m);
        AllGrown(l, m, x.out.vs, y.out.vs);
        l := m;
      }
    }
  }

  lemma {:induction false} SameCount(ff: FloatFolds, es: Exprs)
    ensures Count(OptExprs(ff, es)) == Count(es)
    decreases es
  {
    if es.ECons? { SameCount(ff, es.tail); }
  }

  /** A statement and what the optimizer makes of it. */
  lemma {:induction false} OptStmtTracks(
    k: Link, t: Twins, s: Stmt, w: World, n: World, targets: set<Label>, fuel: nat) returns (l: Link)
    requires Both(k, t, w, n) && FairStmt(k.Some?, t.ff, s)
    requires WfStmt(t.a, t.sh, OptStmt(t.ff, s), |w.locals|, targets) && WfStmt(t.b, t.sh, s, |n.locals|, targets)
    ensures Grown(k, l)
    ensures Tracked(l, t, w, n, EvalStmt(t.a, OptStmt(t.ff, s), w, fuel), EvalStmt(t.b, s, n, fuel), 0, targets)
    decreases fuel, s, 9
  {
    hide Twinned, EvalStmt, WfStmt, FairStmt, SameRes, SaneOps, SaneWorld, WfSource, SameWorld, OptStmt;
    l := OptStmtTrack(k, t, s, w, n, targets, fuel);
    GoodStmt(t.a, t.sh, OptStmt(t.ff, s), w, |w.locals|, targets, fuel);
    GoodStmt(t.b, t.sh, s, n, |n.locals|, targets, fuel);
  }

  lemma {:induction false} OptStmtTrack(
    k: Link, t: Twins, s: Stmt, w: World, n: World, targets: set<Label>, fuel: nat) returns (l: Link)
    requires Both(k, t, w, n) && FairStmt(k.Some?, t.ff, s)
    requires WfStmt(t.a, t.sh, OptStmt(t.ff, s), |w.locals|, targets) && WfStmt(t.b, t.sh, s, |n.locals|, targets)
    ensures Grown(k, l) && SameRes(l, EvalStmt(t.a, OptStmt(t.ff, s), w, fuel), EvalStmt(t.b, s, n, fuel))
    decreases fuel, s, 8
  {
    hide Both, EvalExpr, EvalStmts, EvalIf, EvalWhile, EvalInfinite, EvalForEach, EvalArms, EvalCascade, EvalAssign,
      OptExpr, FairExpr, WfExpr, WfStmts, SameWorld, Sane, Same;
    match s
    case ReturnStmt(e, _) => l := OptExprTracks(k, t, e, w, n, fuel);
    case ThrowStmt(e) => l := OptExprTracks(k, t, e, w, n, fuel);
    case Assign(_, _) => l := OptAssignTracks(k, t, s, w, n, targets, fuel);
    case Block(ss) => l := OptStmtsTrack(k, t, ss, w, n, targets, fuel);
    case IfStmt(_, _, _) => l := OptIfTracks(k, t, s, w, n, targets, fuel);
    case While(_, _) => l := OptWhileTracks(k, t, s, w, n, targets, fuel);
    case _ => l := StmtSame(k, t, s, w, n, targets, fuel);
  }

  lemma {:induction false} OptAssignTracks(
    k: Link, t: Twins, s: Stmt, w: World, n: World, targets: set<Label>, fuel: nat) returns (l: Link)
    requires s.Assign? && Both(k, t, w, n) && FairStmt(k.Some?, t.ff, s)
    requires WfStmt(t.a, t.sh, OptStmt(t.ff, s), |w.locals|, targets) && WfStmt(t.b, t.sh, s, |n.locals|, targets)
    ensures Grown(k, l) && SameRes(l, EvalStmt(t.a, OptStmt(t.ff, s), w, fuel), EvalStmt(t.b, s, n, fuel))
    decreases fuel, s, 0
  {
    hide Both, EvalExpr, EvalBind, WfExpr, WfBinding, FairExpr, OptExpr, SameWorld, Sane, Same;
    l := OptExprTracks(k, t, s.e, w, n, fuel);
    var x, y := EvalExpr(t.a, OptExpr(t.ff, s.e), w, fuel), EvalExpr(t.b, s.e, n, fuel);
    if y.out.Done? {
      Onward(k, l, t, w, n, x, y, 1, {});
      var m := BindTracks(l, t, s.bind, x.out.vs[0], y.out.vs[0], x.w, y.w, fuel);
      GrownOn(k, l, m);
      l := m;
    }
  }

  lemma {:induction false} OptStmtsTrack(
    k: Link, t: Twins, ss: Stmts, w: World, n: World, targets: set<Label>, fuel: nat) returns (l: Link)
    requires Both(k, t, w, n) && FairStmts(k.Some?, t.ff, ss)
    requires WfStmts(t.a, t.sh, OptStmts(t.ff, ss), |w.locals|, targets) && WfStmts(t.b, t.sh, ss, |n.locals|, targets)
    ensures Grown(k, l) && SameRes(l, EvalStmts(t.a, OptStmts(t.ff, ss), w, fuel), EvalStmts(t.b, ss, n, fuel))
    decreases fuel, ss, 0
  {
    hide Both, EvalStmt, WfStmt, FairStmt, OptStmt, SameWorld, Sane;
    l := k;
    if ss.SNil? { NothingTracks(k, t, w, n); return; }
    l := OptStmtTracks(k, t, ss.head, w, n, targets, fuel);
    var x, y := EvalStmt(t.a, OptStmt(t.ff, ss.head), w, fuel), EvalStmt(t.b, ss.head, n, fuel);
    if y.out.Done? {
      Onward(k, l, t, w, n, x, y, 0, targets);
      var m := OptStmtsTrack(l, t, ss.tail, x.w, y.w, targets, fuel);
      GrownOn(k, l, m);
      l := m;
    }
  }

  lemma {:induction false} OptIfTracks(
    k: Link, t: Twins, s: Stmt, w: World, n: World, targets: set<Label>, fuel: nat) returns (l: Link)
    requires s.IfStmt? && Both(k, t, w, n) && FairStmt(k.Some?, t.ff, s)
    requires WfStmt(t.a, t.sh, OptStmt(t.ff, s), |w.locals|, targets) && WfStmt(t.b, t.sh, s, |n.locals|, targets)
    ensures Grown(k, l) && SameRes(l, EvalStmt(t.a, OptStmt(t.ff, s), w, fuel), EvalStmt(t.b, s, n, fuel))
    decreases fuel, s, 1
  {
    hide Both, EvalExpr, OptExpr, FairExpr, WfExpr, SameWorld, Sane, MakesSequences, Quiet;
    var c := OptExpr(t.ff, s.cond);
    var d := Decided(t.ff, c);
    if d == Some(true) || (d == Some(false) && s.els.Some?) {
      DecidedSettled(k.Some?, t.ff, c);
      SettledTracks(k, t, s.cond, w, n, fuel);
      var y := EvalExpr(t.b, s.cond, n, fuel);
      l := OptStmtTracks(k, t, if d.value then s.thn else s.els.value, w, y.w, targets, fuel);
    } else {
      l := OpenIfTracks(k, t, s, w, n, targets, fuel);
    }
  }

  /** The condition is left to the run time. */
  lemma {:induction false} OpenIfTracks(
    k: Link, t: Twins, s: Stmt, w: World, n: World, targets: set<Label>, fuel: nat) returns (l: Link)
    requires s.IfStmt? && Both(k, t, w, n) && FairStmt(k.Some?, t.ff, s) && OptStmt(t.ff, s).IfStmt?
    requires OptStmt(t.ff, s).cond == OptExpr(t.ff, s.cond) && OptStmt(t.ff, s).thn == OptStmt(t.ff, s.thn)
    requires OptStmt(t.ff, s).els == if s.els.Some? then Some(OptStmt(t.ff, s.els.value)) else None
    requires WfStmt(t.a, t.sh, OptStmt(t.ff, s), |w.locals|, targets) && WfStmt(t.b, t.sh, s, |n.locals|, targets)
    ensures Grown(k, l) && SameRes(l, EvalStmt(t.a, OptStmt(t.ff, s), w, fuel), EvalStmt(t.b, s, n, fuel))
    decreases fuel, s, 0
  {
    hide Both, EvalExpr, OptExpr, OptStmt, FairExpr, WfExpr, SameWorld, Sane;
    l := OptExprTracks(k, t, s.cond, w, n, fuel);
    var x, y := EvalExpr(t.a, OptExpr(t.ff, s.cond), w, fuel), EvalExpr(t.b, s.cond, n, fuel);
    if y.out.Done? {
      Onward(k, l, t, w, n, x, y, 1, {});
      NothingTracks(l, t, x.w, y.w);
      SameKind(l, x.out.vs[0], y.out.vs[0]);
      var m := l;
      if Truthy(y.out.vs[0]) { m := OptStmtTracks(l, t, s.thn, x.w, y.w, targets, fuel); }
      else if s.els.Some? { m := OptStmtTracks(l, t, s.els.value, x.w, y.w, targets, fuel); }
      GrownOn(k, l, m);
      l := m;
    }
  }

  lemma {:induction false} OptWhileTracks(
    k: Link, t: Twins, s: Stmt, w: World, n: World, targets: set<Label>, fuel: nat) returns (l: Link)
    requires s.While? && Both(k, t, w, n) && FairStmt(k.Some?, t.ff, s)
    requires WfStmt(t.a, t.sh, OptStmt(t.ff, s), |w.locals|, targets) && WfStmt(t.b, t.sh, s, |n.locals|, targets)
    ensures Grown(k, l) && SameRes(l, EvalStmt(t.a, OptStmt(t.ff, s), w, fuel), EvalStmt(t.b, s, n, fuel))
    decreases fuel, s, 5
  {
    hide Both, EvalStmt, EvalExpr, OptExpr, FairExpr, WfExpr, SameWorld, SameRes, Sane, MakesSequences, Quiet;
    var c := OptExpr(t.ff, s.cond);
    if Decided(t.ff, c) == Some(true) {
      DecidedSettled(k.Some?, t.ff, c);
      SettledTracks(k, t, s.cond, w, n, fuel);
      WhileIs(t.b, s, n, fuel);
      InfiniteIs(t.a, OptStmt(t.ff, s), w, fuel);
      l := OptRoundTracks(k, t, s, w, EvalExpr(t.b, s.cond, n, fuel).w, w, n, targets, fuel);
    } else {
      l := OpenWhileTracks(k, t, s, w, n, targets, fuel);
    }
  }

  /** The body of a loop l, and the loop again; w0 is the state before the round. */
  function LoopRound(u: Source, l: Stmt, body: Stmt, w: World, w0: World, fuel: nat): Res {
    var rb := Neutral(EvalStmt(u, body, w, fuel));
    if !rb.out.Done? then rb
    else if fuel == 0 then Res(OutOfFuel, w0)
    else EvalStmt(u, l, rb.w, fuel - 1)
  }

  lemma WhileIs(u: Source, s: Stmt, w: World, fuel: nat)
    requires s.While?
    ensures EvalStmt(u, s, w, fuel) ==
      var rc := BigStep.One(EvalExpr(u, s.cond, w, fuel));
      if !rc.out.Done? then rc
      else if !Truthy(rc.out.vs[0]) then Unit(rc.w)
      else LoopRound(u, s, s.body, rc.w, w, fuel)
  {
  }

  lemma InfiniteIs(u: Source, s: Stmt, w: World, fuel: nat)
    requires s.InfiniteLoop?
    ensures EvalStmt(u, s, w, fuel) == LoopRound(u, s, s.body, w, w, fuel)
  {
  }

  /** A round of a while loop and of what it became. */
  lemma {:induction false} OptRoundTracks(
    k: Link, t: Twins, s: Stmt, w: World, n: World, w0: World, n0: World, targets: set<Label>, fuel: nat)
    returns (l: Link)
    requires s.While? && Both(k, t, w, n) && FairStmt(k.Some?, t.ff, s)
    requires WfStmt(t.a, t.sh, OptStmt(t.ff, s), |w.locals|, targets) && WfStmt(t.b, t.sh, s, |n.locals|, targets)
    ensures Grown(k, l)
    ensures SameRes(l, LoopRound(t.a, OptStmt(t.ff, s), OptStmt(t.ff, s.body), w, w0, fuel),
                    LoopRound(t.b, s, s.body, n, n0, fuel))
    decreases fuel, s, 0
  {
    assert WfStmt(t.a, t.sh, OptStmt(t.ff, s.body), |w.locals|, targets);
    hide Both, EvalStmt, OptStmt, SameWorld, Sane;
    l := OptStmtTracks(k, t, s.body, w, n, targets, fuel);
    var dx, dy := EvalStmt(t.a, OptStmt(t.ff, s.body), w, fuel), EvalStmt(t.b, s.body, n, fuel);
    if dy.out.Done? && fuel > 0 {
      Onward(k, l, t, w, n, dx, dy, 0, targets);
      var m := OptStmtTracks(l, t, s, dx.w, dy.w, targets, fuel - 1);
      GrownOn(k, l, m);
      l := m;
    }
  }

  /** The condition is tested each round. */
  lemma {:induction false} OpenWhileTracks(
    k: Link, t: Twins, s: Stmt, w: World, n: World, targets: set<Label>, fuel: nat) returns (l: Link)
    requires s.While? && Both(k, t, w, n) && FairStmt(k.Some?, t.ff, s) && OptStmt(t.ff, s).While?
    requires WfStmt(t.a, t.sh, OptStmt(t.ff, s), |w.locals|, targets) && WfStmt(t.b, t.sh, s, |n.locals|, targets)
    ensures Grown(k, l) && SameRes(l, EvalStmt(t.a, OptStmt(t.ff, s), w, fuel), EvalStmt(t.b, s, n, fuel))
    decreases fuel, s, 4
  {
    hide Both, EvalStmt, EvalExpr, OptExpr, FairExpr, WfExpr, LoopRound, SameWorld, Sane, Quiet;
    l := OptExprTracks(k, t, s.cond, w, n, fuel);
    WhileIs(t.a, OptStmt(t.ff, s), w, fuel);
    WhileIs(t.b, s, n, fuel);
    var x, y := EvalExpr(t.a, OptExpr(t.ff, s.cond), w, fuel), EvalExpr(t.b, s.cond, n, fuel);
    if y.out.Done? {
      SameKind(l, x.out.vs[0], y.out.vs[0]);
      if Truthy(y.out.vs[0]) {
        Onward(k, l, t, w, n, x, y, 1, {});
        var m := OptRoundTracks(l, t, s, x.w, y.w, w, n, targets, fuel);
        GrownOn(k, l, m);
        l := m;
      }
    }
  }
}
