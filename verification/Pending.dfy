/** Where a return to the end of an immediately invoked block goes wrong: each for-each
    it jumps out of leaves its iterator on the stack, below the value. */
module Pending {
  import opened Values
  import opened Instructions
  import opened Machine
  import opened Sst
  import opened BigStep
  import opened Compile
  import opened Labelled
  import opened Simulation
  import opened CompilerProof

  function OneElement(): Expr { Strict(ArrayLit, ECons(Lit(IntLit(0)), ENil)) }

  /** A return of 1 from inside k for-each loops. */
  function ReturnFrom(k: nat, end: Label): Stmt {
    if k == 0 then ReturnStmt(Lit(IntLit(1)), Some(end)) else ForEach(Discard, OneElement(), ReturnFrom(k - 1, end))
  }

  /** An array of one element can be made and iterated over. */
  ghost predicate Iterates(ops: HeapOps) {
    forall h: Heap ::
      var a := ops.op(NewArr(1), [Int(0)], h);
      && a.Ok?
      && var it := ops.op(Simple(Iter), [a.v], a.heap);
      it.Ok? && ops.next(it.v, it.heap).Ok? && !ops.next(it.v, it.heap).v.Stop?
  }

  lemma OneElementIs(u: Source, w: World, fuel: nat)
    requires Iterates(u.env.ops)
    ensures var a := u.env.ops.op(NewArr(1), [Int(0)], w.heap);
      a.Ok? && EvalExpr(u, OneElement(), w, fuel) == Value1(a.v, w.(heap := a.heap))
  {
    var es := ECons(Lit(IntLit(0)), ENil);
    assert EvalExpr(u, es.head, w, fuel) == Value1(Int(0), w);
    assert EvalArgs(u, es.tail, w, fuel) == Unit(w);
    assert EvalArgs(u, es, w, fuel) == Res(Done([Int(0)]), w);
    assert Count(es.tail) == 0 && Count(es) == 1;
  }

  /** The iterators of all the loops are left, the innermost one on top. */
  lemma {:induction false} IteratorsPileUp(u: Source, k: nat, end: Label, w: World, fuel: nat)
    requires Iterates(u.env.ops) && k <= fuel
    ensures var r := EvalStmt(u, ReturnFrom(k, end), w, fuel);
      r.out.Left? && r.out.target == end && r.out.v == Int(1) && |r.out.pending| == k
    decreases k
  {
    if k > 0 {
      assert ReturnFrom(k, end) == ForEach(Discard, OneElement(), ReturnFrom(k - 1, end));
      hide EvalExpr, EvalRounds, EvalStmt, ReturnFrom;
      OneElementIs(u, w, fuel);
      var a := u.env.ops.op(NewArr(1), [Int(0)], w.heap);
      var it := u.env.ops.op(Simple(Iter), [a.v], a.heap);
      IteratorsPileUp(u, k - 1, end, w.(heap := u.env.ops.next(it.v, it.heap).heap), fuel - 1);
      RoundLeaves(u, it.v, ReturnFrom(k - 1, end), w.(heap := it.heap), fuel - 1);
      LoopLeaves(u, ReturnFrom(k - 1, end), a.v, w, w.(heap := a.heap), fuel);
    } else {
      NoLoop(u, end, w, fuel);
    }
  }

  lemma NoLoop(u: Source, end: Label, w: World, fuel: nat)
    ensures EvalStmt(u, ReturnFrom(0, end), w, fuel) == Res(Left(end, Int(1), []), w)
  {
    assert EvalExpr(u, Lit(IntLit(1)), w, fuel) == Value1(Int(1), w);
  }

  /** A round whose body leaves for an outer label. */
  lemma RoundLeaves(u: Source, it: Value, b: Stmt, w: World, fuel: nat)
    requires var x := u.env.ops.next(it, w.heap);
      x.Ok? && !x.v.Stop? && EvalStmt(u, b, w.(heap := x.heap), fuel).out.Left?
    ensures var x := u.env.ops.next(it, w.heap);
      EvalRounds(u, it, Discard, b, w, fuel) == OverIterator(EvalStmt(u, b, w.(heap := x.heap), fuel), it)
  {
    hide EvalStmt;
    var x := u.env.ops.next(it, w.heap);
    assert EvalBind(u, Discard, x.v, w.(heap := x.heap), fuel) == Unit(w.(heap := x.heap));
  }

  lemma LoopLeaves(u: Source, b: Stmt, a: Value, w: World, wa: World, fuel: nat)
    requires EvalExpr(u, OneElement(), w, fuel) == Value1(a, wa) && fuel > 0
    requires u.env.ops.op(Simple(Iter), [a], wa.heap).Ok?
    ensures var it := u.env.ops.op(Simple(Iter), [a], wa.heap);
      EvalStmt(u, ForEach(Discard, OneElement(), b), w, fuel)
        == EvalRounds(u, it.v, Discard, b, wa.(heap := it.heap), fuel - 1)
  {
    hide EvalExpr, EvalRounds, OneElement;
  }

  /** The block is an expression, one that leaves one value, just when no loop is left. */
  lemma OneValueExactly(u: Source, k: nat, end: Label, w: World, fuel: nat)
    requires Iterates(u.env.ops) && k <= fuel
    ensures var r := EvalExpr(u, Iife(end, ReturnFrom(k, end)), w, fuel);
      r.out.Done? && |r.out.vs| == k + 1 && r.out.vs[k] == Int(1) && (One(r) == r <==> k == 0)
  {
    IteratorsPileUp(u, k, end, w, fuel);
  }

  /** The compiled code does the same: k values too many are on the stack at its end. */
  lemma MachineKeepsIterators(c: Image, k: nat, end: Label, n: nat, s: State) returns (steps: nat, left: seq<Value>)
    requires Linked(c) && Iterates(c.u.env.ops)
    requires CodeAt(c.code, s.pc, CompExpr(Iife(end, ReturnFrom(k, end)), n).code)
    ensures |left| == k
    ensures var t := Run(Prog(c), s, steps);
      && t.Next? && t.s.pc == s.pc + |CompExpr(Iife(end, ReturnFrom(k, end)), n).code|
      && t.s.top.temps == s.top.temps + left + [Int(1)]
  {
    var e := Iife(end, ReturnFrom(k, end));
    OneValueExactly(c.u, k, end, WorldOf(s), k);
    steps := ExprSim(c, e, n, s, k);
    var vs := EvalExpr(c.u, e, WorldOf(s), k).out.vs;
    left := vs[..k];
    assert s.top.temps + left + [Int(1)] == s.top.temps + vs;
  }
}
