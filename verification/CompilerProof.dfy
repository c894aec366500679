/** Compiling preserves meaning: every evaluation is matched by a machine run of the code. */
module CompilerProof {
  import opened Values
  import opened Instructions
  import opened Machine
  import opened Sst
  import opened BigStep
  import opened Compile
  import opened Labelled
  import opened Simulation

  /** The instruction chosen for a literal pushes its value. */
  lemma LitMeaning(u: Source, l: Literal, w: World)
    ensures PrimOut(u, CompLit(l).p, [], w) == EvalLit(u, l, w)
  {
    match l
    case IntLit(i) => IntMeaning(i, w.heap);
    case CharLit(c) => assert (c % 256) % 256 == c % 256;
    case _ =>
  }

  /** Every integer literal, whichever of the five instructions it gets. */
  lemma IntMeaning(i: int, h: Heap)
    ensures IntInst(i).Prim? && Pops(IntInst(i).p) == 0 && Pushes(IntInst(i).p)
    ensures Known(IntInst(i).p, [], h) == Some(Ok(Int(i), h))
  {
    assert -128 <= i < 128 ==> Signed8(i % 256) == i;
  }

  lemma LitSim(c: Image, l: Literal, s: State, fuel: nat)
    requires CodeAt(c.code, s.pc, [CompLit(l)])
    ensures Sim(c, s, s.top.temps, EvalLit(c.u, l, WorldOf(s)), s.pc + 1, fuel, 1)
  {
    hide Exec, Run, After, PrimOut, EvalLit;
    assert s.top.temps == s.top.temps + [];
    LitMeaning(c.u, l, WorldOf(s));
    PrimStep(c, s.pc, [CompLit(l)], 0, s, s.top.temps, [], fuel);
  }

  lemma {:induction false} ExprSim(c: Image, e: Expr, n: nat, s: State, fuel: nat) returns (k: nat)
    requires Linked(c) && CodeAt(c.code, s.pc, CompExpr(e, n).code)
    ensures Sim(c, s, s.top.temps, EvalExpr(c.u, e, WorldOf(s), fuel), s.pc + |CompExpr(e, n).code|, fuel, k)
    decreases fuel, e, 4
  {
    hide FunctionAt, Exec, EvalLit, EvalStrict, EvalNullTest, EvalLogic, EvalTernary, EvalStruct, EvalMap,
      EvalCallExpr, EvalInvokeExpr, EvalInvokeMember, EvalFxPointer, EvalIife, EvalArms, EvalCascade,
      CompLit, CompArgs, CompNullTest, CompLogic, CompTernary, CompCascade, CompArms, CompMembers, CompPairs,
      CompInvoke, CompInvokeMember, CompCaptures, CompStmt, SwitchCode;
    match e
    case Lit(l) => LitSim(c, l, s, fuel); k := 1;
    case Var(a) => k := 1; if a < |s.top.locals| { LoadStep(c, s.pc, [LoadX(a)], 0, s); }
    case GlobalVar(a) => k := 1; if a < |s.globals| { GlobalReadStep(c, s.pc, [GlobalRead(a)], 0, s); }
    case Strict(_, _) => k := StrictSim(c, e, n, s, fuel);
    case NullTest(_) => k := NullTestSim(c, e, n, s, fuel);
    case Logic(_, _, _) => k := LogicSim(c, e, n, s, fuel);
    case Ternary(_, _, _) => k := TernarySim(c, e, n, s, fuel);
    case Conditional(cs) => k := CascadeSim(c, cs, n, 0, n + 1, s, fuel);
    case Switch(_, _) => k := SwitchSim(c, e, n, s, fuel);
    case StructLit(_) => k := StructSim(c, e, n, s, fuel);
    case MapLit(_) => k := MapSim(c, e, n, s, fuel);
    case CallExpr(_, _) => k := CallExprSim(c, e, n, s, fuel);
    case InvokeExpr(_, _) => k := InvokeExprSim(c, e, n, s, fuel);
    case InvokeMember(_, _, _) => k := InvokeMemberSim(c, e, n, s, fuel);
    case FxPointer(_, _) => k := FxPointerSim(c, e, n, s, fuel);
    case Iife(_, _) => k := IifeSim(c, e, n, s, fuel);
  }

  /** An operand, ready for what follows it. */
  lemma {:induction false} OperandSim(
    c: Image, s0: State, k0: nat, e: Expr, n: nat, s: State, base: seq<Value>, end: nat, fuel: nat)
    returns (k: nat, t: State)
    requires Linked(c) && CodeAt(c.code, s.pc, CompExpr(e, n).code) && Moves(c, s0, k0, s) && SameFrame(s0, s)
    ensures OperandDone(c, s0, s, base, One(EvalExpr(c.u, e, WorldOf(s), fuel)), s.pc + |CompExpr(e, n).code|, end,
      fuel, k, t)
    decreases fuel, e, 5
  {
    hide EvalExpr, CompExpr, FunctionAt, Exec, Run, After, CodeAt, UniqueMarks;
    var m := ExprSim(c, e, n, s, fuel);
    var r := EvalExpr(c.u, e, WorldOf(s), fuel);
    var here := s.pc + |CompExpr(e, n).code|;
    k, t := k0 + m, s;
    if r.out.Done? {
      t := Put(s, r.w, here, s.top.temps + r.out.vs);
      Reached(c, s, s.top.temps, r, here, fuel, m);
      Then(c, s0, k0, s, m, t);
    } else {
      Abort(c, s0, s, s.top.temps, base, r, here, end, fuel, k0, m);
    }
  }

  /** Operands in order, each on top of the ones before. */
  lemma {:induction false} ArgsSim(c: Image, es: Exprs, n: nat, s: State, fuel: nat) returns (k: nat)
    requires Linked(c) && CodeAt(c.code, s.pc, CompArgs(es, n).code)
    ensures Sim(c, s, s.top.temps, EvalArgs(c.u, es, WorldOf(s), fuel), s.pc + |CompArgs(es, n).code|, fuel, k)
    decreases fuel, es, 0
  {
    hide EvalExpr, CompExpr, FunctionAt, Exec, Run, After, CodeAt, UniqueMarks;
    Start(c, s);
    match es
    case ENil =>
      k := 0;
      assert s.top.temps + [] == s.top.temps;
      Standstill(c, s, s.top.temps, Unit(WorldOf(s)), fuel);
    case ECons(e, tail) =>
      var ce := CompExpr(e, n);
      var ct := CompArgs(tail, ce.next);
      var end := s.pc + |CompArgs(es, n).code|;
      Split(c.code, s.pc, ce.code, ct.code);
      var t;
      k, t := OperandSim(c, s, 0, e, n, s, s.top.temps, end, fuel);
      var re := One(EvalExpr(c.u, e, WorldOf(s), fuel));
      if !re.out.Done? { return; }
      var m := ArgsSim(c, tail, ce.next, t, fuel);
      var rt := EvalArgs(c.u, tail, WorldOf(t), fuel);
      if rt.out.Done? {
        Reached(c, t, t.top.temps, rt, end, fuel, m);
        Then(c, s, k, t, m, Put(t, rt.w, end, t.top.temps + rt.out.vs));
        assert s.top.temps + (re.out.vs + rt.out.vs) == t.top.temps + rt.out.vs;
        Finish(c, s, s.top.temps, rt.(out := Done(re.out.vs + rt.out.vs)), end, fuel, k + m);
      } else {
        Abort(c, s, t, t.top.temps, s.top.temps, rt, end, end, fuel, k, m);
      }
      k := k + m;
  }

  /** Operands followed by one primitive that consumes them and what lies above base. */
  lemma {:induction false} ArgsThenPrim(
    c: Image, es: Exprs, n: nat, p: PrimOp, s: State, base: seq<Value>, first: seq<Value>, fuel: nat) returns (k: nat)
    requires Linked(c) && CodeAt(c.code, s.pc, CompArgs(es, n).code + [Prim(p)]) && s.top.temps == base + first
    ensures var r := EvalArgs(c.u, es, WorldOf(s), fuel);
      Sim(c, s, base, if r.out.Done? then PrimOut(c.u, p, first + r.out.vs, r.w) else r,
          s.pc + |CompArgs(es, n).code| + 1, fuel, k)
    decreases fuel, es, 1
  {
    hide EvalArgs, CompArgs, FunctionAt, Exec, Run, After, PrimOut, CodeAt, UniqueMarks;
    var code := CompArgs(es, n).code;
    Split(c.code, s.pc, code, [Prim(p)]);
    k := ArgsSim(c, es, n, s, fuel);
    var r := EvalArgs(c.u, es, WorldOf(s), fuel);
    if r.out.Done? {
      Reached(c, s, s.top.temps, r, s.pc + |code|, fuel, k);
      var t := Put(s, r.w, s.pc + |code|, s.top.temps + r.out.vs);
      assert t.top.temps == base + (first + r.out.vs);
      PrimStep(c, t.pc, [Prim(p)], 0, t, base, first + r.out.vs, fuel);
      Chain(c, s, t, base, PrimOut(c.u, p, first + r.out.vs, r.w), t.pc + 1, fuel, k, 1);
      k := k + 1;
    } else {
      Leave(c, s, s.top.temps, base, r, s.pc + |code|, s.pc + |code| + 1, fuel, k);
    }
  }

  lemma {:induction false} StrictSim(c: Image, e: Expr, n: nat, s: State, fuel: nat) returns (k: nat)
    requires e.Strict? && Linked(c)
        && CodeAt(c.code, s.pc, CompArgs(e.args, n).code + [Prim(StrictOp(e.node, Count(e.args)))])
    ensures Sim(c, s, s.top.temps, EvalStrict(c.u, e, WorldOf(s), fuel), s.pc + |CompArgs(e.args, n).code| + 1, fuel, k)
    decreases fuel, e, 0
  {
    hide EvalArgs, CompArgs, FunctionAt, Exec, Run, After, PrimOut, CodeAt, UniqueMarks;
    assert forall q: seq<Value> :: [] + q == q;
    assert s.top.temps + [] == s.top.temps;
    k := ArgsThenPrim(c, e.args, n, StrictOp(e.node, Count(e.args)), s, s.top.temps, [], fuel);
  }

  lemma {:induction false} NullTestSim(c: Image, e: Expr, n: nat, s: State, fuel: nat) returns (k: nat)
    requires e.NullTest? && Linked(c) && CodeAt(c.code, s.pc, CompNullTest(e, n).code)
    ensures Sim(c, s, s.top.temps, EvalNullTest(c.u, e, WorldOf(s), fuel), s.pc + |CompNullTest(e, n).code|, fuel, k)
    decreases fuel, e, 0
  {
    hide EvalExpr, CompExpr, FunctionAt, Exec, Run, After, CodeAt, UniqueMarks;
    var m := CompExpr(e.e, n).next;
    var cx := CompExpr(e.e, m).code;
    var rest := [Simply(Nvll), Simply(Ueql)];
    var end := s.pc + |CompNullTest(e, n).code|;
    Split(c.code, s.pc, cx, rest);
    Start(c, s);
    var t;
    k, t := OperandSim(c, s, 0, e.e, m, s, s.top.temps, end, fuel);
    var r := One(EvalExpr(c.u, e.e, WorldOf(s), fuel));
    if r.out.Done? {
      var v := r.out.vs[0];
      var t2 := Go(t, t.pc + 1, s.top.temps + [v, Null]);
      PushNull(c, t.pc, rest, 0, t);
      assert t.top.temps + [Null] == s.top.temps + [v, Null];
      NotNullStep(c, t.pc, rest, 1, t2, s.top.temps, v);
      Then(c, s, k, t, 1, t2);
      Then(c, s, k + 1, t2, 1, Go(t2, end, s.top.temps + [Bool(v != Null)]));
      k := k + 2;
      Finish(c, s, s.top.temps, Value1(Bool(v != Null), r.w), end, fuel, k);
    }
  }

  /** The operand is kept and compared with null. */
  lemma NullPrefix(c: Image, test: seq<Asm>, s: State, base: seq<Value>, v: Value)
    requires s.top.temps == base + [v] && CodeAt(c.code, s.pc, test) && |test| > 2
    requires test[0].Duplicate? && test[1] == Simply(Nvll) && test[2] == Simply(Ueql)
    ensures Moves(c, s, 3, Go(s, s.pc + 3, base + [v] + [Bool(v != Null)]))
  {
    hide Exec, Run, CodeAt, UniqueMarks;
    var t := Go(s, s.pc + 1, base + [v] + [v]);
    DuplicateStep(c, s.pc, test, 0, s, base, v);
    assert base + [v] + [v] == base + [v, v];
    var t1 := Go(s, s.pc + 2, base + [v] + [v, Null]);
    PushNull(c, s.pc, test, 1, t);
    assert base + [v] + [v] + [Null] == base + [v] + [v, Null];
    NotNullStep(c, s.pc, test, 2, t1, base + [v], v);
    Then(c, s, 1, t, 1, t1);
    Then(c, s, 2, t1, 1, Go(s, s.pc + 3, base + [v] + [Bool(v != Null)]));
  }

  /** The left operand decides: its value at the end of the code. */
  lemma LogicKeep(c: Image, op: LogicOp, id: nat, s: State, base: seq<Value>, v: Value, pc2: nat) returns (k: nat)
    requires UniqueMarks(c.code) && KeepsLeft(op, v) && s.top.temps == base + [v]
    requires CodeAt(c.code, s.pc, LogicTest(op, id)) && CodeAt(c.code, pc2, LogicTail(op, id))
    ensures Moves(c, s, k, Go(s, pc2 + |LogicTail(op, id)|, base + [LogicValue(op, v)]))
  {
    hide Exec, Run, CodeAt, UniqueMarks;
    var test, tail := LogicTest(op, id), LogicTail(op, id);
    match op
    case And =>
      BranchStep(c, s.pc, test, 0, s, base, v, pc2, tail, 2);
      var t := Go(s, pc2 + 2, base);
      k := ConstantTail(c, pc2, tail, t, false);
      Then(c, s, 1, t, k, Go(s, pc2 + 5, base + [Bool(false)]));
      k := 1 + k;
    case Or =>
      NotStep(c, s.pc, test, 0, s, base, v);
      var t := Go(s, s.pc + 1, base + [Bool(false)]);
      BranchStep(c, s.pc, test, 1, t, base, Bool(false), pc2, tail, 2);
      var t2 := Go(s, pc2 + 2, base);
      Then(c, s, 1, t, 1, t2);
      k := ConstantTail(c, pc2, tail, t2, true);
      Then(c, s, 2, t2, k, Go(s, pc2 + 5, base + [Bool(true)]));
      k := 2 + k;
    case Elvis => k := ElvisKeep(c, id, s, base, v, pc2);
    case NullCo => k := NullCoKeep(c, id, s, base, v, pc2);
  }

  lemma ElvisKeep(c: Image, id: nat, s: State, base: seq<Value>, v: Value, pc2: nat) returns (k: nat)
    requires UniqueMarks(c.code) && Truthy(v) && s.top.temps == base + [v]
    requires CodeAt(c.code, s.pc, LogicTest(Elvis, id)) && CodeAt(c.code, pc2, LogicTail(Elvis, id))
    ensures Moves(c, s, k, Go(s, pc2 + 1, base + [v]))
  {
    hide Exec, Run, CodeAt, UniqueMarks;
    var test, tail := LogicTest(Elvis, id), LogicTail(Elvis, id);
    var t := Go(s, s.pc + 1, base + [v] + [v]);
    DuplicateStep(c, s.pc, test, 0, s, base, v);
    assert base + [v] + [v] == base + [v, v];
    BranchStep(c, s.pc, test, 1, t, base + [v], v, s.pc, test, 3);
    var t2 := Go(s, s.pc + 2, base + [v]);
    SkipRight(c, s.pc, test, 2, t2, pc2, tail);
    Then(c, s, 1, t, 1, t2);
    Then(c, s, 2, t2, 2, Go(s, pc2 + 1, base + [v]));
    k := 4;
  }

  lemma NullCoKeep(c: Image, id: nat, s: State, base: seq<Value>, v: Value, pc2: nat) returns (k: nat)
    requires UniqueMarks(c.code) && v != Null && s.top.temps == base + [v]
    requires CodeAt(c.code, s.pc, LogicTest(NullCo, id)) && CodeAt(c.code, pc2, LogicTail(NullCo, id))
    ensures Moves(c, s, k, Go(s, pc2 + 1, base + [v]))
  {
    hide Exec, Run, CodeAt, UniqueMarks;
    var test, tail := LogicTest(NullCo, id), LogicTail(NullCo, id);
    NullPrefix(c, test, s, base, v);
    var t := Go(s, s.pc + 3, base + [v] + [Bool(true)]);
    BranchStep(c, s.pc, test, 3, t, base + [v], Bool(true), s.pc, test, 5);
    var t2 := Go(s, s.pc + 4, base + [v]);
    SkipRight(c, s.pc, test, 4, t2, pc2, tail);
    Then(c, s, 3, t, 1, t2);
    Then(c, s, 4, t2, 2, Go(s, pc2 + 1, base + [v]));
    k := 6;
  }

  /** The jump over the right operand to the label that ends the code. */
  lemma SkipRight(c: Image, pc: nat, test: seq<Asm>, j: nat, s: State, pc2: nat, tail: seq<Asm>)
    requires UniqueMarks(c.code) && Fetched(c, pc, test, j, s) && test[j].Goto?
    requires CodeAt(c.code, pc2, tail) && |tail| == 1 && tail[0] == Mark(test[j].l)
    ensures Moves(c, s, 2, s.(pc := pc2 + 1))
  {
    hide Exec, Run, CodeAt, UniqueMarks;
    GotoStep(c, pc, test, j, s, pc2, tail, 0);
    var t := s.(pc := pc2);
    MarkStep(c, pc2, tail, 0, t);
    Then(c, s, 1, t, 1, s.(pc := pc2 + 1));
  }

  /** The tail of and/or from its second label: the constant. */
  lemma ConstantTail(c: Image, pc: nat, tail: seq<Asm>, s: State, b: bool) returns (k: nat)
    requires CodeAt(c.code, pc, tail) && |tail| == 5 && s.pc == pc + 2
    requires tail[2].Mark? && tail[3] == Simply(if b then True else False) && tail[4].Mark?
    ensures Moves(c, s, k, Go(s, pc + 5, s.top.temps + [Bool(b)]))
  {
    hide Exec, Run, CodeAt, UniqueMarks;
    var t := s.(pc := pc + 3);
    MarkStep(c, pc, tail, 2, s);
    PushBool(c, pc, tail, 3, t, b);
    var t2 := Go(s, pc + 4, s.top.temps + [Bool(b)]);
    MarkStep(c, pc, tail, 4, t2);
    Then(c, s, 1, t, 1, t2);
    Then(c, s, 2, t2, 1, Go(s, pc + 5, s.top.temps + [Bool(b)]));
    k := 3;
  }

  /** The left operand does not decide: the right one starts on a clean slate. */
  lemma LogicGo(c: Image, op: LogicOp, id: nat, s: State, base: seq<Value>, v: Value, pc2: nat) returns (k: nat)
    requires UniqueMarks(c.code) && !KeepsLeft(op, v) && s.top.temps == base + [v]
    requires CodeAt(c.code, s.pc, LogicTest(op, id)) && CodeAt(c.code, pc2, LogicTail(op, id))
    ensures Moves(c, s, k, Go(s, s.pc + |LogicTest(op, id)|, base))
  {
    hide Exec, Run, CodeAt, UniqueMarks;
    var test, tail := LogicTest(op, id), LogicTail(op, id);
    match op
    case And =>
      BranchStep(c, s.pc, test, 0, s, base, v, pc2, tail, 2);
      k := 1;
    case Or =>
      NotStep(c, s.pc, test, 0, s, base, v);
      var t := Go(s, s.pc + 1, base + [Bool(true)]);
      BranchStep(c, s.pc, test, 1, t, base, Bool(true), pc2, tail, 2);
      Then(c, s, 1, t, 1, Go(s, s.pc + 2, base));
      k := 2;
    case Elvis => k := ElvisGo(c, id, s, base, v);
    case NullCo => k := NullCoGo(c, id, s, base, v);
  }

  lemma ElvisGo(c: Image, id: nat, s: State, base: seq<Value>, v: Value) returns (k: nat)
    requires UniqueMarks(c.code) && !Truthy(v) && s.top.temps == base + [v]
    requires CodeAt(c.code, s.pc, LogicTest(Elvis, id))
    ensures Moves(c, s, k, Go(s, s.pc + 5, base))
  {
    hide Exec, Run, CodeAt, UniqueMarks;
    var test := LogicTest(Elvis, id);
    var t := Go(s, s.pc + 1, base + [v] + [v]);
    DuplicateStep(c, s.pc, test, 0, s, base, v);
    assert base + [v] + [v] == base + [v, v];
    BranchStep(c, s.pc, test, 1, t, base + [v], v, s.pc, test, 3);
    var t2 := Go(s, s.pc + 3, base + [v]);
    Then(c, s, 1, t, 1, t2);
    k := DropLeft(c, s.pc, test, 3, t2, base, v);
    Then(c, s, 2, t2, k, Go(s, s.pc + 5, base));
    k := 2 + k;
  }

  lemma NullCoGo(c: Image, id: nat, s: State, base: seq<Value>, v: Value) returns (k: nat)
    requires UniqueMarks(c.code) && v == Null && s.top.temps == base + [v]
    requires CodeAt(c.code, s.pc, LogicTest(NullCo, id))
    ensures Moves(c, s, k, Go(s, s.pc + 7, base))
  {
    hide Exec, Run, CodeAt, UniqueMarks;
    var test := LogicTest(NullCo, id);
    NullPrefix(c, test, s, base, v);
    var t := Go(s, s.pc + 3, base + [v] + [Bool(false)]);
    BranchStep(c, s.pc, test, 3, t, base + [v], Bool(false), s.pc, test, 5);
    var t2 := Go(s, s.pc + 5, base + [v]);
    Then(c, s, 3, t, 1, t2);
    k := DropLeft(c, s.pc, test, 5, t2, base, v);
    Then(c, s, 4, t2, k, Go(s, s.pc + 7, base));
    k := 4 + k;
  }

  /** A label and the removal of the operand that was kept for it. */
  lemma DropLeft(c: Image, pc: nat, frag: seq<Asm>, j: nat, s: State, base: seq<Value>, v: Value) returns (k: nat)
    requires Fetched(c, pc, frag, j, s) && j + 1 < |frag| && frag[j].Mark? && frag[j + 1].Scrap?
        && s.top.temps == base + [v]
    ensures Moves(c, s, k, Go(s, pc + j + 2, base))
  {
    hide Exec, Run, CodeAt, UniqueMarks;
    var t := s.(pc := s.pc + 1);
    MarkStep(c, pc, frag, j, s);
    ScrapStep(c, pc, frag, j + 1, t, base, v);
    Then(c, s, 1, t, 1, Go(s, pc + j + 2, base));
    k := 2;
  }

  /** From the right operand to the end of the code. */
  lemma LogicEnd(c: Image, op: LogicOp, id: nat, s: State, base: seq<Value>, v: Value) returns (k: nat)
    requires UniqueMarks(c.code) && s.top.temps == base + [v] && CodeAt(c.code, s.pc, LogicTail(op, id))
    ensures Moves(c, s, k, Go(s, s.pc + |LogicTail(op, id)|, base + [LogicValue(op, v)]))
  {
    hide Exec, Run, CodeAt, UniqueMarks;
    var tail := LogicTail(op, id);
    if op.And? || op.Or? {
      CastStep(c, s.pc, tail, 0, s, base, v);
      var t := Go(s, s.pc + 1, base + [Bool(Truthy(v))]);
      GotoStep(c, s.pc, tail, 1, t, s.pc, tail, 4);
      var t2 := t.(pc := s.pc + 4);
      MarkStep(c, s.pc, tail, 4, t2);
      Then(c, s, 1, t, 1, t2);
      Then(c, s, 2, t2, 1, t2.(pc := s.pc + 5));
      k := 3;
    } else {
      MarkStep(c, s.pc, tail, 0, s);
      k := 1;
    }
  }

  lemma {:induction false} LogicSim(c: Image, e: Expr, n: nat, s: State, fuel: nat) returns (k: nat)
    requires e.Logic? && Linked(c) && CodeAt(c.code, s.pc, CompLogic(e, n).code)
    ensures Sim(c, s, s.top.temps, EvalLogic(c.u, e, WorldOf(s), fuel), s.pc + |CompLogic(e, n).code|, fuel, k)
    decreases fuel, e, 0
  {
    hide EvalExpr, CompExpr, FunctionAt, Exec, Run, After, CodeAt, UniqueMarks, LogicTest, LogicTail, KeepsLeft,
      LogicValue;
    var cl := CompExpr(e.l, n);
    var cr := CompExpr(e.r, cl.next);
    var test, tail := LogicTest(e.lop, cr.next), LogicTail(e.lop, cr.next);
    var base, end := s.top.temps, s.pc + |CompLogic(e, n).code|;
    Split(c.code, s.pc, cl.code, test + (cr.code + tail));
    Split(c.code, s.pc + |cl.code|, test, cr.code + tail);
    Split(c.code, s.pc + |cl.code| + |test|, cr.code, tail);
    var pc2 := s.pc + |cl.code| + |test| + |cr.code|;
    Start(c, s);
    var t;
    k, t := OperandSim(c, s, 0, e.l, n, s, base, end, fuel);
    var rl := One(EvalExpr(c.u, e.l, WorldOf(s), fuel));
    if !rl.out.Done? { return; }
    var v := rl.out.vs[0];
    if KeepsLeft(e.lop, v) {
      var m := LogicKeep(c, e.lop, cr.next, t, base, v, pc2);
      Then(c, s, k, t, m, Go(t, end, base + [LogicValue(e.lop, v)]));
      k := k + m;
      Finish(c, s, base, Value1(LogicValue(e.lop, v), rl.w), end, fuel, k);
      return;
    }
    var m := LogicGo(c, e.lop, cr.next, t, base, v, pc2);
    var t2 := Go(t, t.pc + |test|, base);
    Then(c, s, k, t, m, t2);
    k := k + m;
    var t3;
    k, t3 := OperandSim(c, s, k, e.r, cl.next, t2, base, end, fuel);
    var rr := One(EvalExpr(c.u, e.r, rl.w, fuel));
    if !rr.out.Done? { return; }
    m := LogicEnd(c, e.lop, cr.next, t3, base, rr.out.vs[0]);
    Then(c, s, k, t3, m, Go(t3, end, base + [LogicValue(e.lop, rr.out.vs[0])]));
    k := k + m;
    Finish(c, s, base, Value1(LogicValue(e.lop, rr.out.vs[0]), rr.w), end, fuel, k);
  }

  function ElseMiddle(kind: string, id: nat): seq<Asm> {
    [Goto(Jmp(kind, id, End)), Mark(Jmp(kind, id, Else))]
  }

  /** The parts of a two-armed conditional are where its code says. */
  lemma ElseLayout(c: Image, pc: nat, kind: string, id: nat, cc: seq<Asm>, ct: seq<Asm>, ce: seq<Asm>)
    requires CodeAt(c.code, pc, ElseCode(kind, id, cc, ct, ce))
    ensures |ElseCode(kind, id, cc, ct, ce)| == |cc| + |ct| + |ce| + 4
    ensures CodeAt(c.code, pc, cc) && CodeAt(c.code, pc + |cc|, [IfElse(Jmp(kind, id, Else))])
    ensures CodeAt(c.code, pc + |cc| + 1, ct)
    ensures CodeAt(c.code, pc + |cc| + 1 + |ct|, ElseMiddle(kind, id))
    ensures CodeAt(c.code, pc + |cc| + |ct| + 3, ce)
        && CodeAt(c.code, pc + |cc| + |ct| + 3 + |ce|, [Mark(Jmp(kind, id, End))])
  {
    hide CodeAt;
    var branch: seq<Asm> := [IfElse(Jmp(kind, id, Else))];
    var middle: seq<Asm> := ElseMiddle(kind, id);
    var last: seq<Asm> := [Mark(Jmp(kind, id, End))];
    Split(c.code, pc, cc, branch + (ct + (middle + (ce + last))));
    Split(c.code, pc + |cc|, branch, ct + (middle + (ce + last)));
    Split(c.code, pc + |cc| + 1, ct, middle + (ce + last));
    Split(c.code, pc + |cc| + 1 + |ct|, middle, ce + last);
    Split(c.code, pc + |cc| + |ct| + 3, ce, last);
  }

  /** From the condition's value to the start of the arm it selects. */
  lemma SelectArm(c: Image, s: State, base: seq<Value>, v: Value, kind: string, id: nat, ct: seq<Asm>) returns (k: nat)
    requires UniqueMarks(c.code) && s.top.temps == base + [v]
    requires CodeAt(c.code, s.pc, [IfElse(Jmp(kind, id, Else))])
    requires CodeAt(c.code, s.pc + 1 + |ct|, ElseMiddle(kind, id))
    ensures Moves(c, s, k, Go(s, if Truthy(v) then s.pc + 1 else s.pc + |ct| + 3, base))
  {
    hide Exec, Run, CodeAt, UniqueMarks;
    var middle: seq<Asm> := ElseMiddle(kind, id);
    var pc2 := s.pc + 1 + |ct|;
    BranchStep(c, s.pc, [IfElse(Jmp(kind, id, Else))], 0, s, base, v, pc2, middle, 1);
    k := 1;
    if !Truthy(v) {
      var t := Go(s, pc2 + 1, base);
      MarkStep(c, pc2, middle, 1, t);
      Then(c, s, 1, t, 1, Go(s, pc2 + 2, base));
      k := 2;
    }
  }

  /** A jump and the label it leads to. */
  lemma JumpTo(c: Image, pc: nat, jump: seq<Asm>, s: State, pc2: nat, frag: seq<Asm>, j: nat)
    requires UniqueMarks(c.code) && Fetched(c, pc, jump, 0, s) && CodeAt(c.code, pc2, frag)
    requires jump[0].Goto? && j < |frag| && frag[j] == Mark(jump[0].l)
    ensures Moves(c, s, 2, s.(pc := pc2 + j + 1))
  {
    hide Exec, Run, CodeAt, UniqueMarks;
    var t := s.(pc := pc2 + j);
    GotoStep(c, pc, jump, 0, s, pc2, frag, j);
    MarkStep(c, pc2, frag, j, t);
    Then(c, s, 1, t, 1, s.(pc := pc2 + j + 1));
  }

  lemma {:induction false} TernarySim(c: Image, e: Expr, n: nat, s: State, fuel: nat) returns (k: nat)
    requires e.Ternary? && Linked(c) && CodeAt(c.code, s.pc, CompTernary(e, n).code)
    ensures Sim(c, s, s.top.temps, EvalTernary(c.u, e, WorldOf(s), fuel), s.pc + |CompTernary(e, n).code|, fuel, k)
    decreases fuel, e, 0
  {
    hide EvalExpr, CompExpr, FunctionAt, Exec, Run, After, CodeAt, UniqueMarks, ElseCode;
    var cc := CompExpr(e.cond, n + 1);
    var ct := CompExpr(e.thn, cc.next);
    var ce := CompExpr(e.els, ct.next);
    ElseLayout(c, s.pc, "TERNARY", n, cc.code, ct.code, ce.code);
    var base, end := s.top.temps, s.pc + |CompTernary(e, n).code|;
    Start(c, s);
    var t;
    k, t := OperandSim(c, s, 0, e.cond, n + 1, s, base, end, fuel);
    var rc := One(EvalExpr(c.u, e.cond, WorldOf(s), fuel));
    if !rc.out.Done? { return; }
    var v := rc.out.vs[0];
    var m := SelectArm(c, t, base, v, "TERNARY", n, ct.code);
    var t2 := Go(t, if Truthy(v) then t.pc + 1 else t.pc + |ct.code| + 3, base);
    Then(c, s, k, t, m, t2);
    k := k + m;
    if Truthy(v) {
      var j := ExprSim(c, e.thn, cc.next, t2, fuel);
      var r := EvalExpr(c.u, e.thn, rc.w, fuel);
      if r.out.Done? {
        var x := Put(t2, r.w, t2.pc + |ct.code|, base + r.out.vs);
        JumpTo(c, x.pc, ElseMiddle("TERNARY", n), x, end - 1, [Mark(Jmp("TERNARY", n, End))], 0);
      }
      k := Join(c, s, k, t2, base, r, t2.pc + |ct.code|, end, fuel, j, 2);
    } else {
      var j := ExprSim(c, e.els, ct.next, t2, fuel);
      var r := EvalExpr(c.u, e.els, rc.w, fuel);
      if r.out.Done? {
        MarkStep(c, end - 1, [Mark(Jmp("TERNARY", n, End))], 0, Put(t2, r.w, end - 1, base + r.out.vs));
      }
      k := Join(c, s, k, t2, base, r, end - 1, end, fuel, j, 1);
    }
  }

  lemma {:induction false} NodeSim(c: Image, b: Node, n: nat, s: State, fuel: nat) returns (k: nat)
    requires Linked(c) && CodeAt(c.code, s.pc, CompNode(b, n).code)
    ensures Sim(c, s, s.top.temps, EvalNode(c.u, b, WorldOf(s), fuel), s.pc + |CompNode(b, n).code|, fuel, k)
    decreases fuel, b, 0
  {
    hide EvalExpr, CompExpr, EvalStmt, CompStmt, FunctionAt, Exec, Run, After, CodeAt, UniqueMarks;
    match b
    case E(e) => k := ExprSim(c, e, n, s, fuel);
    case S(x) => k := StmtSim(c, x, n, s, fuel);
  }

  /** A cascade starts with its first label and ends with its end label. */
  lemma CascadeShape(cs: Cases, id: nat, i: nat, n: nat)
    ensures var code := CompCascade(cs, id, i, n).code;
      && |code| >= 2
      && code[0] == Mark(Jmp("CONDTIONAL", id, Cond(i + 1)))
      && code[|code| - 1] == Mark(Jmp("CONDTIONAL", id, End))
    decreases cs
  {
    hide CompExpr, CompNode;
    if cs.CCons? {
      CascadeShape(cs.tail, id, i + 1, CompNode(cs.body, CompExpr(cs.cond, n).next).next);
    }
  }

  lemma {:induction false} CascadeSim(
    c: Image, cs: Cases, id: nat, i: nat, n: nat, s: State, fuel: nat) returns (k: nat)
    requires Linked(c) && CodeAt(c.code, s.pc, CompCascade(cs, id, i, n).code)
    ensures Sim(c, s, s.top.temps, EvalCascade(c.u, cs, WorldOf(s), fuel), s.pc + |CompCascade(cs, id, i, n).code|,
      fuel, k)
    decreases fuel, cs, 0
  {
    hide EvalExpr, CompExpr, EvalNode, CompNode, FunctionAt, Exec, Run, After, CodeAt, UniqueMarks;
    var code := CompCascade(cs, id, i, n).code;
    var here := code[0];
    var base, end := s.top.temps, s.pc + |code|;
    CascadeShape(cs, id, i, n);
    MarkStep(c, s.pc, code, 0, s);
    var t := s.(pc := s.pc + 1);
    match cs
    case Otherwise(o) =>
      var co := CompNode(o, n);
      var last: seq<Asm> := [Mark(Jmp("CONDTIONAL", id, End))];
      Split(c.code, s.pc, [here], co.code + last);
      Split(c.code, s.pc + 1, co.code, last);
      var m := NodeSim(c, o, n, t, fuel);
      var r := EvalNode(c.u, o, WorldOf(s), fuel);
      if r.out.Done? {
        MarkStep(c, end - 1, last, 0, Put(t, r.w, end - 1, base + r.out.vs));
      }
      k := Join(c, s, 1, t, base, r, end - 1, end, fuel, m, 1);
    case CCons(_, _, _) => k := CascadeStep(c, cs, id, i, n, s, fuel);
  }

  lemma CascadeLayout(
    c: Image, pc: nat, here: seq<Asm>, cc: seq<Asm>, branch: seq<Asm>, cb: seq<Asm>, jump: seq<Asm>, ct: seq<Asm>)
    requires CodeAt(c.code, pc, here + (cc + (branch + (cb + (jump + ct))))) && |here| == |branch| == |jump| == 1
    ensures CodeAt(c.code, pc, here) && CodeAt(c.code, pc + 1, cc) && CodeAt(c.code, pc + 1 + |cc|, branch)
    ensures CodeAt(c.code, pc + |cc| + 2, cb) && CodeAt(c.code, pc + |cc| + |cb| + 2, jump)
    ensures CodeAt(c.code, pc + |cc| + |cb| + 3, ct)
  {
    hide CodeAt;
    Split(c.code, pc, here, cc + (branch + (cb + (jump + ct))));
    Split(c.code, pc + 1, cc, branch + (cb + (jump + ct)));
    Split(c.code, pc + 1 + |cc|, branch, cb + (jump + ct));
    Split(c.code, pc + |cc| + 2, cb, jump + ct);
    Split(c.code, pc + |cc| + |cb| + 2, jump, ct);
  }

  lemma {:induction false} CascadeStep(
    c: Image, cs: Cases, id: nat, i: nat, n: nat, s: State, fuel: nat) returns (k: nat)
    requires cs.CCons? && Linked(c) && CodeAt(c.code, s.pc, CompCascade(cs, id, i, n).code)
    requires Moves(c, s, 1, s.(pc := s.pc + 1))
    ensures Sim(c, s, s.top.temps, EvalCascade(c.u, cs, WorldOf(s), fuel), s.pc + |CompCascade(cs, id, i, n).code|,
      fuel, k)
    decreases fuel, cs, -1
  {
    hide EvalExpr, CompExpr, EvalNode, CompNode, FunctionAt, Exec, Run, After, CodeAt, UniqueMarks;
    var cc := CompExpr(cs.cond, n);
    var cb := CompNode(cs.body, cc.next);
    var ct := CompCascade(cs.tail, id, i + 1, cb.next).code;
    var here: seq<Asm> := [Mark(Jmp("CONDTIONAL", id, Cond(i + 1)))];
    var branch: seq<Asm> := [IfElse(Jmp("CONDTIONAL", id, Cond(i + 2)))];
    var jump: seq<Asm> := [Goto(Jmp("CONDTIONAL", id, End))];
    var code := CompCascade(cs, id, i, n).code;
    var pcB := s.pc + 1 + |cc.code|;
    var pcJ := pcB + 1 + |cb.code|;
    CascadeLayout(c, s.pc, here, cc.code, branch, cb.code, jump, ct);
    CascadeShape(cs.tail, id, i + 1, cb.next);
    var base, end := s.top.temps, s.pc + |code|;
    var t, t2 := s.(pc := s.pc + 1), s;
    k, t2 := OperandSim(c, s, 1, cs.cond, n, t, base, end, fuel);
    var rc := One(EvalExpr(c.u, cs.cond, WorldOf(s), fuel));
    if !rc.out.Done? { return; }
    var v := rc.out.vs[0];
    BranchStep(c, pcB, branch, 0, t2, base, v, pcJ + 1, ct, 0);
    var t3 := Go(t2, if Truthy(v) then pcB + 1 else pcJ + 1, base);
    Then(c, s, k, t2, 1, t3);
    k := k + 1;
    if Truthy(v) {
      var m := NodeSim(c, cs.body, cc.next, t3, fuel);
      var r := EvalNode(c.u, cs.body, rc.w, fuel);
      if r.out.Done? {
        JumpTo(c, pcJ, jump, Put(t3, r.w, pcJ, base + r.out.vs), pcJ + 1, ct, |ct| - 1);
      }
      k := Join(c, s, k, t3, base, r, pcJ, end, fuel, m, 2);
    } else {
      var m := CascadeSim(c, cs.tail, id, i + 1, cb.next, t3, fuel);
      Chain(c, s, t3, base, EvalCascade(c.u, cs.tail, rc.w, fuel), end, fuel, k, m);
      k := k + m;
    }
  }

  lemma SwitchLayout(c: Image, pc: nat, subject: seq<Asm>, arms: Arms, id: nat)
    requires CodeAt(c.code, pc, SwitchCode(subject, arms, id))
    ensures var tests, body, bodies := SwitchTests(arms, id, 0), DefaultBody(arms), SwitchBodies(arms, id, 0);
      var pcD := pc + |subject| + |tests|;
      && CodeAt(c.code, pc, subject) && CodeAt(c.code, pc + |subject|, tests)
      && CodeAt(c.code, pcD, [Scrap]) && CodeAt(c.code, pcD + 1, body)
      && CodeAt(c.code, pcD + 1 + |body|, [Goto(Jmp("SWITCH", id, End))])
      && CodeAt(c.code, pcD + 2 + |body|, bodies)
      && CodeAt(c.code, pcD + 2 + |body| + |bodies|, [Mark(Jmp("SWITCH", id, End))])
      && |SwitchCode(subject, arms, id)| == |subject| + |tests| + |body| + |bodies| + 3
  {
    hide CodeAt, SwitchTests, SwitchBodies, DefaultBody;
    var tests, body, bodies := SwitchTests(arms, id, 0), DefaultBody(arms), SwitchBodies(arms, id, 0);
    var scrap: seq<Asm> := [Scrap];
    var jump: seq<Asm> := [Goto(Jmp("SWITCH", id, End))];
    var last: seq<Asm> := [Mark(Jmp("SWITCH", id, End))];
    var pcD := pc + |subject| + |tests|;
    Split(c.code, pc, subject, tests + (scrap + (body + (jump + (bodies + last)))));
    Split(c.code, pc + |subject|, tests, scrap + (body + (jump + (bodies + last))));
    Split(c.code, pcD, scrap, body + (jump + (bodies + last)));
    Split(c.code, pcD + 1, body, jump + (bodies + last));
    Split(c.code, pcD + 1 + |body|, jump, bodies + last);
    Split(c.code, pcD + 2 + |body|, bodies, last);
  }

  function SwitchRes(u: Source, x: Expr, cs: Cases, w: World, fuel: nat): Res {
    var rx := One(EvalExpr(u, x, w, fuel));
    if !rx.out.Done? then rx else EvalArms(u, rx.out.vs[0], cs, rx.w, fuel)
  }

  lemma {:induction false} SwitchSim(c: Image, e: Expr, n: nat, s: State, fuel: nat) returns (k: nat)
    requires e.Switch? && Linked(c) && CodeAt(c.code, s.pc, CompExpr(e, n).code)
    ensures Sim(c, s, s.top.temps, SwitchRes(c.u, e.subject, e.cases, WorldOf(s), fuel), s.pc + |CompExpr(e, n).code|,
      fuel, k)
    decreases fuel, e, 0
  {
    hide EvalExpr, EvalArms, CompArms, FunctionAt, Exec, Run, After, CodeAt, UniqueMarks;
    var cx := CompExpr(e.subject, n);
    var (arms, id) := CompArms(e.cases, cx.next);
    assert CompExpr(e, n).code == SwitchCode(cx.code, arms, id);
    SwitchLayout(c, s.pc, cx.code, arms, id);
    var base, end := s.top.temps, s.pc + |SwitchCode(cx.code, arms, id)|;
    Start(c, s);
    var t;
    k, t := OperandSim(c, s, 0, e.subject, n, s, base, end, fuel);
    var rx := One(EvalExpr(c.u, e.subject, WorldOf(s), fuel));
    if !rx.out.Done? { return; }
    var pcD := t.pc + |SwitchTests(arms, id, 0)|;
    var m := ArmsSim(c, e.cases, cx.next, id, 0, t, base, rx.out.vs[0], pcD, pcD + |DefaultBody(arms)| + 2, end - 1,
      fuel);
    Chain(c, s, t, base, EvalArms(c.u, rx.out.vs[0], e.cases, rx.w, fuel), end, fuel, k, m);
    k := k + m;
  }

  lemma {:induction false} SwitchStmtSim(c: Image, x: Stmt, n: nat, s: State, fuel: nat) returns (k: nat)
    requires x.SwitchStmt? && Linked(c) && CodeAt(c.code, s.pc, CompStmt(x, n).code)
    ensures Sim(c, s, s.top.temps, SwitchRes(c.u, x.subject, x.cases, WorldOf(s), fuel), s.pc + |CompStmt(x, n).code|,
      fuel, k)
    decreases fuel, x, 0
  {
    hide EvalExpr, CompExpr, EvalArms, CompArms, FunctionAt, Exec, Run, After, CodeAt, UniqueMarks;
    var cx := CompExpr(x.subject, n);
    var (arms, id) := CompArms(x.cases, cx.next);
    assert CompStmt(x, n).code == SwitchCode(cx.code, arms, id);
    SwitchLayout(c, s.pc, cx.code, arms, id);
    var base, end := s.top.temps, s.pc + |SwitchCode(cx.code, arms, id)|;
    Start(c, s);
    var t;
    k, t := OperandSim(c, s, 0, x.subject, n, s, base, end, fuel);
    var rx := One(EvalExpr(c.u, x.subject, WorldOf(s), fuel));
    if !rx.out.Done? { return; }
    var pcD := t.pc + |SwitchTests(arms, id, 0)|;
    var m := ArmsSim(c, x.cases, cx.next, id, 0, t, base, rx.out.vs[0], pcD, pcD + |DefaultBody(arms)| + 2, end - 1,
      fuel);
    Chain(c, s, t, base, EvalArms(c.u, rx.out.vs[0], x.cases, rx.w, fuel), end, fuel, k, m);
    k := k + m;
  }

  /** The tests of the remaining cases, from the i-th on, with the subject on the stack. */
  lemma {:induction false} ArmsSim(
    c: Image, cs: Cases, n: nat, id: nat, i: nat, s: State, base: seq<Value>, v: Value,
    pcD: nat, pcB: nat, pcE: nat, fuel: nat) returns (k: nat)
    requires Linked(c) && s.top.temps == base + [v]
    requires var arms := CompArms(cs, n).0;
      && CodeAt(c.code, s.pc, SwitchTests(arms, id, i)) && pcD == s.pc + |SwitchTests(arms, id, i)|
      && CodeAt(c.code, pcD, [Scrap]) && CodeAt(c.code, pcD + 1, DefaultBody(arms))
      && CodeAt(c.code, pcD + 1 + |DefaultBody(arms)|, [Goto(Jmp("SWITCH", id, End))])
      && CodeAt(c.code, pcB, SwitchBodies(arms, id, i))
      && CodeAt(c.code, pcE, [Mark(Jmp("SWITCH", id, End))])
    ensures Sim(c, s, base, EvalArms(c.u, v, cs, WorldOf(s), fuel), pcE + 1, fuel, k)
    decreases fuel, cs, 2
  {
    hide EvalExpr, CompExpr, EvalNode, CompNode, FunctionAt, Exec, Run, After, CodeAt, UniqueMarks;
    match cs
    case Otherwise(o) =>
      ScrapStep(c, pcD, [Scrap], 0, s, base, v);
      k := BodySim(c, o, n, id, s, 1, Go(s, pcD + 1, base), base, pcE, fuel);
    case CCons(_, _, _) => k := ArmSim(c, cs, n, id, i, s, base, v, pcD, pcB, pcE, fuel);
  }

  /** The body of an arm and the jump to the end of the switch. */
  lemma {:induction false} BodySim(
    c: Image, b: Node, n: nat, id: nat, s0: State, k0: nat, s: State, base: seq<Value>, pcE: nat,
    fuel: nat) returns (k: nat)
    requires Linked(c) && Moves(c, s0, k0, s) && SameFrame(s0, s) && s.top.temps == base
    requires CodeAt(c.code, s.pc, CompNode(b, n).code)
    requires CodeAt(c.code, s.pc + |CompNode(b, n).code|, [Goto(Jmp("SWITCH", id, End))])
    requires CodeAt(c.code, pcE, [Mark(Jmp("SWITCH", id, End))])
    ensures Sim(c, s0, base, EvalNode(c.u, b, WorldOf(s), fuel), pcE + 1, fuel, k)
    decreases fuel, b, 1
  {
    hide EvalNode, CompNode, FunctionAt, Exec, Run, After, CodeAt, UniqueMarks;
    var m := NodeSim(c, b, n, s, fuel);
    var r := EvalNode(c.u, b, WorldOf(s), fuel);
    var here := s.pc + |CompNode(b, n).code|;
    if r.out.Done? {
      JumpTo(c, here, [Goto(Jmp("SWITCH", id, End))], Put(s, r.w, here, base + r.out.vs), pcE,
        [Mark(Jmp("SWITCH", id, End))], 0);
    }
    k := Join(c, s0, k0, s, base, r, here, pcE + 1, fuel, m, 2);
  }

  lemma ArmLayout(
    c: Image, pc: nat, test: seq<Asm>, dup: seq<Asm>, check: seq<Asm>, tests: seq<Asm>,
    pcB: nat, head: seq<Asm>, body: seq<Asm>, jump: seq<Asm>, bodies: seq<Asm>)
    requires CodeAt(c.code, pc, dup + (test + (check + tests))) && |dup| == |jump| == 1 && |check| == |head| == 2
    requires CodeAt(c.code, pcB, head + (body + (jump + bodies)))
    ensures CodeAt(c.code, pc, dup) && CodeAt(c.code, pc + 1, test) && CodeAt(c.code, pc + 1 + |test|, check)
    ensures CodeAt(c.code, pc + 3 + |test|, tests)
    ensures CodeAt(c.code, pcB, head) && CodeAt(c.code, pcB + 2, body) && CodeAt(c.code, pcB + 2 + |body|, jump)
    ensures CodeAt(c.code, pcB + 3 + |body|, bodies)
  {
    hide CodeAt;
    Split(c.code, pc, dup, test + (check + tests));
    Split(c.code, pc + 1, test, check + tests);
    Split(c.code, pc + 1 + |test|, check, tests);
    Split(c.code, pcB, head, body + (jump + bodies));
    Split(c.code, pcB + 2, body, jump + bodies);
    Split(c.code, pcB + 2 + |body|, jump, bodies);
  }

  lemma {:induction false} ArmSim(
    c: Image, cs: Cases, n: nat, id: nat, i: nat, s: State, base: seq<Value>, v: Value,
    pcD: nat, pcB: nat, pcE: nat, fuel: nat) returns (k: nat)
    requires cs.CCons? && Linked(c) && s.top.temps == base + [v]
    requires var arms := CompArms(cs, n).0;
      && CodeAt(c.code, s.pc, SwitchTests(arms, id, i)) && pcD == s.pc + |SwitchTests(arms, id, i)|
      && CodeAt(c.code, pcD, [Scrap]) && CodeAt(c.code, pcD + 1, DefaultBody(arms))
      && CodeAt(c.code, pcD + 1 + |DefaultBody(arms)|, [Goto(Jmp("SWITCH", id, End))])
      && CodeAt(c.code, pcB, SwitchBodies(arms, id, i))
      && CodeAt(c.code, pcE, [Mark(Jmp("SWITCH", id, End))])
    ensures Sim(c, s, base, EvalArms(c.u, v, cs, WorldOf(s), fuel), pcE + 1, fuel, k)
    decreases fuel, cs, 1
  {
    hide EvalExpr, CompExpr, EvalNode, CompNode, FunctionAt, Exec, Run, After, CodeAt, UniqueMarks, PrimOut;
    var cc := CompExpr(cs.cond, n);
    var cb := CompNode(cs.body, cc.next);
    var tail := CompArms(cs.tail, cb.next).0;
    var check: seq<Asm> := [Simply(Ueql), IfElse(Jmp("SWITCH", id, Case(i)))];
    var head: seq<Asm> := [Mark(Jmp("SWITCH", id, Case(i))), Scrap];
    var jump: seq<Asm> := [Goto(Jmp("SWITCH", id, End))];
    ArmLayout(c, s.pc, cc.code, [Duplicate], check, SwitchTests(tail, id, i + 1),
              pcB, head, cb.code, jump, SwitchBodies(tail, id, i + 1));
    var t := Go(s, s.pc + 1, base + [v] + [v]);
    DuplicateStep(c, s.pc, [Duplicate], 0, s, base, v);
    assert base + [v] + [v] == base + [v, v];
    var t2;
    k, t2 := OperandSim(c, s, 1, cs.cond, n, t, base, pcE + 1, fuel);
    var rc := One(EvalExpr(c.u, cs.cond, WorldOf(s), fuel));
    if !rc.out.Done? { return; }
    assert t2.top.temps == base + [v] + ([v] + rc.out.vs);
    PrimStep(c, t2.pc, check, 0, t2, base + [v], [v] + rc.out.vs, fuel);
    var rq := PrimOut(c.u, Simple(Ueql), [v] + rc.out.vs, rc.w);
    if !rq.out.Done? {
      Abort(c, s, t2, base + [v], base, rq, t2.pc + 1, pcE + 1, fuel, k, 1);
      k := k + 1;
      return;
    }
    Reached(c, t2, base + [v], rq, t2.pc + 1, fuel, 1);
    var t3 := Put(t2, rq.w, t2.pc + 1, base + [v] + rq.out.vs);
    Then(c, s, k, t2, 1, t3);
    BranchStep(c, t2.pc, check, 1, t3, base + [v], rq.out.vs[0], pcB, head, 0);
    if Truthy(rq.out.vs[0]) {
      var t4 := Go(t3, t3.pc + 1, base + [v]);
      Then(c, s, k + 1, t3, 1, t4);
      var m := ArmsSim(c, cs.tail, cb.next, id, i + 1, t4, base, v, pcD, pcB + 3 + |cb.code|, pcE, fuel);
      Chain(c, s, t4, base, EvalArms(c.u, v, cs.tail, rq.w, fuel), pcE + 1, fuel, k + 2, m);
      k := k + 2 + m;
    } else {
      var t4 := Go(t3, pcB, base + [v]);
      Then(c, s, k + 1, t3, 1, t4);
      var m := DropLeft(c, pcB, head, 0, t4, base, v);
      Then(c, s, k + 2, t4, m, Go(t4, pcB + 2, base));
      k := BodySim(c, cs.body, cc.next, id, s, k + 2 + m, Go(t4, pcB + 2, base), base, pcE, fuel);
    }
  }

  lemma {:induction false} StructSim(c: Image, e: Expr, n: nat, s: State, fuel: nat) returns (k: nat)
    requires e.StructLit? && Linked(c) && CodeAt(c.code, s.pc, [Simply(NewStruct)] + CompMembers(e.members, n).code)
    ensures Sim(c, s, s.top.temps, EvalStruct(c.u, e, WorldOf(s), fuel), s.pc + 1 + |CompMembers(e.members, n).code|,
      fuel, k)
    decreases fuel, e, 0
  {
    hide EvalMembers, CompMembers, FunctionAt, Exec, Run, After, CodeAt, UniqueMarks, PrimOut;
    var base, code := s.top.temps, CompMembers(e.members, n).code;
    var end := s.pc + 1 + |code|;
    Split(c.code, s.pc, [Simply(NewStruct)], code);
    assert base == base + [];
    PrimStep(c, s.pc, [Simply(NewStruct)], 0, s, base, [], fuel);
    var ro := PrimOut(c.u, Simple(NewStruct), [], WorldOf(s));
    k := 1;
    if ro.out.Done? {
      Reached(c, s, base, ro, s.pc + 1, fuel, 1);
      var t := Put(s, ro.w, s.pc + 1, base + ro.out.vs);
      var m := MembersSim(c, e.members, n, t, base, ro.out.vs[0], fuel);
      Chain(c, s, t, base, EvalMembers(c.u, ro.out.vs[0], e.members, ro.w, fuel), end, fuel, 1, m);
      k := 1 + m;
    } else {
      Leave(c, s, base, base, ro, s.pc + 1, end, fuel, 1);
    }
  }

  /** Members are written one by one into the struct o, which stays on the stack. */
  lemma {:induction false} MembersSim(
    c: Image, ms: Members, n: nat, s: State, base: seq<Value>, o: Value, fuel: nat) returns (k: nat)
    requires Linked(c) && CodeAt(c.code, s.pc, CompMembers(ms, n).code) && s.top.temps == base + [o]
    ensures Sim(c, s, base, EvalMembers(c.u, o, ms, WorldOf(s), fuel), s.pc + |CompMembers(ms, n).code|, fuel, k)
    decreases fuel, ms, 0
  {
    hide EvalExpr, CompExpr, FunctionAt, Exec, Run, After, CodeAt, UniqueMarks, PrimOut;
    match ms
    case MNil =>
      k := 0;
      Standstill(c, s, base, Value1(o, WorldOf(s)), fuel);
    case MCons(id, e, tail) =>
      var ce := CompExpr(e, n);
      var ct := CompMembers(tail, ce.next).code;
      var write: seq<Asm> := [Swap, Prim(MemberWrite(id))];
      Split(c.code, s.pc, [Duplicate], ce.code + (write + ct));
      Split(c.code, s.pc + 1, ce.code, write + ct);
      Split(c.code, s.pc + 1 + |ce.code|, write, ct);
      var end := s.pc + |CompMembers(ms, n).code|;
      DuplicateStep(c, s.pc, [Duplicate], 0, s, base, o);
      var t := Go(s, s.pc + 1, base + [o, o]);
      var t2;
      k, t2 := OperandSim(c, s, 1, e, n, t, base, end, fuel);
      var re := One(EvalExpr(c.u, e, WorldOf(s), fuel));
      if !re.out.Done? { return; }
      var v := re.out.vs[0];
      assert t2.top.temps == base + [o] + [o, v];
      SwapStep(c, t2.pc, write, 0, t2, base + [o], o, v);
      var t3 := Go(t2, t2.pc + 1, base + [o] + [v, o]);
      Then(c, s, k, t2, 1, t3);
      PrimStep(c, t2.pc, write, 1, t3, base + [o], re.out.vs + [o], fuel);
      var rw := PrimOut(c.u, MemberWrite(id), re.out.vs + [o], re.w);
      k := k + 1;
      if !rw.out.Done? {
        Abort(c, s, t3, base + [o], base, rw, t3.pc + 1, end, fuel, k, 1);
        k := k + 1;
        return;
      }
      Reached(c, t3, base + [o], rw, t3.pc + 1, fuel, 1);
      NothingPushed(c.u, MemberWrite(id), re.out.vs + [o], re.w);
      var t4 := Put(t3, rw.w, t3.pc + 1, base + [o] + []);
      Then(c, s, k, t3, 1, t4);
      assert base + [o] + [] == base + [o];
      var m := MembersSim(c, tail, ce.next, t4, base, o, fuel);
      Chain(c, s, t4, base, EvalMembers(c.u, o, tail, rw.w, fuel), end, fuel, k + 1, m);
      k := k + 1 + m;
  }

  lemma NothingPushed(u: Source, p: PrimOp, args: seq<Value>, w: World)
    requires !Pushes(p) && PrimOut(u, p, args, w).out.Done?
    ensures PrimOut(u, p, args, w).out.vs == []
  {
  }

  lemma {:induction false} MapSim(c: Image, e: Expr, n: nat, s: State, fuel: nat) returns (k: nat)
    requires e.MapLit? && Linked(c) && CodeAt(c.code, s.pc, [Simply(NewMap)] + CompPairs(e.pairs, n).code)
    ensures Sim(c, s, s.top.temps, EvalMap(c.u, e, WorldOf(s), fuel), s.pc + 1 + |CompPairs(e.pairs, n).code|, fuel, k)
    decreases fuel, e, 0
  {
    hide EvalPairs, CompPairs, FunctionAt, Exec, Run, After, CodeAt, UniqueMarks, PrimOut;
    var base, code := s.top.temps, CompPairs(e.pairs, n).code;
    var end := s.pc + 1 + |code|;
    Split(c.code, s.pc, [Simply(NewMap)], code);
    assert base == base + [];
    PrimStep(c, s.pc, [Simply(NewMap)], 0, s, base, [], fuel);
    var ro := PrimOut(c.u, Simple(NewMap), [], WorldOf(s));
    k := 1;
    if ro.out.Done? {
      Reached(c, s, base, ro, s.pc + 1, fuel, 1);
      var t := Put(s, ro.w, s.pc + 1, base + ro.out.vs);
      var m := PairsSim(c, e.pairs, n, t, base, ro.out.vs[0], fuel);
      Chain(c, s, t, base, EvalPairs(c.u, ro.out.vs[0], e.pairs, ro.w, fuel), end, fuel, 1, m);
      k := 1 + m;
    } else {
      Leave(c, s, base, base, ro, s.pc + 1, end, fuel, 1);
    }
  }

  lemma PairLayout(c: Image, pc: nat, cv: seq<Asm>, ck: seq<Asm>, ct: seq<Asm>)
    requires CodeAt(c.code, pc, [Duplicate] + (cv + ([Swap] + (ck + ([Simply(AtWrite)] + ct)))))
    ensures CodeAt(c.code, pc, [Duplicate]) && CodeAt(c.code, pc + 1, cv) && CodeAt(c.code, pc + 1 + |cv|, [Swap])
    ensures CodeAt(c.code, pc + 2 + |cv|, ck) && CodeAt(c.code, pc + 2 + |cv| + |ck|, [Simply(AtWrite)])
    ensures CodeAt(c.code, pc + 3 + |cv| + |ck|, ct)
  {
    hide CodeAt;
    Split(c.code, pc, [Duplicate], cv + ([Swap] + (ck + ([Simply(AtWrite)] + ct))));
    Split(c.code, pc + 1, cv, [Swap] + (ck + ([Simply(AtWrite)] + ct)));
    Split(c.code, pc + 1 + |cv|, [Swap], ck + ([Simply(AtWrite)] + ct));
    Split(c.code, pc + 2 + |cv|, ck, [Simply(AtWrite)] + ct);
    Split(c.code, pc + 2 + |cv| + |ck|, [Simply(AtWrite)], ct);
  }

  /** Pairs are written one by one, the value of each evaluated before its key. */
  lemma {:induction false} PairsSim(
    c: Image, ps: Pairs, n: nat, s: State, base: seq<Value>, o: Value, fuel: nat) returns (k: nat)
    requires Linked(c) && CodeAt(c.code, s.pc, CompPairs(ps, n).code) && s.top.temps == base + [o]
    ensures Sim(c, s, base, EvalPairs(c.u, o, ps, WorldOf(s), fuel), s.pc + |CompPairs(ps, n).code|, fuel, k)
    decreases fuel, ps, 0
  {
    hide EvalExpr, CompExpr, FunctionAt, Exec, Run, After, CodeAt, UniqueMarks, PrimOut;
    match ps
    case PNil =>
      k := 0;
      Standstill(c, s, base, Value1(o, WorldOf(s)), fuel);
    case PCons(key, e, tail) =>
      var ce := CompExpr(e, n);
      var ck := CompExpr(key, ce.next);
      var ct := CompPairs(tail, ck.next).code;
      PairLayout(c, s.pc, ce.code, ck.code, ct);
      var end := s.pc + |CompPairs(ps, n).code|;
      DuplicateStep(c, s.pc, [Duplicate], 0, s, base, o);
      var t := Go(s, s.pc + 1, base + [o, o]);
      var t2;
      k, t2 := OperandSim(c, s, 1, e, n, t, base, end, fuel);
      var re := One(EvalExpr(c.u, e, WorldOf(s), fuel));
      if !re.out.Done? { return; }
      var v := re.out.vs[0];
      assert t2.top.temps == base + [o] + [o, v];
      SwapStep(c, t2.pc, [Swap], 0, t2, base + [o], o, v);
      var t3 := Go(t2, t2.pc + 1, base + [o] + [v, o]);
      Then(c, s, k, t2, 1, t3);
      var t4;
      k, t4 := OperandSim(c, s, k + 1, key, ce.next, t3, base, end, fuel);
      var rk := One(EvalExpr(c.u, key, re.w, fuel));
      if !rk.out.Done? { return; }
      var args := re.out.vs + [o] + rk.out.vs;
      assert t4.top.temps == base + [o] + args;
      k := WritePair(c, s, k, t4, base, o, args, tail, ck.next, end, fuel);
  }

  lemma {:induction false} WritePair(
    c: Image, s: State, k0: nat, t: State, base: seq<Value>, o: Value, args: seq<Value>, tail: Pairs, n: nat,
    end: nat, fuel: nat)
    returns (k: nat)
    requires Linked(c) && Moves(c, s, k0, t) && SameFrame(s, t) && t.top.temps == base + [o] + args
    requires CodeAt(c.code, t.pc, [Simply(AtWrite)]) && CodeAt(c.code, t.pc + 1, CompPairs(tail, n).code)
    requires end == t.pc + 1 + |CompPairs(tail, n).code|
    ensures var rw := PrimOut(c.u, Simple(AtWrite), args, WorldOf(t));
      Sim(c, s, base, if rw.out.Done? then EvalPairs(c.u, o, tail, rw.w, fuel) else rw, end, fuel, k)
    decreases fuel, tail, 1
  {
    hide EvalPairs, CompPairs, FunctionAt, Exec, Run, After, CodeAt, UniqueMarks, PrimOut;
    PrimStep(c, t.pc, [Simply(AtWrite)], 0, t, base + [o], args, fuel);
    var rw := PrimOut(c.u, Simple(AtWrite), args, WorldOf(t));
    k := k0 + 1;
    if rw.out.Done? {
      Reached(c, t, base + [o], rw, t.pc + 1, fuel, 1);
      NothingPushed(c.u, Simple(AtWrite), args, WorldOf(t));
      var t2 := Put(t, rw.w, t.pc + 1, base + [o] + []);
      Then(c, s, k0, t, 1, t2);
      assert base + [o] + [] == base + [o];
      var m := PairsSim(c, tail, n, t2, base, o, fuel);
      Chain(c, s, t2, base, EvalPairs(c.u, o, tail, rw.w, fuel), end, fuel, k, m);
      k := k + m;
    } else {
      Abort(c, s, t, base + [o], base, rw, t.pc + 1, end, fuel, k0, 1);
    }
  }

  lemma {:induction false} CallExprSim(c: Image, e: Expr, n: nat, s: State, fuel: nat) returns (k: nat)
    requires e.CallExpr? && Linked(c) && CodeAt(c.code, s.pc, CompArgs(e.args, n).code + [Call(e.fn)])
    ensures Sim(c, s, s.top.temps, EvalCallExpr(c.u, e, WorldOf(s), fuel), s.pc + |CompArgs(e.args, n).code| + 1,
      fuel, k)
    decreases fuel, e, 0
  {
    hide EvalArgs, CompArgs, EvalCall, FunctionAt, Exec, Run, After, CodeAt, UniqueMarks, PrimOut;
    var base, code := s.top.temps, CompArgs(e.args, n).code;
    var here := s.pc + |code|;
    Split(c.code, s.pc, code, [Call(e.fn)]);
    k := ArgsSim(c, e.args, n, s, fuel);
    var ra := EvalArgs(c.u, e.args, WorldOf(s), fuel);
    if !ra.out.Done? {
      Leave(c, s, base, base, ra, here, here + 1, fuel, k);
      return;
    }
    Reached(c, s, base, ra, here, fuel, k);
    var t := Put(s, ra.w, here, base + ra.out.vs);
    match FindFn(c.u.env.fns, e.fn)
    case None =>
    case Some(f) =>
      if f >= |c.u.env.fns| || |ra.out.vs| != Arity(c.u.env.fns[f]) { return; }
      CallStep(c, here, [Call(e.fn)], 0, t, base, ra.out.vs, f);
      var t2 := Go(t, t.pc, base);
      var start := PushFrame(c.u.env, t2, f, ra.out.vs, here + 1);
      Then(c, s, k, t, 1, start);
      k := k + 1;
      k := EnterCall(c, s, k, start, t2, f, ra.out.vs, here + 1, base, e.args, fuel);
  }

  /** From the first instruction of a callee to the return into s. */
  lemma {:induction false} EnterCall(
    c: Image, s0: State, k0: nat, start: State, s: State, f: nat, slots: seq<Value>, next: nat, base: seq<Value>,
    es: Exprs, fuel: nat) returns (k: nat)
    requires Linked(c) && Moves(c, s0, k0, start) && SameFrame(s0, s) && k0 > 0 && f < |c.u.env.fns|
    requires start == PushFrame(c.u.env, s, f, slots, next) && s.top.temps == base
    ensures Sim(c, s0, base,
      if fuel == 0 then Res(OutOfFuel, WorldOf(s)) else EvalCall(c.u, Target(f, slots, s.heap), WorldOf(s), fuel - 1),
      next, fuel, k)
    decreases fuel, es, 8
  {
    hide EvalCall, FunctionAt, Exec, After, CodeAt, UniqueMarks;
    k := k0;
    if fuel > 0 {
      var r := EvalCall(c.u, Target(f, slots, s.heap), WorldOf(s), fuel - 1);
      var m := CallSim(c, start, s, f, slots, next, base, fuel - 1);
      Enter(c, s0, start, s, base, r, next, fuel - 1, k0, m);
      k := k0 + m;
      MoreFuel(c, s0, base, r, next, fuel - 1, m, k);
    }
  }

  lemma {:induction false} InvokeExprSim(c: Image, e: Expr, n: nat, s: State, fuel: nat) returns (k: nat)
    requires e.InvokeExpr? && Linked(c) && CodeAt(c.code, s.pc, CompInvoke(e, n).code)
    ensures Sim(c, s, s.top.temps, EvalInvokeExpr(c.u, e, WorldOf(s), fuel), s.pc + |CompInvoke(e, n).code|, fuel, k)
    decreases fuel, e, 0
  {
    hide EvalExpr, CompExpr, EvalArgs, CompArgs, EvalCall, Resolve, FunctionAt, Exec, Run, After, CodeAt, UniqueMarks;
    var base, ca := s.top.temps, CompArgs(e.args, n);
    var cf := CompExpr(e.fnExpr, ca.next).code;
    var last: seq<Asm> := [Invoke(Count(e.args))];
    var here, end := s.pc + |ca.code|, s.pc + |ca.code| + |cf| + 1;
    Split(c.code, s.pc, ca.code, cf + last);
    Split(c.code, here, cf, last);
    k := ArgsSim(c, e.args, n, s, fuel);
    var ra := EvalArgs(c.u, e.args, WorldOf(s), fuel);
    if !ra.out.Done? {
      Leave(c, s, base, base, ra, here, end, fuel, k);
      return;
    }
    Reached(c, s, base, ra, here, fuel, k);
    var t, t2 := Put(s, ra.w, here, base + ra.out.vs), s;
    k, t2 := OperandSim(c, s, k, e.fnExpr, ca.next, t, base, end, fuel);
    var rf := One(EvalExpr(c.u, e.fnExpr, ra.w, fuel));
    if !rf.out.Done? { return; }
    assert t2.top.temps == base + ra.out.vs + [rf.out.vs[0]];
    k := InvokeSim(c, s, k, t2, base, ra.out.vs, rf.out.vs[0], e.args, fuel);
  }

  /** The invocation of fv with the arguments above base. */
  lemma {:induction false} InvokeSim(
    c: Image, s: State, k0: nat, t: State, base: seq<Value>, args: seq<Value>, fv: Value,
    es: Exprs, fuel: nat) returns (k: nat)
    requires Linked(c) && Moves(c, s, k0, t) && SameFrame(s, t) && CodeAt(c.code, t.pc, [Invoke(|args|)])
    requires t.top.temps == base + args + [fv]
    ensures Sim(c, s, base,
      if fuel == 0 then Res(OutOfFuel, WorldOf(s))
          else EvalCall(c.u, Resolve(c.u, fv, args, WorldOf(t)), WorldOf(t), fuel - 1),
      t.pc + 1, fuel, k)
    decreases fuel, es, 9
  {
    hide Resolve, FunctionAt, Exec, After, CodeAt, UniqueMarks;
    k := k0;
    if fuel == 0 { return; }
    InvokeStep(c, t.pc, [Invoke(|args|)], 0, t, base, args, fv);
    match Resolve(c.u, fv, args, WorldOf(t))
    case NoTarget(out, h) =>
      k := k0 + 1;
      RunAdd(Prog(c), s, k0, 1);
      InvokeStops(c, s, t, base, out, h, fuel, k);
    case Target(f, slots, h) =>
      var t2 := Go(t, t.pc, base).(heap := h);
      var start := PushFrame(c.u.env, t2, f, slots, t.pc + 1);
      Then(c, s, k0, t, 1, start);
      k := EnterCall(c, s, k0 + 1, start, t2, f, slots, t.pc + 1, base, es, fuel);
      WorldOnlyLocals(c.u, f, slots, WorldOf(t), h, fuel - 1);
  }

  lemma InvokeStops(c: Image, s: State, t: State, base: seq<Value>, out: Out, h: Heap, fuel: nat, k: nat)
    requires SameFrame(s, t) && (out.Raised? || out.Outside?)
    requires out.Raised? ==> Run(Prog(c), s, k) == Unwind(c.u.env, Put(t, WorldOf(t).(heap := h), 0, []), out.x)
    ensures Sim(c, s, base, Res(out, WorldOf(t).(heap := h)), t.pc + 1, fuel, k)
  {
  }

  /** A call starts from the heap of its target, not from that of the caller's world. */
  lemma WorldOnlyLocals(u: Source, f: nat, slots: seq<Value>, w: World, h: Heap, fuel: nat)
    ensures EvalCall(u, Target(f, slots, h), w, fuel) == EvalCall(u, Target(f, slots, h), w.(heap := h), fuel)
  {
    hide EvalStmt;
  }

  /** A body that falls off its end returns null. */
  lemma ReturnsNull(c: Image, x: State, here: nat, tail: seq<Asm>)
    requires x.pc == here && x.top.temps == []
    requires CodeAt(c.code, here, tail) && |tail| >= 2 && tail[0] == Simply(Nvll) && tail[1] == Return
    ensures Run(Prog(c), x, 2) == PopFrame(x, Null)
  {
    hide Exec, Run, CodeAt, PopFrame;
    var y := Go(x, here + 1, [] + [Null]);
    PushNull(c, here, tail, 0, x);
    assert x.top.temps + [Null] == [] + [Null];
    ReturnStep(c, here, tail, 1, y, [], Null);
    RunAdd(Prog(c), x, 1, 1);
    PopFrameTemps(x, y, Null);
  }

  lemma PopFrameTemps(x: State, y: State, v: Value)
    requires y == Go(x, y.pc, y.top.temps)
    ensures PopFrame(y, v) == PopFrame(x, v)
  {
  }

  /** The end of a body: its outcome as seen by the caller s. */
  lemma CallEnds(
    c: Image, start: State, k: nat, t: State, s: State, r: Res, here: nat, tail: seq<Asm>, next: nat, base: seq<Value>,
    fuel: nat, m: nat) returns (j: nat)
    requires Moves(c, start, k, t) && t.below == Under(s.top, s.below) && t.cos == s.cos
    requires t.top.ret == next && t.top.temps == [] && s.top.temps == base
    requires r.out.Raised? ==> t.top.handler.None?
    requires Sim(c, t, [], r, here, fuel, m)
    requires CodeAt(c.code, here, tail) && |tail| >= 2 && tail[0] == Simply(Nvll) && tail[1] == Return
    ensures SimFrom(c, start, s, base, CallResult(r, WorldOf(s)), next, fuel, j)
  {
    hide Exec, CodeAt;
    j := k + m;
    RunAdd(Prog(c), start, k, m);
    match r.out
    case Done(vs) =>
      if vs == [] {
        var x := Put(t, r.w, here, []);
        assert [] + vs == [];
        ReturnsNull(c, x, here, tail);
        RunAdd(Prog(c), start, k + m, 2);
        j := k + m + 2;
      }
    case Raised(x) =>
      var w := r.w.(locals := s.top.locals);
      var u := Put(t, r.w, 0, []);
      UnwindSame(c.u.env, u.(top := s.top, below := s.below), Put(s, w, 0, []), x);
    case _ =>
  }

  /** The code of a function without, and with, an except block. */
  ghost predicate PlainAt(c: Image, f: nat, n: nat)
    requires f < |c.u.fns| && f < |c.u.env.fns|
  {
    var fn, a := c.u.fns[f], c.u.env.fns[f].address;
    var body := CompStmt(fn.body, n).code;
    CodeAt(c.code, a, [Mark(fn.name)]) && CodeAt(c.code, a + 1, body)
        && CodeAt(c.code, a + 1 + |body|, [Simply(Nvll), Return])
  }

  ghost predicate GuardedAt(c: Image, f: nat, n: nat)
    requires f < |c.u.fns| && f < |c.u.env.fns| && c.u.fns[f].name.Function? && c.u.fns[f].except.Some?
  {
    var fn, a := c.u.fns[f], c.u.env.fns[f].address;
    var body := CompStmt(fn.body, n);
    var x := CompStmt(fn.except.value, body.next).code;
    var b := a + 2 + |body.code|;
    && CodeAt(c.code, a, [Mark(fn.name)]) && CodeAt(c.code, a + 1, [Try(ExceptLabel(fn.name))])
    && CodeAt(c.code, a + 2, body.code) && CodeAt(c.code, b, [Simply(Nvll), Return])
    && CodeAt(c.code, b + 2, [Mark(ExceptLabel(fn.name))])
    && CodeAt(c.code, b + 3, x) && CodeAt(c.code, b + 3 + |x|, [Simply(Nvll), Return])
  }

  lemma FunctionLayout(c: Image, f: nat) returns (n: nat)
    requires Linked(c) && f < |c.u.fns| && f < |c.u.env.fns| && !c.u.fns[f].isCoroutine
    ensures c.u.fns[f].name.Function? && if c.u.fns[f].except.None? then PlainAt(c, f, n) else GuardedAt(c, f, n)
  {
    hide CompStmt, UniqueMarks;
    assert FunctionAt(c, f);
    var fn, a := c.u.fns[f], c.u.env.fns[f].address;
    n :| CodeAt(c.code, a, CompFunction(fn, n).code);
    if fn.except.None? {
      PlainLayout(c, f, n);
    } else {
      GuardedLayout(c, f, n);
    }
  }

  lemma PlainLayout(c: Image, f: nat, n: nat)
    requires f < |c.u.fns| && f < |c.u.env.fns| && c.u.fns[f].name.Function?
    requires !c.u.fns[f].isCoroutine && c.u.fns[f].except.None?
    requires CodeAt(c.code, c.u.env.fns[f].address, CompFunction(c.u.fns[f], n).code)
    ensures PlainAt(c, f, n)
  {
    hide CompStmt, CodeAt;
    var fn, a := c.u.fns[f], c.u.env.fns[f].address;
    var body := CompStmt(fn.body, n).code;
    var tail: seq<Asm> := [Simply(Nvll), Return];
    var head: seq<Asm> := [Mark(fn.name)];
    assert CompFunction(fn, n).code == head + (body + tail);
    Split(c.code, a, head, body + tail);
    Split(c.code, a + 1, body, tail);
  }

  lemma GuardedLayout(c: Image, f: nat, n: nat)
    requires f < |c.u.fns| && f < |c.u.env.fns| && c.u.fns[f].name.Function?
    requires !c.u.fns[f].isCoroutine && c.u.fns[f].except.Some?
    requires CodeAt(c.code, c.u.env.fns[f].address, CompFunction(c.u.fns[f], n).code)
    ensures GuardedAt(c, f, n)
  {
    hide CompStmt, CodeAt;
    var fn, a := c.u.fns[f], c.u.env.fns[f].address;
    var body := CompStmt(fn.body, n);
    var tail: seq<Asm> := [Simply(Nvll), Return];
    var x := CompStmt(fn.except.value, body.next).code;
    var b := a + 2 + |body.code|;
    var head: seq<Asm> := [Mark(fn.name)];
    var try: seq<Asm> := [Try(ExceptLabel(fn.name))];
    var mark: seq<Asm> := [Mark(ExceptLabel(fn.name))];
    assert CompFunction(fn, n).code == head + (try + (body.code + (tail + (mark + (x + tail)))));
    hide CompFunction;
    Split(c.code, a, head, try + (body.code + (tail + (mark + (x + tail)))));
    Split(c.code, a + 1, try, body.code + (tail + (mark + (x + tail))));
    Split(c.code, a + 2, body.code, tail + (mark + (x + tail)));
    Split(c.code, b, tail, mark + (x + tail));
    Split(c.code, b + 2, mark, x + tail);
    Split(c.code, b + 3, x, tail);
  }

  /** A call, from the callee's first instruction. */
  lemma {:induction false} CallSim(
    c: Image, start: State, s: State, f: nat, slots: seq<Value>, next: nat, base: seq<Value>,
    fuel: nat) returns (k: nat)
    requires Linked(c) && f < |c.u.env.fns|
    requires start == PushFrame(c.u.env, s, f, slots, next) && s.top.temps == base
    ensures SimFrom(c, start, s, base, EvalCall(c.u, Target(f, slots, s.heap), WorldOf(s), fuel), next, fuel, k)
    decreases fuel
  {
    hide EvalStmt, CompStmt, Exec, Run, FunctionAt, After, CodeAt, UniqueMarks;
    k := 0;
    if f >= |c.u.fns| || c.u.fns[f].isCoroutine { return; }
    var fn, a := c.u.fns[f], c.u.env.fns[f].address;
    var n := FunctionLayout(c, f);
    var w := World(s.globals, slots + Nulls(c.u.env.fns[f].frameSize), s.heap);
    if fn.except.Some? {
      k := GuardedCall(c, start, s, f, n, slots, next, base, fuel);
    } else {
      var t := start.(pc := a + 1);
      MarkStep(c, a, [Mark(fn.name)], 0, start);
      var m := StmtSim(c, fn.body, n, t, fuel);
      var here := a + 1 + |CompStmt(fn.body, n).code|;
      k := CallEnds(c, start, 1, t, s, EvalStmt(c.u, fn.body, w, fuel), here, [Simply(Nvll), Return], next, base,
        fuel, m);
    }
  }

  /** A call of a function with an except block. */
  lemma {:induction false} GuardedCall(
    c: Image, start: State, s: State, f: nat, n: nat, slots: seq<Value>, next: nat, base: seq<Value>, fuel: nat)
    returns (k: nat)
    requires Linked(c) && f < |c.u.fns| && f < |c.u.env.fns| && !c.u.fns[f].isCoroutine && c.u.fns[f].except.Some?
    requires c.u.fns[f].name.Function? && GuardedAt(c, f, n)
    requires start == PushFrame(c.u.env, s, f, slots, next) && s.top.temps == base
    ensures SimFrom(c, start, s, base, EvalCall(c.u, Target(f, slots, s.heap), WorldOf(s), fuel), next, fuel, k)
    decreases fuel, c.u.fns[f], 9
  {
    hide EvalStmt, CompStmt, Exec, Run, FunctionAt, After, CodeAt, UniqueMarks;
    var fn, a := c.u.fns[f], c.u.env.fns[f].address;
    var body := CompStmt(fn.body, n);
    var b := a + 2 + |body.code|;
    var w := World(s.globals, slots + Nulls(c.u.env.fns[f].frameSize), s.heap);
    var t := start.(pc := a + 1);
    MarkStep(c, a, [Mark(fn.name)], 0, start);
    var t2 := t.(pc := a + 2, top := t.top.(handler := Some(b + 2)));
    TryStep(c, a + 1, [Try(ExceptLabel(fn.name))], 0, t, b + 2, [Mark(ExceptLabel(fn.name))], 0);
    Then(c, start, 1, t, 1, t2);
    var m := StmtSim(c, fn.body, n, t2, fuel);
    var r := EvalStmt(c.u, fn.body, w, fuel);
    if !r.out.Raised? {
      k := CallEnds(c, start, 2, t2, s, r, b, [Simply(Nvll), Return], next, base, fuel, m);
      return;
    }
    var t3 := Caught(c, start, 2, t2, r, b, fuel, m);
    MarkStep(c, b + 2, [Mark(ExceptLabel(fn.name))], 0, t3);
    var t4 := t3.(pc := b + 3);
    Then(c, start, 2 + m, t3, 1, t4);
    var x := CompStmt(fn.except.value, body.next).code;
    var j := StmtSim(c, fn.except.value, body.next, t4, fuel);
    var rx := EvalStmt(c.u, fn.except.value, WorldOf(t4), fuel);
    k := CallEnds(c, start, 3 + m, t4, s, rx, b + 3 + |x|, [Simply(Nvll), Return], next, base, fuel, j);
  }

  /** An exception raised in a frame with a handler continues at the handler. */
  lemma Caught(c: Image, start: State, k: nat, t: State, r: Res, here: nat, fuel: nat, m: nat) returns (t3: State)
    requires Moves(c, start, k, t) && t.below.Under? && t.top.temps == [] && t.top.handler.Some?
    requires r.out.Raised? && Sim(c, t, [], r, here, fuel, m) && t.top.ctx < |c.u.env.fns|
    ensures t3 == State(t.top.handler.value, r.w.globals,
      Act([r.out.x] + Nulls(c.u.env.fns[t.top.ctx].frameSize), [], t.top.ret, None, t.top.ctx), t.below, r.w.heap,
          t.cos)
    ensures Moves(c, start, k + m, t3)
  {
    hide Exec;
    RunAdd(Prog(c), start, k, m);
    t3 := State(t.top.handler.value, r.w.globals,
      Act([r.out.x] + Nulls(c.u.env.fns[t.top.ctx].frameSize), [], t.top.ret, None, t.top.ctx), t.below, r.w.heap,
          t.cos);
  }

  lemma {:induction false} InvokeMemberSim(c: Image, e: Expr, n: nat, s: State, fuel: nat) returns (k: nat)
    requires e.InvokeMember? && Linked(c) && CodeAt(c.code, s.pc, CompInvokeMember(e, n).code)
    ensures Sim(c, s, s.top.temps, EvalInvokeMember(c.u, e, WorldOf(s), fuel), s.pc + |CompInvokeMember(e, n).code|,
      fuel, k)
    decreases fuel, e, 0
  {
    hide EvalExpr, CompExpr, EvalArgs, CompMemberArgs, EvalCall, Resolve, PrimOut, FunctionAt, Exec, Run, After,
      CodeAt, UniqueMarks;
    var base, cx := s.top.temps, CompExpr(e.e, n);
    var ca := CompMemberArgs(e.args, cx.next).code;
    var read: seq<Asm> := [Duplicate, Prim(MemberRead(e.id))];
    var last: seq<Asm> := [Invoke(Count(e.args) + 1)];
    var end := s.pc + |CompInvokeMember(e, n).code|;
    Split(c.code, s.pc, cx.code, read + (ca + last));
    Split(c.code, s.pc + |cx.code|, read, ca + last);
    Split(c.code, s.pc + |cx.code| + 2, ca, last);
    Start(c, s);
    var t;
    k, t := OperandSim(c, s, 0, e.e, n, s, base, end, fuel);
    var rx := One(EvalExpr(c.u, e.e, WorldOf(s), fuel));
    if !rx.out.Done? { return; }
    var o := rx.out.vs[0];
    DuplicateStep(c, t.pc, read, 0, t, base, o);
    var t2 := Go(t, t.pc + 1, base + [o, o]);
    Then(c, s, k, t, 1, t2);
    assert base + [o, o] == base + [o] + rx.out.vs;
    PrimStep(c, t.pc, read, 1, t2, base + [o], rx.out.vs, fuel);
    var rf := PrimOut(c.u, MemberRead(e.id), rx.out.vs, rx.w);
    if !rf.out.Done? {
      Abort(c, s, t2, base + [o], base, rf, t2.pc + 1, end, fuel, k + 1, 1);
      k := k + 2;
      return;
    }
    Reached(c, t2, base + [o], rf, t2.pc + 1, fuel, 1);
    var fv := rf.out.vs[0];
    var t3 := Put(t2, rf.w, t2.pc + 1, base + [o] + [fv]);
    assert rf.out.vs == [fv];
    Then(c, s, k + 1, t2, 1, t3);
    k := k + 2;
    var m := MemberArgsSim(c, e.args, cx.next, t3, base + [o], fv, fuel);
    var ra := EvalArgs(c.u, e.args, rf.w, fuel);
    var here := t3.pc + |ca|;
    if !ra.out.Done? {
      Abort(c, s, t3, base + [o], base, ra, here, end, fuel, k, m);
      k := k + m;
      return;
    }
    var t4 := Put(t3, ra.w, here, base + [o] + ra.out.vs + [fv]);
    ReachedArgs(c, t3, base + [o], ra, fv, here, fuel, m);
    Then(c, s, k, t3, m, t4);
    assert base + [o] + ra.out.vs + [fv] == base + (rx.out.vs + ra.out.vs) + [fv];
    k := InvokeSim(c, s, k + m, t4, base, rx.out.vs + ra.out.vs, fv, e.args, fuel);
  }

  /** The same outcome with one more value on top. */
  function OnTop(r: Res, v: Value): Res {
    if r.out.Done? then r.(out := Done(r.out.vs + [v])) else r
  }

  lemma ReachedArgs(c: Image, s: State, base: seq<Value>, r: Res, v: Value, here: nat, fuel: nat, m: nat)
    requires r.out.Done? && Sim(c, s, base, OnTop(r, v), here, fuel, m)
    ensures Moves(c, s, m, Put(s, r.w, here, base + r.out.vs + [v]))
  {
    hide Exec, Run, After;
    Reached(c, s, base, OnTop(r, v), here, fuel, m);
    assert base + r.out.vs + [v] == base + (r.out.vs + [v]);
  }

  /** Arguments of a member call: each is swapped below the member fv. */
  lemma {:induction false} MemberArgsSim(
    c: Image, es: Exprs, n: nat, s: State, base: seq<Value>, fv: Value, fuel: nat) returns (k: nat)
    requires Linked(c) && CodeAt(c.code, s.pc, CompMemberArgs(es, n).code) && s.top.temps == base + [fv]
    ensures Sim(c, s, base, OnTop(EvalArgs(c.u, es, WorldOf(s), fuel), fv), s.pc + |CompMemberArgs(es, n).code|, fuel,
      k)
    decreases fuel, es, 0
  {
    hide EvalExpr, CompExpr, FunctionAt, Exec, Run, After, CodeAt, UniqueMarks;
    match es
    case ENil =>
      k := 0;
      assert base + ([] + [fv]) == base + [fv];
      Standstill(c, s, base, OnTop(Unit(WorldOf(s)), fv), fuel);
    case ECons(e, tail) =>
      var ce := CompExpr(e, n);
      var ct := CompMemberArgs(tail, ce.next);
      var end := s.pc + |CompMemberArgs(es, n).code|;
      Split(c.code, s.pc, ce.code, [Swap] + ct.code);
      Split(c.code, s.pc + |ce.code|, [Swap], ct.code);
      Start(c, s);
      var t;
      k, t := OperandSim(c, s, 0, e, n, s, base, end, fuel);
      var re := One(EvalExpr(c.u, e, WorldOf(s), fuel));
      if !re.out.Done? { return; }
      var v := re.out.vs[0];
      assert t.top.temps == base + [fv, v];
      SwapStep(c, t.pc, [Swap], 0, t, base, fv, v);
      var t2 := Go(t, t.pc + 1, base + [v] + [fv]);
      assert base + [v, fv] == base + [v] + [fv];
      Then(c, s, k, t, 1, t2);
      var m := MemberArgsSim(c, tail, ce.next, t2, base + [v], fv, fuel);
      var rt := EvalArgs(c.u, tail, re.w, fuel);
      if rt.out.Done? {
        ReachedArgs(c, t2, base + [v], rt, fv, end, fuel, m);
        Then(c, s, k + 1, t2, m, Put(t2, rt.w, end, base + [v] + rt.out.vs + [fv]));
        assert base + [v] + rt.out.vs + [fv] == base + (re.out.vs + rt.out.vs + [fv]);
        Finish(c, s, base, OnTop(rt.(out := Done(re.out.vs + rt.out.vs)), fv), end, fuel, k + 1 + m);
      } else {
        Abort(c, s, t2, base + [v], base, rt, end, end, fuel, k + 1, m);
      }
      k := k + 1 + m;
  }

  lemma {:induction false} FxPointerSim(c: Image, e: Expr, n: nat, s: State, fuel: nat) returns (k: nat)
    requires e.FxPointer? && Linked(c) && CodeAt(c.code, s.pc, [NewFx(e.fn)] + CompCaptures(e.args, n).code)
    ensures Sim(c, s, s.top.temps, EvalFxPointer(c.u, e, WorldOf(s), fuel), s.pc + 1 + |CompCaptures(e.args, n).code|,
      fuel, k)
    decreases fuel, e, 0
  {
    hide EvalArgs, CompCaptures, FunctionAt, Exec, Run, After, CodeAt, UniqueMarks;
    var base, code := s.top.temps, CompCaptures(e.args, n).code;
    var end := s.pc + 1 + |code|;
    Split(c.code, s.pc, [NewFx(e.fn)], code);
    k := 0;
    match FindFn(c.u.env.fns, e.fn)
    case None =>
    case Some(f) =>
      if f >= |c.u.env.fns| { return; }
      NewFxStep(c, s.pc, [NewFx(e.fn)], 0, s, f);
      var t := Go(s, s.pc + 1, base + [Fn(f, [])]);
      k := CapturesSim(c, e.args, n, t, base, f, [], fuel);
      var ra := EvalArgs(c.u, e.args, WorldOf(s), fuel);
      assert forall q: seq<Value> :: [] + q == q;
      Chain(c, s, t, base, Closure(ra, f, []), end, fuel, 1, k);
      k := 1 + k;
  }

  /** A function value that captured these values. */
  function Closure(r: Res, f: nat, got: seq<Value>): Res {
    if r.out.Done? then Value1(Fn(f, got + r.out.vs), r.w) else r
  }

  lemma {:induction false} CapturesSim(
    c: Image, es: Exprs, n: nat, s: State, base: seq<Value>, f: nat, got: seq<Value>, fuel: nat) returns (k: nat)
    requires Linked(c) && CodeAt(c.code, s.pc, CompCaptures(es, n).code) && s.top.temps == base + [Fn(f, got)]
    ensures Sim(c, s, base, Closure(EvalArgs(c.u, es, WorldOf(s), fuel), f, got), s.pc + |CompCaptures(es, n).code|,
      fuel, k)
    decreases fuel, es, 0
  {
    hide EvalExpr, CompExpr, FunctionAt, Exec, Run, After, CodeAt, UniqueMarks;
    match es
    case ENil =>
      k := 0;
      assert got + [] == got;
      Standstill(c, s, base, Closure(Unit(WorldOf(s)), f, got), fuel);
    case ECons(e, tail) =>
      var ce := CompExpr(e, n);
      var ct := CompCaptures(tail, ce.next);
      var end := s.pc + |CompCaptures(es, n).code|;
      Split(c.code, s.pc, ce.code, [Capture] + ct.code);
      Split(c.code, s.pc + |ce.code|, [Capture], ct.code);
      Start(c, s);
      var t;
      k, t := OperandSim(c, s, 0, e, n, s, base, end, fuel);
      var re := One(EvalExpr(c.u, e, WorldOf(s), fuel));
      if !re.out.Done? { return; }
      var v := re.out.vs[0];
      assert t.top.temps == base + [Fn(f, got), v];
      CaptureStep(c, t.pc, [Capture], 0, t, base, f, got, v);
      var t2 := Go(t, t.pc + 1, base + [Fn(f, got + [v])]);
      Then(c, s, k, t, 1, t2);
      var m := CapturesSim(c, tail, ce.next, t2, base, f, got + [v], fuel);
      var rt := EvalArgs(c.u, tail, re.w, fuel);
      if rt.out.Done? {
        assert got + [v] + rt.out.vs == got + (re.out.vs + rt.out.vs);
      }
      Chain(c, s, t2, base, Closure(rt, f, got + [v]), end, fuel, k + 1, m);
      k := k + 1 + m;
  }

  /** A return to the end label leaves the pending iterators below the value. */
  lemma {:induction false} IifeSim(c: Image, e: Expr, n: nat, s: State, fuel: nat) returns (k: nat)
    requires e.Iife? && Linked(c) && CodeAt(c.code, s.pc, CompStmt(e.body, n).code + [Simply(Nvll), Mark(e.end)])
    ensures Sim(c, s, s.top.temps, EvalIife(c.u, e, WorldOf(s), fuel), s.pc + |CompStmt(e.body, n).code| + 2, fuel, k)
    decreases fuel, e, 0
  {
    hide EvalStmt, CompStmt, FunctionAt, Exec, Run, CodeAt;
    var base, code := s.top.temps, CompStmt(e.body, n).code;
    var last: seq<Asm> := [Simply(Nvll), Mark(e.end)];
    var here := s.pc + |code|;
    Split(c.code, s.pc, code, last);
    k := StmtSim(c, e.body, n, s, fuel);
    var r := EvalStmt(c.u, e.body, WorldOf(s), fuel);
    match r.out
    case Done(vs) =>
      if vs == [] {
        var t := Put(s, r.w, here, base + []);
        PushNull(c, here, last, 0, t);
        assert base + [] + [Null] == base + [Null];
        var t2 := Go(t, here + 1, base + [Null]);
        MarkStep(c, here, last, 1, t2);
        Then(c, s, k, t, 1, t2);
        Then(c, s, k + 1, t2, 1, t2.(pc := here + 2));
        k := k + 2;
      }
    case Left(l, v, pending) =>
      if l == e.end {
        FindAt(c, here, last, 1);
        var t := Put(s, r.w, here + 1, base + pending + [v]);
        MarkStep(c, here, last, 1, t);
        Then(c, s, k, t, 1, t.(pc := here + 2));
        k := k + 1;
        assert base + pending + [v] == base + (pending + [v]);
      }
    case _ =>
  }

  lemma {:induction false} BindSim(
    c: Image, b: Binding, n: nat, s: State, base: seq<Value>, v: Value, fuel: nat) returns (k: nat)
    requires Linked(c) && CodeAt(c.code, s.pc, CompBind(b, n).code) && s.top.temps == base + [v]
    ensures Sim(c, s, base, EvalBind(c.u, b, v, WorldOf(s), fuel), s.pc + |CompBind(b, n).code|, fuel, k)
    decreases fuel, b, 2
  {
    hide EvalGroup, CompBinds, CompArgs, FunctionAt, Exec, Run, After, CodeAt, UniqueMarks;
    k := 1;
    var w := WorldOf(s);
    match b
    case NewVar(a) => if a < |s.top.locals| { StoreSim(c, a, s, base, v, fuel); }
    case Local(a) => if a < |s.top.locals| { StoreSim(c, a, s, base, v, fuel); }
    case Global(a) =>
      if a < |s.globals| {
        GlobalWriteStep(c, s.pc, [GlobalWrite(a)], 0, s, base, v);
        assert base + [] == base;
        Finish(c, s, base, Unit(w.(globals := s.globals[a := v])), s.pc + 1, fuel, 1);
      }
    case Discard =>
      ScrapStep(c, s.pc, [Scrap], 0, s, base, v);
      assert base + [] == base;
      Finish(c, s, base, Unit(w), s.pc + 1, fuel, 1);
    case Group(_) => k := GroupSim(c, b, n, s, base, v, fuel);
    case Place(place, es) => k := ArgsThenPrim(c, es, n, PlaceOp(place), s, base, [v], fuel);
  }

  lemma StoreSim(c: Image, a: nat, s: State, base: seq<Value>, v: Value, fuel: nat)
    requires CodeAt(c.code, s.pc, [StoreX(a)]) && a < |s.top.locals| && s.top.temps == base + [v]
    ensures Sim(c, s, base, Unit(WorldOf(s).(locals := s.top.locals[a := v])), s.pc + 1, fuel, 1)
  {
    hide Exec, Run, After, CodeAt;
    StoreStep(c, s.pc, [StoreX(a)], 0, s, base, v);
    assert base + [] == base;
    Finish(c, s, base, Unit(WorldOf(s).(locals := s.top.locals[a := v])), s.pc + 1, fuel, 1);
  }

  lemma {:induction false} GroupSim(
    c: Image, b: Binding, n: nat, s: State, base: seq<Value>, v: Value, fuel: nat) returns (k: nat)
    requires b.Group? && Linked(c) && s.top.temps == base + [v]
    requires CodeAt(c.code, s.pc, [Unpack(CountBindings(b.subs) % 256)] + CompBinds(b.subs, n).code)
    ensures Sim(c, s, base, EvalGroup(c.u, b, v, WorldOf(s), fuel), s.pc + 1 + |CompBinds(b.subs, n).code|, fuel, k)
    decreases fuel, b, 0
  {
    hide EvalBinds, CompBinds, FunctionAt, Exec, Run, CodeAt, UniqueMarks;
    var size := CountBindings(b.subs);
    var unpack: seq<Asm> := [Unpack(size % 256)];
    Split(c.code, s.pc, unpack, CompBinds(b.subs, n).code);
    k := 1;
    if size >= 256 { return; }
    UnpackStep(c, s.pc, unpack, 0, s, base, v);
    match c.u.env.ops.elements(v, s.heap)
    case None =>
    case Some(vs) =>
      if |vs| >= size {
        var t := Go(s, s.pc + 1, base + Reverse(vs[..size]));
        var m := BindsSim(c, b.subs, n, t, base, vs[..size], fuel);
        Chain(c, s, t, base, EvalBinds(c.u, b.subs, vs[..size], WorldOf(s), fuel),
          s.pc + 1 + |CompBinds(b.subs, n).code|, fuel, 1, m);
        k := 1 + m;
      }
  }

  /** Each binding takes its value off the top, the first one the first element. */
  lemma {:induction false} BindsSim(
    c: Image, bs: Bindings, n: nat, s: State, base: seq<Value>, vs: seq<Value>, fuel: nat) returns (k: nat)
    requires Linked(c) && CodeAt(c.code, s.pc, CompBinds(bs, n).code)
    requires |vs| == CountBindings(bs) && s.top.temps == base + Reverse(vs)
    ensures Sim(c, s, base, EvalBinds(c.u, bs, vs, WorldOf(s), fuel), s.pc + |CompBinds(bs, n).code|, fuel, k)
    decreases fuel, bs, 0
  {
    hide EvalBind, CompBind, FunctionAt, Exec, Run, After, CodeAt, UniqueMarks;
    match bs
    case BNil =>
      k := 0;
      assert s.top.temps == base && base + [] == base;
      Standstill(c, s, base, Unit(WorldOf(s)), fuel);
    case BCons(b, tail) =>
      var cb := CompBind(b, n);
      var ct := CompBinds(tail, cb.next);
      var end := s.pc + |CompBinds(bs, n).code|;
      Split(c.code, s.pc, cb.code, ct.code);
      var lower := base + Reverse(vs[1..]);
      assert s.top.temps == lower + [vs[0]];
      k := BindSim(c, b, n, s, lower, vs[0], fuel);
      var r := EvalBind(c.u, b, vs[0], WorldOf(s), fuel);
      if !r.out.Done? {
        Leave(c, s, lower, base, r, s.pc + |cb.code|, end, fuel, k);
      } else if r.out.vs == [] {
        Reached(c, s, lower, r, s.pc + |cb.code|, fuel, k);
        var t := Put(s, r.w, s.pc + |cb.code|, lower + []);
        assert lower + [] == lower;
        var m := BindsSim(c, tail, cb.next, t, base, vs[1..], fuel);
        Chain(c, s, t, base, EvalBinds(c.u, tail, vs[1..], r.w, fuel), end, fuel, k, m);
        k := k + m;
      }
  }

  lemma {:induction false} StmtSim(c: Image, x: Stmt, n: nat, s: State, fuel: nat) returns (k: nat)
    requires Linked(c) && CodeAt(c.code, s.pc, CompStmt(x, n).code)
    ensures Sim(c, s, s.top.temps, EvalStmt(c.u, x, WorldOf(s), fuel), s.pc + |CompStmt(x, n).code|, fuel, k)
    decreases fuel, x, 4
  {
    hide FunctionAt, Exec, Run, After, CodeAt, EvalExpr, EvalIf, EvalWhile, EvalInfinite, EvalForEach, EvalCascade,
      EvalAssign, EvalArms, EvalStmts, CompExpr, CompIf, CompWhile, CompForEach, CompCascade, CompArms, SwitchCode,
      CompBind, CompStmts;
    match x
    case NoOp =>
      k := 0;
      assert s.top.temps + [] == s.top.temps;
      Standstill(c, s, s.top.temps, Unit(WorldOf(s)), fuel);
    case Block(ss) => k := StmtsSim(c, ss, n, s, fuel);
    case IfStmt(_, _, _) => k := IfSim(c, x, n, s, fuel);
    case While(_, _) => k := WhileSim(c, x, n, s, fuel);
    case InfiniteLoop(_) => k := InfiniteSim(c, x, n, s, fuel);
    case ForEach(_, _, _) => k := ForEachSim(c, x, n, s, fuel);
    case SwitchStmt(_, _) => k := SwitchStmtSim(c, x, n, s, fuel);
    case ConditionalStmt(cs) => k := CascadeSim(c, cs, n, 0, n + 1, s, fuel);
    case Assign(_, _) => k := AssignSim(c, x, n, s, fuel);
    case ReturnStmt(_, _) => k := ReturnSim(c, x, n, s, fuel);
    case ThrowStmt(_) => k := ThrowSim(c, x, n, s, fuel);
    case YieldStmt(_) => k := 0;
    case CoReturnStmt(_) => k := 0;
  }

  /** A part that must leave the stack as it found it. */
  lemma {:induction false} NeutralSim(
    c: Image, s0: State, k0: nat, x: Stmt, n: nat, s: State, base: seq<Value>, end: nat, fuel: nat)
    returns (k: nat, t: State)
    requires Linked(c) && CodeAt(c.code, s.pc, CompStmt(x, n).code) && Moves(c, s0, k0, s) && SameFrame(s0, s)
        && s.top.temps == base
    ensures var r := Neutral(EvalStmt(c.u, x, WorldOf(s), fuel));
      if r.out.Done? then
        t == Put(s, r.w, s.pc + |CompStmt(x, n).code|, base) && Moves(c, s0, k, t) && SameFrame(s0, t)
      else Sim(c, s0, base, r, end, fuel, k)
    decreases fuel, x, 5
  {
    hide EvalStmt, CompStmt, FunctionAt, Exec, Run, After, CodeAt, UniqueMarks;
    var m := StmtSim(c, x, n, s, fuel);
    var r := EvalStmt(c.u, x, WorldOf(s), fuel);
    var here := s.pc + |CompStmt(x, n).code|;
    k, t := k0 + m, Put(s, r.w, here, base);
    if r.out.Done? {
      if r.out.vs == [] {
        assert base + [] == base;
        Reached(c, s, base, r, here, fuel, m);
        Then(c, s0, k0, s, m, t);
      }
    } else {
      Abort(c, s0, s, base, base, r, here, end, fuel, k0, m);
    }
  }

  lemma {:induction false} StmtsSim(c: Image, ss: Stmts, n: nat, s: State, fuel: nat) returns (k: nat)
    requires Linked(c) && CodeAt(c.code, s.pc, CompStmts(ss, n).code)
    ensures Sim(c, s, s.top.temps, EvalStmts(c.u, ss, WorldOf(s), fuel), s.pc + |CompStmts(ss, n).code|, fuel, k)
    decreases fuel, ss, 0
  {
    hide EvalStmt, CompStmt, FunctionAt, Exec, Run, After, CodeAt, UniqueMarks;
    var base := s.top.temps;
    Start(c, s);
    match ss
    case SNil =>
      k := 0;
      assert base + [] == base;
      Standstill(c, s, base, Unit(WorldOf(s)), fuel);
    case SCons(x, tail) =>
      var cx := CompStmt(x, n);
      var ct := CompStmts(tail, cx.next);
      var end := s.pc + |CompStmts(ss, n).code|;
      Split(c.code, s.pc, cx.code, ct.code);
      var t;
      k, t := NeutralSim(c, s, 0, x, n, s, base, end, fuel);
      var r := Neutral(EvalStmt(c.u, x, WorldOf(s), fuel));
      if r.out.Done? {
        var m := StmtsSim(c, tail, cx.next, t, fuel);
        Chain(c, s, t, base, EvalStmts(c.u, tail, r.w, fuel), end, fuel, k, m);
        k := k + m;
      }
  }

  lemma ThenLayout(c: Image, pc: nat, kind: string, id: nat, cc: seq<Asm>, ct: seq<Asm>)
    requires CodeAt(c.code, pc, ThenCode(kind, id, cc, ct))
    ensures |ThenCode(kind, id, cc, ct)| == |cc| + |ct| + 2
    ensures CodeAt(c.code, pc, cc) && CodeAt(c.code, pc + |cc|, [IfElse(Jmp(kind, id, Else))])
    ensures CodeAt(c.code, pc + |cc| + 1, ct) && CodeAt(c.code, pc + |cc| + 1 + |ct|, [Mark(Jmp(kind, id, Else))])
  {
    hide CodeAt;
    var branch: seq<Asm> := [IfElse(Jmp(kind, id, Else))];
    var last: seq<Asm> := [Mark(Jmp(kind, id, Else))];
    Split(c.code, pc, cc, branch + (ct + last));
    Split(c.code, pc + |cc|, branch, ct + last);
    Split(c.code, pc + |cc| + 1, ct, last);
  }

  lemma {:induction false} IfSim(c: Image, x: Stmt, n: nat, s: State, fuel: nat) returns (k: nat)
    requires x.IfStmt? && Linked(c) && CodeAt(c.code, s.pc, CompIf(x, n).code)
    ensures Sim(c, s, s.top.temps, EvalIf(c.u, x, WorldOf(s), fuel), s.pc + |CompIf(x, n).code|, fuel, k)
    decreases fuel, x, 1
  {
    if x.els.Some? && !x.els.value.NoOp? {
      k := IfElseSim(c, x, n, s, fuel);
    } else {
      k := IfOnlySim(c, x, n, s, fuel);
    }
  }

  lemma {:induction false} IfElseSim(c: Image, x: Stmt, n: nat, s: State, fuel: nat) returns (k: nat)
    requires x.IfStmt? && x.els.Some? && !x.els.value.NoOp? && Linked(c) && CodeAt(c.code, s.pc, CompIf(x, n).code)
    ensures Sim(c, s, s.top.temps, EvalIf(c.u, x, WorldOf(s), fuel), s.pc + |CompIf(x, n).code|, fuel, k)
    decreases fuel, x, 0
  {
    hide EvalExpr, CompExpr, EvalStmt, CompStmt, FunctionAt, Exec, Run, After, CodeAt, UniqueMarks, ElseCode;
    var cc := CompExpr(x.cond, n);
    var ct := CompStmt(x.thn, cc.next);
    var id := ct.next;
    var ce := CompStmt(x.els.value, id + 1);
    ElseLayout(c, s.pc, "IF", id, cc.code, ct.code, ce.code);
    var base, end := s.top.temps, s.pc + |CompIf(x, n).code|;
    Start(c, s);
    var t;
    k, t := OperandSim(c, s, 0, x.cond, n, s, base, end, fuel);
    var rc := One(EvalExpr(c.u, x.cond, WorldOf(s), fuel));
    if !rc.out.Done? { return; }
    var v := rc.out.vs[0];
    var m := SelectArm(c, t, base, v, "IF", id, ct.code);
    var t2 := Go(t, if Truthy(v) then t.pc + 1 else t.pc + |ct.code| + 3, base);
    Then(c, s, k, t, m, t2);
    k := k + m;
    var arm, an, j := if Truthy(v) then x.thn else x.els.value, if Truthy(v) then cc.next else id + 1, 0;
    j := StmtSim(c, arm, an, t2, fuel);
    var r := EvalStmt(c.u, arm, rc.w, fuel);
    var here := t2.pc + |CompStmt(arm, an).code|;
    if r.out.Done? {
      var y := Put(t2, r.w, here, base + r.out.vs);
      if Truthy(v) {
        JumpTo(c, here, ElseMiddle("IF", id), y, end - 1, [Mark(Jmp("IF", id, End))], 0);
      } else {
        MarkStep(c, here, [Mark(Jmp("IF", id, End))], 0, y);
      }
    }
    k := Join(c, s, k, t2, base, r, here, end, fuel, j, if Truthy(v) then 2 else 1);
  }

  lemma {:induction false} IfOnlySim(c: Image, x: Stmt, n: nat, s: State, fuel: nat) returns (k: nat)
    requires x.IfStmt? && (x.els.None? || x.els.value.NoOp?) && Linked(c) && CodeAt(c.code, s.pc, CompIf(x, n).code)
    ensures Sim(c, s, s.top.temps, EvalIf(c.u, x, WorldOf(s), fuel), s.pc + |CompIf(x, n).code|, fuel, k)
    decreases fuel, x, 0
  {
    hide EvalExpr, CompExpr, CompStmt, FunctionAt, Exec, Run, After, CodeAt, UniqueMarks, ThenCode;
    var cc := CompExpr(x.cond, n);
    var ct := CompStmt(x.thn, cc.next);
    var id := ct.next;
    var last: seq<Asm> := [Mark(Jmp("IF", id, Else))];
    ThenLayout(c, s.pc, "IF", id, cc.code, ct.code);
    var base, end := s.top.temps, s.pc + |CompIf(x, n).code|;
    Start(c, s);
    var t;
    k, t := OperandSim(c, s, 0, x.cond, n, s, base, end, fuel);
    var rc := One(EvalExpr(c.u, x.cond, WorldOf(s), fuel));
    if !rc.out.Done? { return; }
    var v := rc.out.vs[0];
    BranchStep(c, t.pc, [IfElse(Jmp("IF", id, Else))], 0, t, base, v, end - 1, last, 0);
    var t2 := Go(t, if Truthy(v) then t.pc + 1 else end - 1, base);
    Then(c, s, k, t, 1, t2);
    k := k + 1;
    if Truthy(v) {
      var j := StmtSim(c, x.thn, cc.next, t2, fuel);
      var r := EvalStmt(c.u, x.thn, rc.w, fuel);
      if r.out.Done? {
        MarkStep(c, end - 1, last, 0, Put(t2, r.w, end - 1, base + r.out.vs));
      }
      k := Join(c, s, k, t2, base, r, end - 1, end, fuel, j, 1);
    } else {
      MarkStep(c, end - 1, last, 0, t2);
      Then(c, s, k, t2, 1, t2.(pc := end));
      k := k + 1;
      assert base + [] == base;
      assert EvalIf(c.u, x, WorldOf(s), fuel) == Unit(rc.w);
      Finish(c, s, base, Unit(rc.w), end, fuel, k);
    }
  }

  lemma LoopLayout(c: Image, pc: nat, id: nat, cc: seq<Asm>, cb: seq<Asm>)
    requires CodeAt(c.code, pc, LoopCode(id, cc, cb))
    ensures |LoopCode(id, cc, cb)| == |cc| + |cb| + 4
    ensures CodeAt(c.code, pc, [Mark(Jmp("WHILE", id, Begin))]) && CodeAt(c.code, pc + 1, cc)
    ensures CodeAt(c.code, pc + 1 + |cc|, [IfElse(Jmp("WHILE", id, End))]) && CodeAt(c.code, pc + 2 + |cc|, cb)
    ensures CodeAt(c.code, pc + 2 + |cc| + |cb|, [Goto(Jmp("WHILE", id, Begin)), Mark(Jmp("WHILE", id, End))])
  {
    hide CodeAt;
    var here: seq<Asm> := [Mark(Jmp("WHILE", id, Begin))];
    var branch: seq<Asm> := [IfElse(Jmp("WHILE", id, End))];
    var last: seq<Asm> := [Goto(Jmp("WHILE", id, Begin)), Mark(Jmp("WHILE", id, End))];
    Split(c.code, pc, here, cc + (branch + (cb + last)));
    Split(c.code, pc + 1, cc, branch + (cb + last));
    Split(c.code, pc + 1 + |cc|, branch, cb + last);
    Split(c.code, pc + 2 + |cc|, cb, last);
  }

  lemma {:induction false} WhileSim(c: Image, x: Stmt, n: nat, s: State, fuel: nat) returns (k: nat)
    requires x.While? && Linked(c) && CodeAt(c.code, s.pc, CompWhile(x, n).code)
    ensures Sim(c, s, s.top.temps, EvalWhile(c.u, x, WorldOf(s), fuel), s.pc + |CompWhile(x, n).code|, fuel, k)
    decreases fuel, x, 1
  {
    hide EvalExpr, CompExpr, EvalStmt, CompStmt, FunctionAt, Exec, Run, After, CodeAt, UniqueMarks, LoopCode;
    var cc := CompExpr(x.cond, n);
    var cb := CompStmt(x.body, cc.next);
    var id := cb.next;
    LoopLayout(c, s.pc, id, cc.code, cb.code);
    var mark: seq<Asm> := [Mark(Jmp("WHILE", id, Begin))];
    var branch: seq<Asm> := [IfElse(Jmp("WHILE", id, End))];
    var last: seq<Asm> := [Goto(Jmp("WHILE", id, Begin)), Mark(Jmp("WHILE", id, End))];
    var base, end := s.top.temps, s.pc + |CompWhile(x, n).code|;
    MarkStep(c, s.pc, mark, 0, s);
    var t := s.(pc := s.pc + 1);
    var t2;
    k, t2 := OperandSim(c, s, 1, x.cond, n, t, base, end, fuel);
    var rc := One(EvalExpr(c.u, x.cond, WorldOf(s), fuel));
    if !rc.out.Done? { return; }
    var v := rc.out.vs[0];
    BranchStep(c, t2.pc, branch, 0, t2, base, v, end - 2, last, 1);
    var t3 := Go(t2, if Truthy(v) then t2.pc + 1 else end - 1, base);
    Then(c, s, k, t2, 1, t3);
    k := k + 1;
    if !Truthy(v) {
      MarkStep(c, end - 2, last, 1, t3);
      Then(c, s, k, t3, 1, t3.(pc := end));
      k := k + 1;
      assert base + [] == base;
      Finish(c, s, base, Unit(rc.w), end, fuel, k);
      return;
    }
    var t4;
    k, t4 := NeutralSim(c, s, k, x.body, cc.next, t3, base, end, fuel);
    var rb := Neutral(EvalStmt(c.u, x.body, rc.w, fuel));
    if !rb.out.Done? { return; }
    GotoStep(c, end - 2, last, 0, t4, s.pc, mark, 0);
    var t5 := t4.(pc := s.pc);
    Then(c, s, k, t4, 1, t5);
    CompWhileIs(x, n);
    k := LoopAgain(c, x, n, s, k + 1, t5, base, rb.w, WorldOf(s), end, fuel);
  }

  lemma CompWhileIs(x: Stmt, n: nat)
    requires x.While?
    ensures CompStmt(x, n) == CompWhile(x, n)
  {
  }

  /** The next round of a loop, on less fuel. */
  lemma {:induction false} LoopAgain(
    c: Image, x: Stmt, n: nat, s: State, k0: nat, t: State, base: seq<Value>, w: World, o: World, end: nat, fuel: nat)
    returns (k: nat)
    requires Linked(c) && CodeAt(c.code, t.pc, CompStmt(x, n).code) && end == t.pc + |CompStmt(x, n).code|
    requires Moves(c, s, k0, t) && SameFrame(s, t) && t.top.temps == base && WorldOf(t) == w && k0 > 0
    ensures Sim(c, s, base, if fuel == 0 then Res(OutOfFuel, o) else EvalStmt(c.u, x, w, fuel - 1), end, fuel, k)
    decreases fuel, x, 0
  {
    hide EvalStmt, CompStmt, FunctionAt, Exec, Run, After, CodeAt, UniqueMarks;
    k := k0;
    if fuel > 0 {
      var r := EvalStmt(c.u, x, w, fuel - 1);
      var m := StmtSim(c, x, n, t, fuel - 1);
      Chain(c, s, t, base, r, end, fuel - 1, k0, m);
      k := k0 + m;
      MoreFuel(c, s, base, r, end, fuel - 1, m, k);
    }
  }

  lemma {:induction false} InfiniteSim(c: Image, x: Stmt, n: nat, s: State, fuel: nat) returns (k: nat)
    requires x.InfiniteLoop? && Linked(c) && CodeAt(c.code, s.pc, CompStmt(x, n).code)
    ensures Sim(c, s, s.top.temps, EvalInfinite(c.u, x, WorldOf(s), fuel), s.pc + |CompStmt(x, n).code|, fuel, k)
    decreases fuel, x, 1
  {
    hide EvalStmt, FunctionAt, Exec, Run, After, CodeAt, UniqueMarks;
    var cb := CompStmt(x.body, n);
    var mark: seq<Asm> := [Mark(Jmp("INFINETE_LOOP", cb.next, Whole))];
    var last: seq<Asm> := [Goto(Jmp("INFINETE_LOOP", cb.next, Whole))];
    var whole := CompStmt(x, n).code;
    assert whole == mark + (cb.code + last);
    hide CompStmt;
    Split(c.code, s.pc, mark, cb.code + last);
    Split(c.code, s.pc + 1, cb.code, last);
    var base, end := s.top.temps, s.pc + |whole|;
    MarkStep(c, s.pc, mark, 0, s);
    var t := s.(pc := s.pc + 1);
    var t2;
    k, t2 := NeutralSim(c, s, 1, x.body, n, t, base, end, fuel);
    var rb := Neutral(EvalStmt(c.u, x.body, WorldOf(s), fuel));
    if !rb.out.Done? { return; }
    GotoStep(c, end - 1, last, 0, t2, s.pc, mark, 0);
    var t3 := t2.(pc := s.pc);
    Then(c, s, k, t2, 1, t3);
    k := LoopAgain(c, x, n, s, k + 1, t3, base, rb.w, WorldOf(s), end, fuel);
  }

  lemma ForEachLayout(c: Image, pc: nat, id: nat, e: seq<Asm>, bind: seq<Asm>, b: seq<Asm>)
    requires CodeAt(c.code, pc, ForEachCode(id, e, bind, b))
    ensures |ForEachCode(id, e, bind, b)| == |e| + |bind| + |b| + 7
    ensures CodeAt(c.code, pc, e) && CodeAt(c.code, pc + |e|, ForHead(id)) && CodeAt(c.code, pc + |e| + 3, bind)
    ensures CodeAt(c.code, pc + |e| + 3 + |bind|, b) && CodeAt(c.code, pc + |e| + 3 + |bind| + |b|, ForTail(id))
  {
    hide CodeAt;
    Split(c.code, pc, e, ForHead(id) + (bind + (b + ForTail(id))));
    Split(c.code, pc + |e|, ForHead(id), bind + (b + ForTail(id)));
    Split(c.code, pc + |e| + 3, bind, b + ForTail(id));
    Split(c.code, pc + |e| + 3 + |bind|, b, ForTail(id));
  }

  function ForHead(id: nat): seq<Asm> {
    [Simply(Iter), Mark(Jmp("FOREACH_BODY", id + 1, Whole)), ForNext(Jmp("FOREACH_END", id, Whole))]
  }

  function ForTail(id: nat): seq<Asm> {
    [Goto(Jmp("FOREACH_BODY", id + 1, Whole)), Mark(Jmp("FOREACH_END", id, Whole)), Scrap, Scrap]
  }

  lemma {:induction false} ForEachSim(c: Image, x: Stmt, n: nat, s: State, fuel: nat) returns (k: nat)
    requires x.ForEach? && Linked(c) && CodeAt(c.code, s.pc, CompForEach(x, n).code)
    ensures Sim(c, s, s.top.temps, EvalForEach(c.u, x, WorldOf(s), fuel), s.pc + |CompForEach(x, n).code|, fuel, k)
    decreases fuel, x, 0
  {
    hide EvalExpr, CompExpr, CompBind, CompStmt, EvalRounds, FunctionAt, Exec, Run, After, CodeAt, UniqueMarks,
      ForEachCode, PrimOut;
    var ce := CompExpr(x.e, n + 2);
    var ci := CompBind(x.bind, ce.next);
    var cb := CompStmt(x.body, ci.next);
    ForEachLayout(c, s.pc, n, ce.code, ci.code, cb.code);
    var base, end := s.top.temps, s.pc + |CompForEach(x, n).code|;
    Start(c, s);
    var t;
    k, t := OperandSim(c, s, 0, x.e, n + 2, s, base, end, fuel);
    var re := One(EvalExpr(c.u, x.e, WorldOf(s), fuel));
    if !re.out.Done? { return; }
    PrimStep(c, t.pc, ForHead(n), 0, t, base, re.out.vs, fuel);
    var ri := PrimOut(c.u, Simple(Iter), re.out.vs, re.w);
    if !ri.out.Done? {
      Abort(c, s, t, base, base, ri, t.pc + 1, end, fuel, k, 1);
      k := k + 1;
      return;
    }
    Reached(c, t, base, ri, t.pc + 1, fuel, 1);
    var it := ri.out.vs[0];
    assert ri.out.vs == [it];
    var t2 := Put(t, ri.w, t.pc + 1, base + [it]);
    Then(c, s, k, t, 1, t2);
    MarkStep(c, t.pc, ForHead(n), 1, t2);
    Then(c, s, k + 1, t2, 1, t2.(pc := t.pc + 2));
    k := k + 2;
    if fuel > 0 {
      var m := RoundsSim(c, x, n, t2.(pc := t.pc + 2), base, it, end, fuel - 1);
      var r := EvalRounds(c.u, it, x.bind, x.body, ri.w, fuel - 1);
      Chain(c, s, t2.(pc := t.pc + 2), base, r, end, fuel - 1, k, m);
      k := k + m;
      MoreFuel(c, s, base, r, end, fuel - 1, m, k);
    }
  }

  /** The positions of the parts of a for-each that ends at end. */
  ghost predicate ForParts(c: Image, x: Stmt, n: nat, top: nat, end: nat)
    requires x.ForEach?
  {
    var ce := CompExpr(x.e, n + 2);
    var ci := CompBind(x.bind, ce.next);
    var cb := CompStmt(x.body, ci.next);
    && top >= 2 && end == top + 1 + |ci.code| + |cb.code| + 4
    && CodeAt(c.code, top - 2, ForHead(n)) && CodeAt(c.code, top + 1, ci.code)
    && CodeAt(c.code, top + 1 + |ci.code|, cb.code) && CodeAt(c.code, end - 4, ForTail(n))
  }

  /** The rounds of a for-each, the iterator on the stack. */
  lemma {:induction false} RoundsSim(
    c: Image, x: Stmt, n: nat, s: State, base: seq<Value>, it: Value, end: nat, fuel: nat) returns (k: nat)
    requires x.ForEach? && Linked(c) && ForParts(c, x, n, s.pc, end) && s.top.temps == base + [it]
    ensures Sim(c, s, base, EvalRounds(c.u, it, x.bind, x.body, WorldOf(s), fuel), end, fuel, k)
    decreases fuel
  {
    hide CompExpr, CompBind, CompStmt, EvalStmt, EvalBind, FunctionAt, Exec, Run, CodeAt, UniqueMarks;
    var ci := CompBind(x.bind, CompExpr(x.e, n + 2).next);
    var top := s.pc;
    ForNextStep(c, top - 2, ForHead(n), 2, s, base, it, end - 4, ForTail(n), 1);
    k := 1;
    match c.u.env.ops.next(it, s.heap)
    case Err(_, _) =>
    case Ok(v, h) =>
      var w := WorldOf(s).(heap := h);
      if v.Stop? {
        var t := Put(s, w, end - 3, base + [it, v]);
        k := RoundsEnd(c, n, t, base, it, v, end);
        Then(c, s, 1, t, k, Go(t, end, base));
        k := 1 + k;
        assert base + [] == base;
        Finish(c, s, base, Unit(w), end, fuel, k);
        return;
      }
      var t := Put(s, w, top + 1, base + [it] + [v]);
      assert base + [it, v] == base + [it] + [v];
      var m := BindSim(c, x.bind, CompExpr(x.e, n + 2).next, t, base + [it], v, fuel);
      var rv := EvalBind(c.u, x.bind, v, w, fuel);
      var here := top + 1 + |ci.code|;
      if !rv.out.Done? {
        Abort(c, s, t, base + [it], base, rv, here, end, fuel, 1, m);
        k := 1 + m;
        return;
      }
      if rv.out.vs != [] { return; }
      Reached(c, t, base + [it], rv, here, fuel, m);
      assert base + [it] + [] == base + [it];
      var t2 := Put(t, rv.w, here, base + [it]);
      Then(c, s, 1, t, m, t2);
      k := RoundBody(c, x, n, s, 1 + m, top, t2, base, it, w, end, fuel);
  }

  /** The body of a round and the jump back for the next one. */
  lemma {:induction false} RoundBody(
    c: Image, x: Stmt, n: nat, s: State, k0: nat, top: nat, t: State, base: seq<Value>, it: Value,
    o: World, end: nat, fuel: nat) returns (k: nat)
    requires x.ForEach? && Linked(c) && ForParts(c, x, n, top, end)
    requires t.pc == top + 1 + |CompBind(x.bind, CompExpr(x.e, n + 2).next).code|
    requires Moves(c, s, k0, t) && SameFrame(s, t) && t.top.temps == base + [it]
    ensures var rb := Neutral(EvalStmt(c.u, x.body, WorldOf(t), fuel));
      Sim(c, s, base,
        if !rb.out.Done? then OverIterator(rb, it)
        else if fuel == 0 then Res(OutOfFuel, o)
        else EvalRounds(c.u, it, x.bind, x.body, rb.w, fuel - 1), end, fuel, k)
    decreases fuel, x, 9
  {
    hide CompExpr, CompBind, CompStmt, EvalStmt, EvalBind, EvalRounds, FunctionAt, Exec, Run, CodeAt, UniqueMarks;
    var ci := CompBind(x.bind, CompExpr(x.e, n + 2).next);
    var t2;
    k, t2 := NeutralSim(c, s, k0, x.body, ci.next, t, base + [it], end, fuel);
    var rb := Neutral(EvalStmt(c.u, x.body, WorldOf(t), fuel));
    if !rb.out.Done? {
      if rb.out.Left? {
        assert base + [it] + rb.out.pending == base + ([it] + rb.out.pending);
      } else {
        Leave(c, s, base + [it], base, rb, end, end, fuel, k);
      }
      return;
    }
    GotoStep(c, end - 4, ForTail(n), 0, t2, top - 2, ForHead(n), 1);
    var t3 := t2.(pc := top - 1);
    MarkStep(c, top - 2, ForHead(n), 1, t3);
    var t4 := t2.(pc := top);
    Then(c, s, k, t2, 1, t3);
    Then(c, s, k + 1, t3, 1, t4);
    k := k + 2;
    if fuel > 0 {
      var r := EvalRounds(c.u, it, x.bind, x.body, rb.w, fuel - 1);
      var m := RoundsSim(c, x, n, t4, base, it, end, fuel - 1);
      Chain(c, s, t4, base, r, end, fuel - 1, k, m);
      k := k + m;
      MoreFuel(c, s, base, r, end, fuel - 1, m, k);
    }
  }

  /** The end of a for-each drops the stop value and the iterator. */
  lemma RoundsEnd(c: Image, n: nat, s: State, base: seq<Value>, it: Value, v: Value, end: nat) returns (k: nat)
    requires end >= 4 && CodeAt(c.code, end - 4, ForTail(n)) && s.pc == end - 3 && s.top.temps == base + [it, v]
    ensures Moves(c, s, k, Go(s, end, base))
  {
    hide Exec, Run, CodeAt;
    var t := s.(pc := end - 2);
    MarkStep(c, end - 4, ForTail(n), 1, s);
    assert base + [it, v] == base + [it] + [v];
    ScrapStep(c, end - 4, ForTail(n), 2, t, base + [it], v);
    var t2 := Go(s, end - 1, base + [it]);
    ScrapStep(c, end - 4, ForTail(n), 3, t2, base, it);
    Then(c, s, 1, t, 1, t2);
    Then(c, s, 2, t2, 1, Go(s, end, base));
    k := 3;
  }

  lemma {:induction false} AssignSim(c: Image, x: Stmt, n: nat, s: State, fuel: nat) returns (k: nat)
    requires x.Assign? && Linked(c) && CodeAt(c.code, s.pc, CompStmt(x, n).code)
    ensures Sim(c, s, s.top.temps, EvalAssign(c.u, x, WorldOf(s), fuel), s.pc + |CompStmt(x, n).code|, fuel, k)
    decreases fuel, x, 0
  {
    hide EvalExpr, CompExpr, EvalBind, CompBind, FunctionAt, Exec, Run, After, CodeAt, UniqueMarks;
    var ce := CompExpr(x.e, n);
    var cb := CompBind(x.bind, ce.next);
    var base, end := s.top.temps, s.pc + |CompStmt(x, n).code|;
    Split(c.code, s.pc, ce.code, cb.code);
    Start(c, s);
    var t;
    k, t := OperandSim(c, s, 0, x.e, n, s, base, end, fuel);
    var re := One(EvalExpr(c.u, x.e, WorldOf(s), fuel));
    if !re.out.Done? { return; }
    assert re.out.vs == [re.out.vs[0]];
    var m := BindSim(c, x.bind, ce.next, t, base, re.out.vs[0], fuel);
    Chain(c, s, t, base, EvalBind(c.u, x.bind, re.out.vs[0], re.w, fuel), end, fuel, k, m);
    k := k + m;
  }

  lemma {:induction false} ReturnSim(c: Image, x: Stmt, n: nat, s: State, fuel: nat) returns (k: nat)
    requires x.ReturnStmt? && Linked(c) && CodeAt(c.code, s.pc, CompStmt(x, n).code)
    ensures Sim(c, s, s.top.temps, EvalStmt(c.u, x, WorldOf(s), fuel), s.pc + |CompStmt(x, n).code|, fuel, k)
    decreases fuel, x, 0
  {
    hide EvalExpr, CompExpr, FunctionAt, Run, CodeAt, UniqueMarks;
    var ce := CompExpr(x.e, n);
    var base, end := s.top.temps, s.pc + |CompStmt(x, n).code|;
    var last: seq<Asm> := [if x.target.Some? then Goto(x.target.value) else Return];
    Split(c.code, s.pc, ce.code, last);
    Start(c, s);
    var t;
    k, t := OperandSim(c, s, 0, x.e, n, s, base, end, fuel);
    var re := One(EvalExpr(c.u, x.e, WorldOf(s), fuel));
    if !re.out.Done? { return; }
    StepAt(c, t.pc, last, 0, t);
    RunAdd(Prog(c), s, k, 1);
    k := k + 1;
    assert base + [] + [re.out.vs[0]] == base + re.out.vs;
  }

  lemma {:induction false} ThrowSim(c: Image, x: Stmt, n: nat, s: State, fuel: nat) returns (k: nat)
    requires x.ThrowStmt? && Linked(c) && CodeAt(c.code, s.pc, CompStmt(x, n).code)
    ensures Sim(c, s, s.top.temps, EvalStmt(c.u, x, WorldOf(s), fuel), s.pc + |CompStmt(x, n).code|, fuel, k)
    decreases fuel, x, 0
  {
    hide EvalExpr, CompExpr, FunctionAt, Exec, Run, CodeAt, UniqueMarks;
    var ce := CompExpr(x.e, n);
    var base, end := s.top.temps, s.pc + |CompStmt(x, n).code|;
    Split(c.code, s.pc, ce.code, [Throw]);
    Start(c, s);
    var t;
    k, t := OperandSim(c, s, 0, x.e, n, s, base, end, fuel);
    var re := One(EvalExpr(c.u, x.e, WorldOf(s), fuel));
    if !re.out.Done? { return; }
    ThrowStep(c, t.pc, [Throw], 0, t, base, re.out.vs[0]);
    RunAdd(Prog(c), s, k, 1);
    k := k + 1;
    UnwindSame(c.u.env, t, Put(s, re.w, 0, []), re.out.vs[0]);
  }
}
