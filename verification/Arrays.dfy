/** Array literals the optimizer drops: it takes them for true without making them. */
module Arrays {
  import opened Values
  import opened Sst
  import opened BigStep
  import opened WellFormed
  import opened Optimize
  import opened Folding
  import opened Garbage

  /** Values, and nothing but new objects. */
  predicate OnlyAdds(r: Res, w: World, count: nat) {
    r.out.Done? && |r.out.vs| == count && r.w == w.(heap := r.w.heap) && Keeps(w.heap, r.w.heap)
  }

  lemma SequenceMade(u: Source, p: PrimOp, vs: seq<Value>, w: World)
    requires MakesSequences(u.env.ops) && (p == NewArr(|vs|) || p == NewTuple(|vs|))
    ensures OnlyAdds(PrimOut(u, p, vs, w), w, 1) && Truthy(PrimOut(u, p, vs, w).out.vs[0])
  {
    assert Makes(u.env.ops, p, vs, w.heap);
  }

  /** Evaluating a quiet expression leaves only garbage behind. */
  lemma {:induction false} QuietAdds(u: Source, sh: Shape, e: Expr, w: World, fuel: nat)
    requires MakesSequences(u.env.ops) && Quiet(e) && WfExpr(u, sh, e, |w.locals|) && |w.globals| == sh.globals
    ensures OnlyAdds(EvalExpr(u, e, w, fuel), w, 1)
    ensures IsArray(e) ==> Truthy(EvalExpr(u, e, w, fuel).out.vs[0])
    decreases e, 1
  {
    hide MakesSequences, PrimOut;
    if e.Strict? {
      QuietArgsAdd(u, sh, e.args, w, fuel);
      var ra := EvalArgs(u, e.args, w, fuel);
      SequenceMade(u, StrictOp(e.node, Count(e.args)), ra.out.vs, ra.w);
    }
  }

  lemma {:induction false} QuietArgsAdd(u: Source, sh: Shape, es: Exprs, w: World, fuel: nat)
    requires MakesSequences(u.env.ops) && QuietArgs(es) && WfExprs(u, sh, es, |w.locals|) && |w.globals| == sh.globals
    ensures OnlyAdds(EvalArgs(u, es, w, fuel), w, Count(es))
    decreases es, 0
  {
    hide MakesSequences, EvalExpr;
    if es.ECons? {
      QuietAdds(u, sh, es.head, w, fuel);
      QuietArgsAdd(u, sh, es.tail, EvalExpr(u, es.head, w, fuel).w, fuel);
    }
  }

  /** What the optimizer knows the value of, or at least that it is true. */
  predicate Settled(arrays: bool, x: Expr) {
    (x.Lit? && !x.lit.FloatLit? && !x.lit.TypeLit?) || (arrays && IsArray(x) && Quiet(x))
  }

  /** The value is that, and the state as before but for new objects; without arrays it is
      the same. */
  predicate Settles(arrays: bool, x: Expr, r: Res, w: World)
    requires Settled(arrays, x)
  {
    && OnlyAdds(r, w, 1) && (!arrays ==> r.w == w)
    && if x.Lit? then r.out.vs[0] == ValueOf(x.lit) else Truthy(r.out.vs[0])
  }

  lemma DecidedSettled(arrays: bool, ff: FloatFolds, x: Expr)
    requires FairTest(arrays, x) && Decided(ff, x).Some?
    ensures Settled(arrays, x)
    ensures Decided(ff, x).value == if x.Lit? then Truthy(ValueOf(x.lit)) else true
  {
  }

  /** The operand of an operator is settled: what is left of evaluation. */
  lemma UnaryAfter(u: Source, op: SimpleOp, e: Expr, w: World, fuel: nat)
    requires var r := EvalExpr(u, e, w, fuel); r.out.Done? && |r.out.vs| == 1
    ensures var r := EvalExpr(u, e, w, fuel);
      EvalExpr(u, Strict(Unary(op), ECons(e, ENil)), w, fuel) == PrimOut(u, Simple(op), r.out.vs, r.w)
  {
    hide EvalExpr;
    UnaryIs(u, op, e, w, fuel);
  }

  /** An expression the optimizer settles evaluates to what it settled on. */
  lemma {:induction false} SettledRight(
    arrays: bool, ff: FloatFolds, u: Source, sh: Shape, e: Expr, w: World, fuel: nat)
    requires FairExpr(arrays, ff, e) && Settled(arrays, OptExpr(ff, e)) && (arrays ==> MakesSequences(u.env.ops))
    requires WfExpr(u, sh, e, |w.locals|) && |w.globals| == sh.globals
    ensures Settles(arrays, OptExpr(ff, e), EvalExpr(u, e, w, fuel), w)
    decreases e, 1
  {
    hide MakesSequences, EvalExpr, FoldUnary, FoldOperands, FoldNullTest, Quiet;
    match e
    case Lit(l) => LiteralValue(u, l, w, fuel);
    case Strict(Unary(_), ECons(_, ENil)) => SettledUnary(arrays, ff, u, sh, e, w, fuel);
    case Strict(Binary(_), ECons(_, ECons(_, ENil))) => SettledBinary(arrays, ff, u, sh, e, w, fuel);
    case NullTest(_) => SettledNullTest(arrays, ff, u, sh, e, w, fuel);
    case Ternary(_, _, _) => SettledTernary(arrays, ff, u, sh, e, w, fuel);
    case Strict(ArrayLit, _) => QuietAdds(u, sh, e, w, fuel);
    case _ =>
  }

  lemma {:induction false} SettledUnary(
    arrays: bool, ff: FloatFolds, u: Source, sh: Shape, e: Expr, w: World, fuel: nat)
    requires e.Strict? && e.node.Unary? && e.args.ECons? && e.args.tail.ENil?
    requires FairExpr(arrays, ff, e) && Settled(arrays, OptExpr(ff, e)) && (arrays ==> MakesSequences(u.env.ops))
    requires WfExpr(u, sh, e, |w.locals|) && |w.globals| == sh.globals
    ensures Settles(arrays, OptExpr(ff, e), EvalExpr(u, e, w, fuel), w)
    decreases e, 0
  {
    hide MakesSequences, EvalExpr, Quiet;
    var op, e0 := e.node.op, e.args.head;
    var x := OptExpr(ff, e0);
    if op == Not { DecidedSettled(arrays, ff, x); }
    SettledRight(arrays, ff, u, sh, e0, w, fuel);
    UnaryAfter(u, op, e0, w, fuel);
  }

  lemma {:induction false} SettledBinary(
    arrays: bool, ff: FloatFolds, u: Source, sh: Shape, e: Expr, w: World, fuel: nat)
    requires e.Strict? && e.node.Binary? && e.args.ECons? && e.args.tail.ECons? && e.args.tail.tail.ENil?
    requires FairExpr(arrays, ff, e) && Settled(arrays, OptExpr(ff, e)) && (arrays ==> MakesSequences(u.env.ops))
    requires WfExpr(u, sh, e, |w.locals|) && |w.globals| == sh.globals
    ensures Settles(arrays, OptExpr(ff, e), EvalExpr(u, e, w, fuel), w)
    decreases e, 0
  {
    hide MakesSequences, EvalExpr, PrimOut, FoldBinary, FairOperands, Quiet;
    var op, l, r := e.node.op, e.args.head, e.args.tail.head;
    var x, y := OptExpr(ff, l), OptExpr(ff, r);
    assert WfExprs(u, sh, e.args.tail, |w.locals|);
    LiteralOperands(arrays, ff, op, x, y);
    SettledRight(arrays, ff, u, sh, l, w, fuel);
    var rl := EvalExpr(u, l, w, fuel);
    SettledRight(arrays, ff, u, sh, r, rl.w, fuel);
    var rr := EvalExpr(u, r, rl.w, fuel);
    BinaryIs(u, op, l, r, w, fuel);
    assert rl.out.vs == [ValueOf(x.lit)] && rr.out.vs == [ValueOf(y.lit)];
    OperandsFold(u, ff, op, x, y, rr.w, fuel);
  }

  lemma LiteralOperands(arrays: bool, ff: FloatFolds, op: SimpleOp, x: Expr, y: Expr)
    requires FairOperands(op, x, y) && Settled(arrays, FoldOperands(ff, op, x, y))
    ensures x.Lit? && y.Lit? && FoldBinary(ff, op, x.lit, y.lit).Some?
    ensures FoldOperands(ff, op, x, y) == Lit(FoldBinary(ff, op, x.lit, y.lit).value)
    ensures Settled(arrays, x) && Settled(arrays, y)
  {
  }

  lemma OperandsFold(u: Source, ff: FloatFolds, op: SimpleOp, x: Expr, y: Expr, w: World, fuel: nat)
    requires FairOperands(op, x, y) && Settled(false, FoldOperands(ff, op, x, y)) && Settled(false, x)
        && Settled(false, y)
    ensures x.Lit? && y.Lit? && FoldBinary(ff, op, x.lit, y.lit).Some?
    ensures PrimOut(u, Simple(op), [ValueOf(x.lit)] + [ValueOf(y.lit)], w)
         == Value1(ValueOf(FoldBinary(ff, op, x.lit, y.lit).value), w)
  {
    hide EvalExpr, PrimOut, FoldBinary, FairOperands;
    LiteralOperands(false, ff, op, x, y);
    BinaryIs(u, op, x, y, w, fuel);
    LiteralValue(u, x.lit, w, fuel);
    LiteralValue(u, y.lit, w, fuel);
    FoldOperandsSame(u, ff, op, x, y, w, fuel);
    LiteralValue(u, FoldBinary(ff, op, x.lit, y.lit).value, w, fuel);
  }

  lemma {:induction false} SettledNullTest(
    arrays: bool, ff: FloatFolds, u: Source, sh: Shape, e: Expr, w: World, fuel: nat)
    requires e.NullTest?
    requires FairExpr(arrays, ff, e) && Settled(arrays, OptExpr(ff, e)) && (arrays ==> MakesSequences(u.env.ops))
    requires WfExpr(u, sh, e, |w.locals|) && |w.globals| == sh.globals
    ensures Settles(arrays, OptExpr(ff, e), EvalExpr(u, e, w, fuel), w)
    decreases e, 0
  {
    hide MakesSequences, Quiet;
    SettledRight(arrays, ff, u, sh, e.e, w, fuel);
  }

  lemma {:induction false} SettledTernary(
    arrays: bool, ff: FloatFolds, u: Source, sh: Shape, e: Expr, w: World, fuel: nat)
    requires e.Ternary?
    requires FairExpr(arrays, ff, e) && Settled(arrays, OptExpr(ff, e)) && (arrays ==> MakesSequences(u.env.ops))
    requires WfExpr(u, sh, e, |w.locals|) && |w.globals| == sh.globals
    ensures Settles(arrays, OptExpr(ff, e), EvalExpr(u, e, w, fuel), w)
    decreases e, 0
  {
    hide MakesSequences, EvalExpr, Quiet;
    var x := OptExpr(ff, e.cond);
    DecidedSettled(arrays, ff, x);
    SettledRight(arrays, ff, u, sh, e.cond, w, fuel);
    var rc := EvalExpr(u, e.cond, w, fuel);
    var branch := if Decided(ff, x).value then e.thn else e.els;
    SettledRight(arrays, ff, u, sh, branch, rc.w, fuel);
    TernaryAfter(u, e, w, fuel);
  }

  lemma TernaryAfter(u: Source, e: Expr, w: World, fuel: nat)
    requires e.Ternary?
    requires var r := EvalExpr(u, e.cond, w, fuel); r.out.Done? && |r.out.vs| == 1
    ensures var r := EvalExpr(u, e.cond, w, fuel);
      EvalExpr(u, e, w, fuel) == EvalExpr(u, if Truthy(r.out.vs[0]) then e.thn else e.els, r.w, fuel)
  {
  }

  /** An element that makes nothing. */
  predicate PlainElement(e: Expr) {
    (e.Lit? && !e.lit.FloatLit? && !e.lit.TypeLit?) || e.Var? || e.GlobalVar?
  }

  predicate PlainElements(es: Exprs)
    decreases es
  {
    es.ECons? ==> PlainElement(es.head) && PlainElements(es.tail)
  }

  /** The values of plain elements; None where there is no such slot. */
  function ElementValues(es: Exprs, w: World): Option<seq<Value>>
    requires PlainElements(es)
    decreases es
  {
    match es
    case ENil => Some([])
    case ECons(e, tail) =>
      var v := match e
        case Lit(l) => Some(ValueOf(l))
        case Var(a) => if a < |w.locals| then Some(w.locals[a]) else None
        case GlobalVar(a) => if a < |w.globals| then Some(w.globals[a]) else None;
      if v.Some? && ElementValues(tail, w).Some? then Some([v.value] + ElementValues(tail, w).value) else None
  }

  lemma {:induction false} ElementsEvaluate(u: Source, es: Exprs, w: World, fuel: nat)
    requires PlainElements(es)
    ensures EvalArgs(u, es, w, fuel) ==
      if ElementValues(es, w).Some? then Res(Done(ElementValues(es, w).value), w) else Res(Outside, w)
    decreases es
  {
    if es.ECons? {
      ElementsEvaluate(u, es.tail, w, fuel);
      if es.head.Lit? { LiteralValue(u, es.head.lit, w, fuel); }
    }
  }

  /** Both end the same way, and the second has everything the first has, and maybe more
      objects that nothing refers to. */
  predicate SameButGarbage(r: Res, q: Res) {
    r.out == q.out && q.w == r.w.(heap := q.w.heap) && Keeps(r.w.heap, q.w.heap)
  }

  /** An array is true without a look at its elements. That is right, but for garbage,
      just when all its slots exist and making the array works, gives a true value and
      changes no other object. */
  lemma ArrayFoldsExactly(u: Source, ff: FloatFolds, es: Exprs, w: World, fuel: nat)
    requires PlainElements(es)
    ensures var x, vs := Strict(ArrayLit, es), ElementValues(es, w);
      SameButGarbage(EvalExpr(u, FoldUnary(ff, Not, x), w, fuel),
        EvalExpr(u, Strict(Unary(Not), ECons(x, ENil)), w, fuel))
      <==> vs.Some? && Makes(u.env.ops, NewArr(|vs.value|), vs.value, w.heap)
  {
    var x, vs := Strict(ArrayLit, es), ElementValues(es, w);
    ElementsEvaluate(u, es, w, fuel);
    ArrayIs(u, es, w, fuel);
    UnaryNot(u, x, w, fuel);
    LiteralValue(u, BoolLit(false), w, fuel);
  }

  lemma ArrayIs(u: Source, es: Exprs, w: World, fuel: nat)
    ensures EvalExpr(u, Strict(ArrayLit, es), w, fuel) ==
      var ra := EvalArgs(u, es, w, fuel);
      if !ra.out.Done? then ra else PrimOut(u, NewArr(Count(es)), ra.out.vs, ra.w)
  {
  }

  lemma UnaryNot(u: Source, x: Expr, w: World, fuel: nat)
    ensures EvalExpr(u, Strict(Unary(Not), ECons(x, ENil)), w, fuel) ==
      var r := BigStep.One(EvalExpr(u, x, w, fuel));
      if r.out.Done? then Value1(Bool(!Truthy(r.out.vs[0])), r.w) else r
  {
    hide EvalExpr;
    UnaryIs(u, Not, x, w, fuel);
  }

  /** The negation of an array with a division by zero in it raises an exception; folded, it is false. */
  lemma ArrayFoldDropsException(u: Source, ff: FloatFolds, w: World, fuel: nat)
    ensures var x := Strict(ArrayLit, ECons(BinaryNode(Div, IntLit(1), IntLit(0)), ENil));
      && EvalExpr(u, OptExpr(ff, Strict(Unary(Not), ECons(x, ENil))), w, fuel) == Value1(Bool(false), w)
      && EvalExpr(u, Strict(Unary(Not), ECons(x, ENil)), w, fuel) == Res(Raised(Str("Division by 0")), w)
  {
    hide EvalExpr;
    var q := BinaryNode(Div, IntLit(1), IntLit(0));
    var x := Strict(ArrayLit, ECons(q, ENil));
    LiteralValue(u, IntLit(1), w, fuel);
    LiteralValue(u, IntLit(0), w, fuel);
    BinaryIs(u, Div, Lit(IntLit(1)), Lit(IntLit(0)), w, fuel);
    assert [Int(1)] + [Int(0)] == [Int(1), Int(0)];
    RaisingElement(u, q, w, fuel);
    UnaryIs(u, Not, x, w, fuel);
    LiteralValue(u, BoolLit(false), w, fuel);
    assert OptExpr(ff, x) == x;
    assert OptExpr(ff, Strict(Unary(Not), ECons(x, ENil))) == FoldUnary(ff, Not, x);
  }

  lemma RaisingElement(u: Source, e: Expr, w: World, fuel: nat)
    requires EvalExpr(u, e, w, fuel).out.Raised?
    ensures EvalExpr(u, Strict(ArrayLit, ECons(e, ENil)), w, fuel) == EvalExpr(u, e, w, fuel)
  {
    assert EvalArgs(u, ECons(e, ENil), w, fuel) == EvalExpr(u, e, w, fuel);
  }
}
