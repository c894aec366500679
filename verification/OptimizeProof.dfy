/** The optimizer preserves meaning exactly where it drops no arrays. */
module OptimizeProof {
  import opened Values
  import opened Sst
  import opened BigStep
  import opened Optimize
  import opened Folding

  lemma OperandsSame(u: Source, op: SimpleOp, l: Expr, r: Expr, l': Expr, r': Expr, w: World, fuel: nat)
    requires EvalExpr(u, l', w, fuel) == EvalExpr(u, l, w, fuel)
    requires forall t :: EvalExpr(u, r', t, fuel) == EvalExpr(u, r, t, fuel)
    ensures EvalExpr(u, Strict(Binary(op), ECons(l', ECons(r', ENil))), w, fuel)
         == EvalExpr(u, Strict(Binary(op), ECons(l, ECons(r, ENil))), w, fuel)
  {
    hide EvalExpr;
    BinaryIs(u, op, l, r, w, fuel);
    BinaryIs(u, op, l', r', w, fuel);
  }

  /** An optimized expression has the value, the effects and the exceptions of the original. */
  lemma {:induction false} OptExprSame(u: Source, ff: FloatFolds, e: Expr, w: World, fuel: nat)
    requires FairExpr(false, ff, e)
    ensures EvalExpr(u, OptExpr(ff, e), w, fuel) == EvalExpr(u, e, w, fuel)
    decreases e
  {
    hide FoldUnary, FoldOperands, FoldNullTest, PrimOut, EvalStrict;
    match e
    case CallExpr(fn, args) =>
      OptExprsSame(u, ff, args, w, fuel);
    case Strict(Unary(op), ECons(x, ENil)) =>
      OptExprSame(u, ff, x, w, fuel);
      FoldUnarySame(u, ff, op, OptExpr(ff, x), w, fuel);
      UnaryIs(u, op, x, w, fuel);
      UnaryIs(u, op, OptExpr(ff, x), w, fuel);
    case Strict(Binary(op), ECons(l, ECons(r, ENil))) =>
      OptExprSame(u, ff, l, w, fuel);
      forall t ensures EvalExpr(u, OptExpr(ff, r), t, fuel) == EvalExpr(u, r, t, fuel) {
        OptExprSame(u, ff, r, t, fuel);
      }
      FoldOperandsSame(u, ff, op, OptExpr(ff, l), OptExpr(ff, r), w, fuel);
      OperandsSame(u, op, l, r, OptExpr(ff, l), OptExpr(ff, r), w, fuel);
    case NullTest(x) =>
      OptExprSame(u, ff, x, w, fuel);
      FoldNullTestSame(u, OptExpr(ff, x), w, fuel);
    case Logic(op, l, r) =>
      OptExprSame(u, ff, l, w, fuel);
      var rl := BigStep.One(EvalExpr(u, l, w, fuel));
      if rl.out.Done? { OptExprSame(u, ff, r, rl.w, fuel); }
    case Ternary(c, t, f) =>
      OptExprSame(u, ff, c, w, fuel);
      var rc := BigStep.One(EvalExpr(u, c, w, fuel));
      if rc.out.Done? {
        OptExprSame(u, ff, t, rc.w, fuel);
        OptExprSame(u, ff, f, rc.w, fuel);
      }
      if Decided(ff, OptExpr(ff, c)).Some? { DecidedIs(u, ff, OptExpr(ff, c), w, fuel); }
    case _ =>
  }

  lemma {:induction false} OptExprsSame(u: Source, ff: FloatFolds, es: Exprs, w: World, fuel: nat)
    requires FairExprs(false, ff, es)
    ensures EvalArgs(u, OptExprs(ff, es), w, fuel) == EvalArgs(u, es, w, fuel) && Count(OptExprs(ff, es)) == Count(es)
    decreases es
  {
    if es.ECons? {
      OptExprSame(u, ff, es.head, w, fuel);
      var re := BigStep.One(EvalExpr(u, es.head, w, fuel));
      OptExprsSame(u, ff, es.tail, re.w, fuel);
    }
  }

  /** An optimized statement has the outcome and the effects of the original. */
  lemma {:induction false} OptStmtSame(u: Source, ff: FloatFolds, s: Stmt, w: World, fuel: nat)
    requires FairStmt(false, ff, s)
    ensures EvalStmt(u, OptStmt(ff, s), w, fuel) == EvalStmt(u, s, w, fuel)
    decreases fuel, s
  {
    hide EvalExpr, OptExpr, FairExpr;
    match s
    case ReturnStmt(e, _) => OptExprSame(u, ff, e, w, fuel);
    case Assign(_, e) => OptExprSame(u, ff, e, w, fuel);
    case ThrowStmt(e) => OptExprSame(u, ff, e, w, fuel);
    case Block(ss) => OptStmtsSame(u, ff, ss, w, fuel);
    case IfStmt(_, _, _) => OptIfSame(u, ff, s, w, fuel);
    case While(_, _) => OptWhileSame(u, ff, s, w, fuel);
    case _ =>
  }

  lemma {:induction false} OptIfSame(u: Source, ff: FloatFolds, s: Stmt, w: World, fuel: nat)
    requires s.IfStmt? && FairStmt(false, ff, s)
    ensures EvalStmt(u, OptStmt(ff, s), w, fuel) == EvalStmt(u, s, w, fuel)
    decreases fuel, s, 0
  {
    hide EvalExpr, OptExpr, FairExpr;
    OptExprSame(u, ff, s.cond, w, fuel);
    var rc := BigStep.One(EvalExpr(u, s.cond, w, fuel));
    if rc.out.Done? {
      OptStmtSame(u, ff, s.thn, rc.w, fuel);
      if s.els.Some? { OptStmtSame(u, ff, s.els.value, rc.w, fuel); }
    }
    var c := OptExpr(ff, s.cond);
    if Decided(ff, c).Some? { DecidedIs(u, ff, c, w, fuel); }
  }

  lemma {:induction false} OptWhileSame(u: Source, ff: FloatFolds, s: Stmt, w: World, fuel: nat)
    requires s.While? && FairStmt(false, ff, s)
    ensures EvalStmt(u, OptStmt(ff, s), w, fuel) == EvalStmt(u, s, w, fuel)
    decreases fuel, s, 0
  {
    hide EvalExpr, OptExpr, FairExpr;
    OptExprSame(u, ff, s.cond, w, fuel);
    var rc := BigStep.One(EvalExpr(u, s.cond, w, fuel));
    if rc.out.Done? {
      OptStmtSame(u, ff, s.body, rc.w, fuel);
      var rb := Neutral(EvalStmt(u, s.body, rc.w, fuel));
      if fuel > 0 { OptStmtSame(u, ff, s, rb.w, fuel - 1); }
    }
    var c := OptExpr(ff, s.cond);
    if Decided(ff, c).Some? { DecidedIs(u, ff, c, w, fuel); }
  }

  lemma {:induction false} OptStmtsSame(u: Source, ff: FloatFolds, ss: Stmts, w: World, fuel: nat)
    requires FairStmts(false, ff, ss)
    ensures EvalStmts(u, OptStmts(ff, ss), w, fuel) == EvalStmts(u, ss, w, fuel)
    decreases fuel, ss
  {
    if ss.SCons? {
      OptStmtSame(u, ff, ss.head, w, fuel);
      var rs := Neutral(EvalStmt(u, ss.head, w, fuel));
      OptStmtsSame(u, ff, ss.tail, rs.w, fuel);
    }
  }

  /** Nothing is left to fold where the optimizer looks. */
  predicate ReducedExpr(ff: FloatFolds, e: Expr)
    decreases e
  {
    match e
    case CallExpr(_, args) => ReducedExprs(ff, args)
    case Strict(Unary(op), ECons(x, ENil)) =>
      && ReducedExpr(ff, x)
      && !(op == Neg && x.Lit? && FoldNegation(ff, x.lit).Some?)
      && !(op == Not && x != Lit(NullLit) && Decided(ff, x).Some?)
    case Strict(Binary(op), ECons(x, ECons(y, ENil))) =>
      && ReducedExpr(ff, x) && ReducedExpr(ff, y)
      && !(x.Lit? && y.Lit? && FoldBinary(ff, op, x.lit, y.lit).Some?)
    case NullTest(x) => ReducedExpr(ff, x) && !IsArray(x) && (x.Lit? ==> x.lit.TypeLit?)
    case Logic(_, x, y) => ReducedExpr(ff, x) && ReducedExpr(ff, y)
    case Ternary(c, t, f) =>
      ReducedExpr(ff, c) && Decided(ff, c).None? && ReducedExpr(ff, t) && ReducedExpr(ff, f)
    case _ => true
  }

  predicate ReducedExprs(ff: FloatFolds, es: Exprs)
    decreases es
  {
    es.ECons? ==> ReducedExpr(ff, es.head) && ReducedExprs(ff, es.tail)
  }

  /** And no branch is left to decide, but a false if without an else. */
  predicate ReducedStmt(ff: FloatFolds, s: Stmt)
    decreases s
  {
    match s
    case ReturnStmt(e, _) => ReducedExpr(ff, e)
    case Assign(_, e) => ReducedExpr(ff, e)
    case ThrowStmt(e) => ReducedExpr(ff, e)
    case Block(ss) => ReducedStmts(ff, ss)
    case IfStmt(c, t, f) =>
      && ReducedExpr(ff, c) && ReducedStmt(ff, t) && (f.Some? ==> ReducedStmt(ff, f.value))
      && Decided(ff, c) != Some(true) && (Decided(ff, c) == Some(false) ==> f.None?)
    case While(c, b) => ReducedExpr(ff, c) && ReducedStmt(ff, b) && Decided(ff, c) != Some(true)
    case _ => true
  }

  predicate ReducedStmts(ff: FloatFolds, ss: Stmts)
    decreases ss
  {
    ss.SCons? ==> ReducedStmt(ff, ss.head) && ReducedStmts(ff, ss.tail)
  }

  /** What the optimizer makes of an expression is reduced, and what is reduced it leaves as
      it is: optimizing twice changes nothing more. */
  lemma {:induction false} OptExprReduces(ff: FloatFolds, e: Expr)
    ensures ReducedExpr(ff, OptExpr(ff, e))
    ensures ReducedExpr(ff, e) ==> OptExpr(ff, e) == e
    decreases e, 1
  {
    hide FoldBinary, Decided, FoldNegation;
    match e
    case CallExpr(_, args) => OptExprsReduce(ff, args);
    case Strict(Unary(_), ECons(x, ENil)) => OptExprReduces(ff, x);
    case Strict(Binary(_), ECons(x, ECons(y, ENil))) =>
      OptExprReduces(ff, x);
      OptExprReduces(ff, y);
    case NullTest(x) => OptExprReduces(ff, x);
    case Logic(_, x, y) =>
      OptExprReduces(ff, x);
      OptExprReduces(ff, y);
    case Ternary(c, t, f) =>
      OptExprReduces(ff, c);
      OptExprReduces(ff, t);
      OptExprReduces(ff, f);
      DecidedOrNot(Decided(ff, OptExpr(ff, c)));
    case _ =>
  }

  lemma DecidedOrNot(d: Option<bool>)
    ensures d == None || d == Some(true) || d == Some(false)
  {
    if d.Some? { var b := d.value; assert d == Some(b); }
  }

  lemma {:induction false} OptExprsReduce(ff: FloatFolds, es: Exprs)
    ensures ReducedExprs(ff, OptExprs(ff, es))
    ensures ReducedExprs(ff, es) ==> OptExprs(ff, es) == es
    decreases es
  {
    if es.ECons? {
      OptExprReduces(ff, es.head);
      OptExprsReduce(ff, es.tail);
    }
  }

  lemma {:induction false} OptStmtReduces(ff: FloatFolds, s: Stmt)
    ensures ReducedStmt(ff, OptStmt(ff, s))
    ensures ReducedStmt(ff, s) ==> OptStmt(ff, s) == s
    decreases s
  {
    hide OptExpr, ReducedExpr, Decided;
    match s
    case ReturnStmt(e, _) => OptExprReduces(ff, e);
    case Assign(_, e) => OptExprReduces(ff, e);
    case ThrowStmt(e) => OptExprReduces(ff, e);
    case Block(ss) => OptStmtsReduce(ff, ss);
    case IfStmt(c, t, f) =>
      OptExprReduces(ff, c);
      OptStmtReduces(ff, t);
      if f.Some? { OptStmtReduces(ff, f.value); }
    case While(c, b) =>
      OptExprReduces(ff, c);
      OptStmtReduces(ff, b);
    case _ =>
  }

  lemma {:induction false} OptStmtsReduce(ff: FloatFolds, ss: Stmts)
    ensures ReducedStmts(ff, OptStmts(ff, ss))
    ensures ReducedStmts(ff, ss) ==> OptStmts(ff, ss) == ss
    decreases ss
  {
    if ss.SCons? {
      OptStmtReduces(ff, ss.head);
      OptStmtsReduce(ff, ss.tail);
    }
  }
}
