/** The frames of optimized bodies, counted again. */
module OptimizedFrames {
  import opened Values
  import opened Instructions
  import opened Sst
  import opened BigStep
  import opened WellFormed
  import opened Optimize
  import opened Frames

  lemma OneOperand(u: Source, sh: Shape, op: SimpleOp, x: Expr, slots: nat, r: nat, n: nat)
    ensures var e := Strict(Unary(op), ECons(x, ENil));
      && (WfExpr(u, sh, e, slots) <==> WfExpr(u, sh, x, slots) && Pops(Simple(op)) == 1 && Pushes(Simple(op)))
      && (FitsExpr(e, r, n) <==> FitsExpr(x, r, n)) && (PlainExpr(e) <==> PlainExpr(x))
      && ExprAlloc(e) == ExprAlloc(x) && UsedExpr(e) == UsedExpr(x)
  {
    var es := ECons(x, ENil);
    assert Count(es.tail) == 0 && Count(es) == 1;
    assert ArgsAlloc(es.tail) == 0 && ArgsAlloc(es) == Max(ExprAlloc(x), ArgsAlloc(es.tail));
    assert UsedArgs(es.tail) == 0 && UsedArgs(es) == Max(UsedExpr(x), UsedArgs(es.tail));
    assert WfExprs(u, sh, es.tail, slots) && WfExprs(u, sh, es, slots) == WfExpr(u, sh, x, slots);
    assert FitsArgs(es.tail, r, n) && FitsArgs(es, r, n) == FitsExpr(x, r, n);
    assert PlainArgs(es.tail) && PlainArgs(es) == PlainExpr(x);
  }

  lemma TwoOperands(u: Source, sh: Shape, op: SimpleOp, x: Expr, y: Expr, slots: nat, r: nat, n: nat)
    ensures var e := Strict(Binary(op), ECons(x, ECons(y, ENil)));
      && (WfExpr(u, sh, e, slots) <==>
            WfExpr(u, sh, x, slots) && WfExpr(u, sh, y, slots) && Pops(Simple(op)) == 2 && Pushes(Simple(op)))
      && (FitsExpr(e, r, n) <==> FitsExpr(x, r, n) && FitsExpr(y, r, n))
      && (PlainExpr(e) <==> PlainExpr(x) && PlainExpr(y))
      && ExprAlloc(e) == Max(ExprAlloc(x), ExprAlloc(y)) && UsedExpr(e) == Max(UsedExpr(x), UsedExpr(y))
  {
    var es := ECons(x, ECons(y, ENil));
    assert es.tail == ECons(y, ENil);
    assert Count(es.tail.tail) == 0 && Count(es.tail) == 1 && Count(es) == 2;
    assert ArgsAlloc(es.tail.tail) == 0 && ArgsAlloc(es.tail) == Max(ExprAlloc(y), ArgsAlloc(es.tail.tail));
    assert ArgsAlloc(es) == Max(ExprAlloc(x), ArgsAlloc(es.tail));
    assert UsedArgs(es.tail.tail) == 0 && UsedArgs(es.tail) == Max(UsedExpr(y), UsedArgs(es.tail.tail));
    assert UsedArgs(es) == Max(UsedExpr(x), UsedArgs(es.tail));
    assert WfExprs(u, sh, es.tail.tail, slots) && WfExprs(u, sh, es.tail, slots) == WfExpr(u, sh, y, slots);
    assert FitsArgs(es.tail.tail, r, n) && FitsArgs(es.tail, r, n) == FitsExpr(y, r, n);
    assert PlainArgs(es.tail.tail) && PlainArgs(es.tail) == PlainExpr(y);
  }

  lemma LiteralFits(u: Source, sh: Shape, e: Expr, slots: nat)
    requires e.Lit?
    ensures WfExpr(u, sh, e, slots) && UsedExpr(e) == 0
  {
  }

  /** Where a tree makes sense the optimized one does too, and if the tree is plain, the
      slots it counts afterwards cover what it uses then. */
  predicate Covered(e: Expr, n: nat) { UsedExpr(e) <= n + ExprAlloc(e) }

  lemma {:induction false} OptExprFits(
    u: Source, sh: Shape, ff: FloatFolds, e: Expr, slots: nat, r: nat, n: nat)
    requires WfExpr(u, sh, e, slots) && r <= n
    ensures WfExpr(u, sh, OptExpr(ff, e), slots)
    ensures PlainExpr(e) && FitsExpr(e, r, n) ==> Covered(OptExpr(ff, e), n)
    decreases e, 1
  {
    match e
    case CallExpr(_, args) => OptCallFits(u, sh, ff, e, slots, r, n);
    case Strict(Unary(op), ECons(x, ENil)) => OptUnaryFits(u, sh, ff, op, x, slots, r, n);
    case Strict(Binary(op), ECons(x, ECons(y, ENil))) => OptBinaryFits(u, sh, ff, op, x, y, slots, r, n);
    case NullTest(_) => OptNullTestFits(u, sh, ff, e, slots, r, n);
    case Logic(_, x, y) =>
      OptExprFits(u, sh, ff, x, slots, r, n);
      OptExprFits(u, sh, ff, y, slots, r, n);
    case Ternary(_, _, _) => OptTernaryFits(u, sh, ff, e, slots, r, n);
    case _ => PlainCovers(e, r, n);
  }

  lemma PlainCovers(e: Expr, r: nat, n: nat)
    requires r <= n
    ensures PlainExpr(e) && FitsExpr(e, r, n) ==> Covered(e, n)
  {
    hide PlainExpr, FitsExpr, ReachExpr, UsedExpr, ExprAlloc;
    if PlainExpr(e) && FitsExpr(e, r, n) { ExprBound(e, r, n); ExprReaches(e, r, n); }
  }

  lemma {:induction false} OptCallFits(
    u: Source, sh: Shape, ff: FloatFolds, e: Expr, slots: nat, r: nat, n: nat)
    requires e.CallExpr? && WfExpr(u, sh, e, slots) && r <= n
    ensures WfExpr(u, sh, OptExpr(ff, e), slots)
    ensures PlainExpr(e) && FitsExpr(e, r, n) ==> Covered(OptExpr(ff, e), n)
    decreases e, 0
  {
    OptArgsFit(u, sh, ff, e.args, slots, r, n);
  }

  lemma {:induction false} OptUnaryFits(
    u: Source, sh: Shape, ff: FloatFolds, op: SimpleOp, x: Expr, slots: nat, r: nat, n: nat)
    requires WfExpr(u, sh, Strict(Unary(op), ECons(x, ENil)), slots) && r <= n
    ensures var e := Strict(Unary(op), ECons(x, ENil));
      && WfExpr(u, sh, OptExpr(ff, e), slots)
      && (PlainExpr(e) && FitsExpr(e, r, n) ==> Covered(OptExpr(ff, e), n))
    decreases ECons(x, ENil), 0
  {
    hide WfExpr, FitsExpr, PlainExpr, UsedExpr, ExprAlloc, Decided;
    var x' := OptExpr(ff, x);
    var e := OptExpr(ff, Strict(Unary(op), ECons(x, ENil)));
    OneOperand(u, sh, op, x, slots, r, n);
    OptExprFits(u, sh, ff, x, slots, r, n);
    if e == Strict(Unary(op), ECons(x', ENil)) {
      OneOperand(u, sh, op, x', slots, r, n);
    } else {
      LiteralFits(u, sh, e, slots);
    }
  }

  lemma {:induction false} OptBinaryFits(
    u: Source, sh: Shape, ff: FloatFolds, op: SimpleOp, x: Expr, y: Expr, slots: nat, r: nat, n: nat)
    requires WfExpr(u, sh, Strict(Binary(op), ECons(x, ECons(y, ENil))), slots) && r <= n
    ensures var e := Strict(Binary(op), ECons(x, ECons(y, ENil)));
      && WfExpr(u, sh, OptExpr(ff, e), slots)
      && (PlainExpr(e) && FitsExpr(e, r, n) ==> Covered(OptExpr(ff, e), n))
    decreases ECons(x, ECons(y, ENil)), 0
  {
    hide WfExpr, FitsExpr, PlainExpr, UsedExpr, ExprAlloc, Decided;
    var x', y' := OptExpr(ff, x), OptExpr(ff, y);
    var e := OptExpr(ff, Strict(Binary(op), ECons(x, ECons(y, ENil))));
    TwoOperands(u, sh, op, x, y, slots, r, n);
    OptExprFits(u, sh, ff, x, slots, r, n);
    OptExprFits(u, sh, ff, y, slots, r, n);
    if e == Strict(Binary(op), ECons(x', ECons(y', ENil))) {
      TwoOperands(u, sh, op, x', y', slots, r, n);
    } else {
      assert e.Lit?;
      LiteralFits(u, sh, e, slots);
    }
  }

  lemma {:induction false} OptNullTestFits(
    u: Source, sh: Shape, ff: FloatFolds, e: Expr, slots: nat, r: nat, n: nat)
    requires e.NullTest? && WfExpr(u, sh, e, slots) && r <= n
    ensures WfExpr(u, sh, OptExpr(ff, e), slots)
    ensures PlainExpr(e) && FitsExpr(e, r, n) ==> Covered(OptExpr(ff, e), n)
    decreases e, 0
  {
    OptExprFits(u, sh, ff, e.e, slots, r, n);
  }

  lemma {:induction false} OptTernaryFits(
    u: Source, sh: Shape, ff: FloatFolds, e: Expr, slots: nat, r: nat, n: nat)
    requires e.Ternary? && WfExpr(u, sh, e, slots) && r <= n
    ensures WfExpr(u, sh, OptExpr(ff, e), slots)
    ensures PlainExpr(e) && FitsExpr(e, r, n) ==> Covered(OptExpr(ff, e), n)
    decreases e, 0
  {
    OptExprFits(u, sh, ff, e.cond, slots, r, n);
    OptExprFits(u, sh, ff, e.thn, slots, r, n);
    OptExprFits(u, sh, ff, e.els, slots, r, n);
  }

  lemma {:induction false} OptArgsFit(u: Source, sh: Shape, ff: FloatFolds, es: Exprs, slots: nat, r: nat, n: nat)
    requires WfExprs(u, sh, es, slots) && r <= n
    ensures WfExprs(u, sh, OptExprs(ff, es), slots) && Count(OptExprs(ff, es)) == Count(es)
    ensures PlainArgs(es) && FitsArgs(es, r, n) ==> UsedArgs(OptExprs(ff, es)) <= n + ArgsAlloc(OptExprs(ff, es))
    decreases es
  {
    if es.ECons? {
      OptExprFits(u, sh, ff, es.head, slots, r, n);
      OptArgsFit(u, sh, ff, es.tail, slots, r, n);
    }
  }

  /** An if that was replaced by an arm may declare where nothing was declared before. */
  lemma {:induction false} OptStmtFits(
    u: Source, sh: Shape, ff: FloatFolds, s: Stmt, slots: nat, targets: set<Label>, r: nat, n: nat)
    requires WfStmt(u, sh, s, slots, targets) && r <= n
    ensures WfStmt(u, sh, OptStmt(ff, s), slots, targets)
    ensures PlainStmt(s) && FitsStmt(s, r, n) ==>
      UsedStmt(OptStmt(ff, s)) <= n + TotalAlloc(OptStmt(ff, s)) && Grows(s) <= PersistentAlloc(OptStmt(ff, s))
    decreases s
  {
    hide OptExpr, WfExpr, FitsExpr, PlainExpr, UsedExpr, ExprAlloc, Decided, WfCases, FitsCases, PlainCases, UsedCases,
      WfBinding, FitsBind, PlainBind, UsedBind, BindAlloc, CascadeAlloc;
    match s
    case ReturnStmt(e, _) => OptExprFits(u, sh, ff, e, slots, r, n);
    case ThrowStmt(e) => OptExprFits(u, sh, ff, e, slots, r, n);
    case Assign(bind, e) =>
      OptExprFits(u, sh, ff, e, slots, r, n);
      PlainBindCovers(bind, r, n);
    case Block(ss) => OptStmtsFit(u, sh, ff, ss, slots, targets, r, n);
    case IfStmt(c, t, f) =>
      OptExprFits(u, sh, ff, c, slots, r, n);
      OptStmtFits(u, sh, ff, t, slots, targets, r, n);
      if f.Some? { OptStmtFits(u, sh, ff, f.value, slots, targets, r, n); }
    case While(c, b) =>
      OptExprFits(u, sh, ff, c, slots, r, n);
      OptStmtFits(u, sh, ff, b, slots, targets, r, n);
    case _ => PlainStmtCovers(s, r, n);
  }

  lemma PlainBindCovers(b: Binding, r: nat, n: nat)
    requires r <= n
    ensures PlainBind(b) && FitsBind(b, r, n) ==> UsedBind(b) <= n + BindAlloc(b)
  {
    hide PlainBind, FitsBind, ReachBind, UsedBind, BindAlloc;
    if PlainBind(b) && FitsBind(b, r, n) { BindBound(b, r, n); BindReaches(b, r, n); }
  }

  lemma PlainStmtCovers(s: Stmt, r: nat, n: nat)
    requires r <= n
    ensures PlainStmt(s) && FitsStmt(s, r, n) ==>
      UsedStmt(s) <= n + TotalAlloc(s) && Grows(s) == PersistentAlloc(s)
  {
    hide PlainStmt, FitsStmt, ReachStmt, UsedStmt, TotalAlloc;
    if PlainStmt(s) && FitsStmt(s, r, n) { StmtBound(s, r, n); StmtReaches(s, r, n); }
  }

  lemma {:induction false} OptStmtsFit(
    u: Source, sh: Shape, ff: FloatFolds, ss: Stmts, slots: nat, targets: set<Label>, r: nat, n: nat)
    requires WfStmts(u, sh, ss, slots, targets) && r <= n
    ensures WfStmts(u, sh, OptStmts(ff, ss), slots, targets)
    ensures PlainStmts(ss) && FitsStmts(ss, r, n) ==> var os := OptStmts(ff, ss);
      UsedStmts(os) <= n + StmtsTemporary(os) + StmtsPersistent(os)
    decreases ss
  {
    if ss.SCons? {
      var g := Grows(ss.head);
      OptStmtFits(u, sh, ff, ss.head, slots, targets, r, n);
      OptStmtsFit(u, sh, ff, ss.tail, slots, targets, Seen(r, n, g), n + g);
    }
  }

  /** The frame bound for what the optimizer makes of a body, counted again, exactly. */
  lemma OptStmtBoundExactly(
    u: Source, v: Source, sh: Shape, ff: FloatFolds, s: Stmt, slots: nat, targets: set<Label>, n: nat)
    requires Alike(u, v) && WfStmt(u, sh, s, slots, targets)
    ensures var o := OptStmt(ff, s);
      WfStmt(v, sh, o, n + TotalAlloc(o), targets) <==> UsedStmt(o) <= n + TotalAlloc(o)
  {
    hide WfStmt, UsedStmt, TotalAlloc, OptStmt, FitsStmt, PlainStmt;
    var o := OptStmt(ff, s);
    OptStmtFits(u, sh, ff, s, slots, targets, n, n);
    StmtExactly(u, v, sh, o, slots, targets, n + TotalAlloc(o));
  }

  /** Plain bodies keep within their frames, optimized or not. */
  lemma PlainBodiesFit(
    u: Source, v: Source, sh: Shape, ff: FloatFolds, s: Stmt, slots: nat, targets: set<Label>, n: nat)
    requires Alike(u, v) && WfStmt(u, sh, s, slots, targets) && FitsStmt(s, n, n) && PlainStmt(s)
    ensures WfStmt(v, sh, s, n + TotalAlloc(s), targets)
    ensures WfStmt(v, sh, OptStmt(ff, s), n + TotalAlloc(OptStmt(ff, s)), targets)
  {
    hide WfStmt, UsedStmt, TotalAlloc, OptStmt, FitsStmt, PlainStmt, ReachStmt;
    StmtBound(s, n, n);
    StmtBoundExactly(u, v, sh, s, slots, targets, n);
    OptStmtFits(u, sh, ff, s, slots, targets, n, n);
    OptStmtBoundExactly(u, v, sh, ff, s, slots, targets, n);
  }
}
