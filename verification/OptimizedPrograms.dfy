/** Optimizing a whole program between analysis and code generation: what the analysis
    guarantees still holds, so the optimized program compiles and links. */
module OptimizedPrograms {
  import opened Values
  import opened Instructions
  import opened Sst
  import opened Optimize
  import opened ClosedCode
  import opened Nesting
  import opened Programs
  import Labels

  /** The initialisers of the d definitions are optimized, those of globals are not, and
      of functions only the bodies. */
  function OptProgram(ff: FloatFolds, p: SstProgram, d: nat): (q: SstProgram)
    ensures |q.fns| == |p.fns|
  {
    SstProgram(OptFirst(ff, p.inits, d), seq(|p.fns|, i requires 0 <= i < |p.fns| => OptFunction(ff, p.fns[i])))
  }

  function OptFunction(ff: FloatFolds, f: FunctionDecl): FunctionDecl {
    f.(body := OptStmt(ff, f.body))
  }

  function OptFirst(ff: FloatFolds, es: Exprs, d: nat): Exprs
    decreases es
  {
    if d == 0 || es.ENil? then es else ECons(OptExpr(ff, es.head), OptFirst(ff, es.tail, d - 1))
  }

  /** The optimizer drops parts of a tree and adds none. */
  lemma {:induction false} OptExprNests(ff: FloatFolds, e: Expr, r: Role, l: Label)
    ensures NestedExpr(e) ==> NestedExpr(OptExpr(ff, e))
    ensures NExpr(r, OptExpr(ff, e), l) <= NExpr(r, e, l)
    decreases e, 1
  {
    hide NestedExpr, NExpr, FoldUnary, FoldOperands, FoldNullTest, Decided, OptExprs;
    match e
    case CallExpr(_, _) => OptCallNests(ff, e, r, l);
    case Strict(Unary(op), ECons(x, ENil)) => OptUnaryNests(ff, op, x, r, l);
    case Strict(Binary(op), ECons(x, ECons(y, ENil))) => OptBinaryNests(ff, op, x, y, r, l);
    case NullTest(_) => OptNullTestNests(ff, e, r, l);
    case Logic(_, _, _) => OptLogicNests(ff, e, r, l);
    case Ternary(_, _, _) => OptTernaryNests(ff, e, r, l);
    case _ => assert OptExpr(ff, e) == e;
  }

  lemma {:induction false} OptCallNests(ff: FloatFolds, e: Expr, r: Role, l: Label)
    requires e.CallExpr?
    ensures NestedExpr(e) ==> NestedExpr(OptExpr(ff, e))
    ensures NExpr(r, OptExpr(ff, e), l) <= NExpr(r, e, l)
    decreases e, 0
  {
    hide NestedExprs, NExprs, OptExprs;
    OptArgsNest(ff, e.args, r, l);
  }

  lemma {:induction false} OptNullTestNests(ff: FloatFolds, e: Expr, r: Role, l: Label)
    requires e.NullTest?
    ensures NestedExpr(e) ==> NestedExpr(OptExpr(ff, e))
    ensures NExpr(r, OptExpr(ff, e), l) <= NExpr(r, e, l)
    decreases e, 0
  {
    OptExprNests(ff, e.e, r, l);
  }

  lemma {:induction false} OptLogicNests(ff: FloatFolds, e: Expr, r: Role, l: Label)
    requires e.Logic?
    ensures NestedExpr(e) ==> NestedExpr(OptExpr(ff, e))
    ensures NExpr(r, OptExpr(ff, e), l) <= NExpr(r, e, l)
    decreases e, 0
  {
    OptExprNests(ff, e.l, r, l);
    OptExprNests(ff, e.r, r, l);
  }

  lemma {:induction false} OptTernaryNests(ff: FloatFolds, e: Expr, r: Role, l: Label)
    requires e.Ternary?
    ensures NestedExpr(e) ==> NestedExpr(OptExpr(ff, e))
    ensures NExpr(r, OptExpr(ff, e), l) <= NExpr(r, e, l)
    decreases e, 0
  {
    hide Decided;
    OptExprNests(ff, e.cond, r, l);
    OptExprNests(ff, e.thn, r, l);
    OptExprNests(ff, e.els, r, l);
  }

  lemma OneOperandNests(op: SimpleOp, x: Expr, r: Role, l: Label)
    ensures var e := Strict(Unary(op), ECons(x, ENil));
      NExpr(r, e, l) == NExpr(r, x, l) && (NestedExpr(e) <==> NestedExpr(x))
  {
    var es := ECons(x, ENil);
    assert NExprs(r, es.tail, l) == 0 && NExprs(r, es, l) == NExpr(r, x, l);
    assert NestedExprs(es.tail) && NestedExprs(es) == NestedExpr(x);
  }

  lemma TwoOperandsNest(op: SimpleOp, x: Expr, y: Expr, r: Role, l: Label)
    ensures var e := Strict(Binary(op), ECons(x, ECons(y, ENil)));
      NExpr(r, e, l) == NExpr(r, x, l) + NExpr(r, y, l) && (NestedExpr(e) <==> NestedExpr(x) && NestedExpr(y))
  {
    var es := ECons(x, ECons(y, ENil));
    assert NExprs(r, es.tail.tail, l) == 0 && NExprs(r, es.tail, l) == NExpr(r, y, l);
    assert NExprs(r, es, l) == NExpr(r, x, l) + NExprs(r, es.tail, l);
    assert NestedExprs(es.tail.tail) && NestedExprs(es.tail) == NestedExpr(y);
  }

  lemma {:induction false} OptUnaryNests(ff: FloatFolds, op: SimpleOp, x: Expr, r: Role, l: Label)
    ensures var e := Strict(Unary(op), ECons(x, ENil));
      (NestedExpr(e) ==> NestedExpr(OptExpr(ff, e))) && NExpr(r, OptExpr(ff, e), l) <= NExpr(r, e, l)
    decreases Strict(Unary(op), ECons(x, ENil)), 0
  {
    hide NExpr, NestedExpr, Decided;
    OptExprNests(ff, x, r, l);
    OneOperandNests(op, x, r, l);
    OneOperandNests(op, OptExpr(ff, x), r, l);
    var e := OptExpr(ff, Strict(Unary(op), ECons(x, ENil)));
    if e.Lit? { LiteralNests(e.lit, r, l); }
  }

  lemma LiteralNests(q: Literal, r: Role, l: Label)
    ensures NestedExpr(Lit(q)) && NExpr(r, Lit(q), l) == 0
  {
  }

  lemma {:induction false} OptBinaryNests(ff: FloatFolds, op: SimpleOp, x: Expr, y: Expr, r: Role, l: Label)
    ensures var e := Strict(Binary(op), ECons(x, ECons(y, ENil)));
      (NestedExpr(e) ==> NestedExpr(OptExpr(ff, e))) && NExpr(r, OptExpr(ff, e), l) <= NExpr(r, e, l)
    decreases Strict(Binary(op), ECons(x, ECons(y, ENil))), 0
  {
    hide NExpr, NestedExpr, FoldBinary;
    OptExprNests(ff, x, r, l);
    OptExprNests(ff, y, r, l);
    TwoOperandsNest(op, x, y, r, l);
    TwoOperandsNest(op, OptExpr(ff, x), OptExpr(ff, y), r, l);
    var e := OptExpr(ff, Strict(Binary(op), ECons(x, ECons(y, ENil))));
    if e.Lit? { LiteralNests(e.lit, r, l); }
  }

  lemma {:induction false} OptArgsNest(ff: FloatFolds, es: Exprs, r: Role, l: Label)
    ensures NestedExprs(es) ==> NestedExprs(OptExprs(ff, es))
    ensures NExprs(r, OptExprs(ff, es), l) <= NExprs(r, es, l)
    decreases es
  {
    if es.ECons? {
      OptExprNests(ff, es.head, r, l);
      OptArgsNest(ff, es.tail, r, l);
    }
  }

  lemma {:induction false} OptStmtNests(ff: FloatFolds, s: Stmt, t: Option<Label>, r: Role, l: Label)
    ensures NestedStmt(s, t) ==> NestedStmt(OptStmt(ff, s), t)
    ensures NStmt(r, OptStmt(ff, s), l) <= NStmt(r, s, l)
    decreases s, 1
  {
    hide OptExpr, OptStmts, NestedCases, NestedBind, NestedExpr, NestedStmts, NExpr, NCases, NBind, NStmts, DecideIf,
      Decided;
    match s
    case ReturnStmt(e, _) => OptExprNests(ff, e, r, l);
    case ThrowStmt(e) => OptExprNests(ff, e, r, l);
    case Assign(_, e) => OptExprNests(ff, e, r, l);
    case Block(ss) => OptStmtsNest(ff, ss, t, r, l);
    case IfStmt(_, _, _) => OptIfNests(ff, s, t, r, l);
    case While(_, _) => OptWhileNests(ff, s, t, r, l);
    case _ => assert OptStmt(ff, s) == s;
  }

  lemma {:induction false} OptWhileNests(ff: FloatFolds, s: Stmt, t: Option<Label>, r: Role, l: Label)
    requires s.While?
    ensures NestedStmt(s, t) ==> NestedStmt(OptStmt(ff, s), t)
    ensures NStmt(r, OptStmt(ff, s), l) <= NStmt(r, s, l)
    decreases s, 0
  {
    hide OptExpr, NestedExpr, NExpr, Decided;
    OptExprNests(ff, s.cond, r, l);
    OptStmtNests(ff, s.body, t, r, l);
  }

  lemma {:induction false} OptIfNests(ff: FloatFolds, s: Stmt, t: Option<Label>, r: Role, l: Label)
    requires s.IfStmt?
    ensures NestedStmt(s, t) ==> NestedStmt(OptStmt(ff, s), t)
    ensures NStmt(r, OptStmt(ff, s), l) <= NStmt(r, s, l)
    decreases s, 0
  {
    hide OptExpr, NestedExpr, NExpr, Decided;
    OptExprNests(ff, s.cond, r, l);
    OptStmtNests(ff, s.thn, t, r, l);
    if s.els.Some? { OptStmtNests(ff, s.els.value, t, r, l); }
  }

  lemma {:induction false} OptStmtsNest(ff: FloatFolds, ss: Stmts, t: Option<Label>, r: Role, l: Label)
    ensures NestedStmts(ss, t) ==> NestedStmts(OptStmts(ff, ss), t)
    ensures NStmts(r, OptStmts(ff, ss), l) <= NStmts(r, ss, l)
    decreases ss
  {
    if ss.SCons? {
      OptStmtNests(ff, ss.head, t, r, l);
      OptStmtsNest(ff, ss.tail, t, r, l);
    }
  }

  lemma {:induction false} OptFirstNests(ff: FloatFolds, es: Exprs, d: nat, r: Role, l: Label)
    ensures NestedExprs(es) ==> NestedExprs(OptFirst(ff, es, d))
    ensures NExprs(r, OptFirst(ff, es, d), l) <= NExprs(r, es, l)
    decreases es
  {
    if d > 0 && es.ECons? {
      OptExprNests(ff, es.head, r, l);
      OptFirstNests(ff, es.tail, d - 1, r, l);
    }
  }

  lemma {:induction false} OptFunctionsNest(
    ff: FloatFolds, a: seq<FunctionDecl>, b: seq<FunctionDecl>, r: Role, l: Label)
    requires |a| == |b| && forall i :: 0 <= i < |a| ==> b[i] == OptFunction(ff, a[i])
    ensures NFunctions(r, b, l) <= NFunctions(r, a, l)
    decreases |a|
  {
    hide NStmt, OptStmt;
    if a != [] {
      OptFunctionsNest(ff, a[1..], b[1..], r, l);
      OptStmtNests(ff, a[0].body, None, r, l);
    }
  }

  lemma FewerNames(ff: FloatFolds, p: SstProgram, d: nat, r: Role, l: Label)
    ensures NProgram(r, OptProgram(ff, p, d), l) <= NProgram(r, p, l)
  {
    hide OptFunction, NFunctions;
    OptFirstNests(ff, p.inits, d, r, l);
    OptFunctionsNest(ff, p.fns, OptProgram(ff, p, d).fns, r, l);
  }

  lemma OptProgramNests(ff: FloatFolds, p: SstProgram, d: nat)
    requires NestedProgram(p)
    ensures NestedProgram(OptProgram(ff, p, d))
  {
    hide NExprs, NStmt, OptStmt, NestedStmt, NestedExprs;
    var q := OptProgram(ff, p, d);
    forall i | 0 <= i < |p.fns| ensures NestedFunction(q.fns[i]) {
      assert NestedFunction(p.fns[i]);
      OptStmtNests(ff, p.fns[i].body, None, Defined, p.fns[i].name);
    }
    OptFirstNests(ff, p.inits, d, Defined, Function(""));
  }

  /** What the analysis guarantees holds after optimizing. */
  lemma OptAnalysed(ff: FloatFolds, p: SstProgram, d: nat)
    requires Analysed(p)
    ensures Analysed(OptProgram(ff, p, d))
  {
    hide NProgram, NStmt, OptStmt, NestedStmt, NestedExprs, NestedProgram, OptFirst, Labels.WellNamed;
    var q := OptProgram(ff, p, d);
    OptProgramNests(ff, p, d);
    forall l
      ensures NProgram(Defined, q, l) <= NProgram(Defined, p, l) && NProgram(Callee, q, l) <= NProgram(Callee, p, l)
    {
      FewerNames(ff, p, d, Defined, l);
      FewerNames(ff, p, d, Callee, l);
    }
    assert forall i :: 0 <= i < |p.fns| ==> q.fns[i].name == p.fns[i].name;
    OptEntriesKnown(p, q);
  }

  /** Fewer names, and the same functions. */
  lemma OptEntriesKnown(p: SstProgram, q: SstProgram)
    requires Analysed(p) && |q.fns| == |p.fns| && forall i :: 0 <= i < |p.fns| ==> q.fns[i].name == p.fns[i].name
    requires NestedProgram(q)
    requires forall l ::
      NProgram(Defined, q, l) <= NProgram(Defined, p, l) && NProgram(Callee, q, l) <= NProgram(Callee, p, l)
    ensures Analysed(q)
  {
    hide NProgram, NestedProgram;
    forall l
      ensures NProgram(Defined, q, l) <= 1 && (NProgram(Defined, q, l) > 0 ==> l.Jump? && l.kind == "IIFE")
      ensures NProgram(Callee, q, l) > 0 ==> exists i :: 0 <= i < |q.fns| && q.fns[i].name == l
    {
      assert NProgram(Defined, q, l) <= NProgram(Defined, p, l) && NProgram(Callee, q, l) <= NProgram(Callee, p, l);
      if NProgram(Callee, q, l) > 0 {
        var i :| 0 <= i < |p.fns| && p.fns[i].name == l;
        assert q.fns[i].name == l;
      }
    }
  }
}
