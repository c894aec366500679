/** Every return goes where its scope says: to the end of the innermost immediately invoked
    block around it, or else out of the function. */
module Nesting {
  import opened Values
  import opened Instructions
  import opened Sst
  import opened ClosedCode

  predicate NestedExpr(e: Expr)
    decreases e
  {
    match e
    case Strict(_, es) => NestedExprs(es)
    case NullTest(x) => NestedExpr(x)
    case Logic(_, a, b) => NestedExpr(a) && NestedExpr(b)
    case Ternary(c, t, f) => NestedExpr(c) && NestedExpr(t) && NestedExpr(f)
    case Conditional(cs) => NestedCases(cs, None)
    case Switch(x, cs) => NestedExpr(x) && NestedCases(cs, None)
    case StructLit(ms) => NestedMembers(ms)
    case MapLit(ps) => NestedPairs(ps)
    case CallExpr(_, es) => NestedExprs(es)
    case InvokeExpr(x, es) => NestedExpr(x) && NestedExprs(es)
    case InvokeMember(x, _, es) => NestedExpr(x) && NestedExprs(es)
    case FxPointer(_, es) => NestedExprs(es)
    case Iife(end, b) => NestedStmt(b, Some(end))
    case _ => true
  }

  predicate NestedExprs(es: Exprs)
    decreases es
  {
    es.ECons? ==> NestedExpr(es.head) && NestedExprs(es.tail)
  }

  predicate NestedMembers(ms: Members)
    decreases ms
  {
    ms.MCons? ==> NestedExpr(ms.e) && NestedMembers(ms.tail)
  }

  predicate NestedPairs(ps: Pairs)
    decreases ps
  {
    ps.PCons? ==> NestedExpr(ps.key) && NestedExpr(ps.val) && NestedPairs(ps.tail)
  }

  predicate NestedNode(x: Node, t: Option<Label>)
    decreases x
  {
    match x
    case E(e) => NestedExpr(e)
    case S(s) => NestedStmt(s, t)
  }

  predicate NestedCases(cs: Cases, t: Option<Label>)
    decreases cs
  {
    match cs
    case Otherwise(b) => NestedNode(b, t)
    case CCons(c, b, tail) => NestedExpr(c) && NestedNode(b, t) && NestedCases(tail, t)
  }

  predicate NestedBind(d: Binding)
    decreases d
  {
    match d
    case Group(subs) => NestedBinds(subs)
    case Place(_, es) => NestedExprs(es)
    case _ => true
  }

  predicate NestedBinds(ds: Bindings)
    decreases ds
  {
    ds.BCons? ==> NestedBind(ds.head) && NestedBinds(ds.tail)
  }

  /** t is where a return goes from here. */
  predicate NestedStmt(s: Stmt, t: Option<Label>)
    decreases s
  {
    match s
    case NoOp => true
    case Block(ss) => NestedStmts(ss, t)
    case IfStmt(c, a, b) => NestedExpr(c) && NestedStmt(a, t) && (b.Some? ==> NestedStmt(b.value, t))
    case While(c, b) => NestedExpr(c) && NestedStmt(b, t)
    case InfiniteLoop(b) => NestedStmt(b, t)
    case ForEach(d, e, b) => NestedBind(d) && NestedExpr(e) && NestedStmt(b, t)
    case SwitchStmt(x, cs) => NestedExpr(x) && NestedCases(cs, t)
    case ConditionalStmt(cs) => NestedCases(cs, t)
    case Assign(d, e) => NestedBind(d) && NestedExpr(e)
    case ReturnStmt(e, target) => NestedExpr(e) && target == t
    case ThrowStmt(e) => NestedExpr(e)
    case YieldStmt(e) => NestedExpr(e)
    case CoReturnStmt(e) => NestedExpr(e)
  }

  predicate NestedStmts(ss: Stmts, t: Option<Label>)
    decreases ss
  {
    ss.SCons? ==> NestedStmt(ss.head, t) && NestedStmts(ss.tail, t)
  }

  /** An end that an expression returns to is an end in it. */
  lemma {:induction false} ExprKeepsReturns(e: Expr, l: Label)
    requires NestedExpr(e)
    ensures NExpr(Jumped, e, l) > 0 ==> NExpr(Defined, e, l) > 0
    decreases e
  {
    match e
    case Strict(_, es) => ArgsKeepReturns(es, l);
    case NullTest(x) => ExprKeepsReturns(x, l);
    case Logic(_, a, b) =>
      ExprKeepsReturns(a, l);
      ExprKeepsReturns(b, l);
    case Ternary(c, t, f) =>
      ExprKeepsReturns(c, l);
      ExprKeepsReturns(t, l);
      ExprKeepsReturns(f, l);
    case Conditional(cs) => CasesKeepReturns(cs, None, l);
    case Switch(x, cs) =>
      ExprKeepsReturns(x, l);
      CasesKeepReturns(cs, None, l);
    case StructLit(ms) => MembersKeepReturns(ms, l);
    case MapLit(ps) => PairsKeepReturns(ps, l);
    case CallExpr(_, es) => ArgsKeepReturns(es, l);
    case InvokeExpr(x, es) =>
      ExprKeepsReturns(x, l);
      ArgsKeepReturns(es, l);
    case InvokeMember(x, _, es) =>
      ExprKeepsReturns(x, l);
      ArgsKeepReturns(es, l);
    case FxPointer(_, es) => ArgsKeepReturns(es, l);
    case Iife(end, b) => StmtKeepsReturns(b, Some(end), l);
    case _ =>
  }

  lemma {:induction false} ArgsKeepReturns(es: Exprs, l: Label)
    requires NestedExprs(es)
    ensures NExprs(Jumped, es, l) > 0 ==> NExprs(Defined, es, l) > 0
    decreases es
  {
    if es.ECons? {
      ExprKeepsReturns(es.head, l);
      ArgsKeepReturns(es.tail, l);
    }
  }

  lemma {:induction false} MembersKeepReturns(ms: Members, l: Label)
    requires NestedMembers(ms)
    ensures NMembers(Jumped, ms, l) > 0 ==> NMembers(Defined, ms, l) > 0
    decreases ms
  {
    if ms.MCons? {
      ExprKeepsReturns(ms.e, l);
      MembersKeepReturns(ms.tail, l);
    }
  }

  lemma {:induction false} PairsKeepReturns(ps: Pairs, l: Label)
    requires NestedPairs(ps)
    ensures NPairs(Jumped, ps, l) > 0 ==> NPairs(Defined, ps, l) > 0
    decreases ps
  {
    if ps.PCons? {
      ExprKeepsReturns(ps.key, l);
      ExprKeepsReturns(ps.val, l);
      PairsKeepReturns(ps.tail, l);
    }
  }

  lemma {:induction false} NodeKeepsReturns(x: Node, t: Option<Label>, l: Label)
    requires NestedNode(x, t)
    ensures NNode(Jumped, x, l) > 0 ==> NNode(Defined, x, l) > 0 || t == Some(l)
    decreases x
  {
    match x
    case E(e) => ExprKeepsReturns(e, l);
    case S(s) => StmtKeepsReturns(s, t, l);
  }

  lemma {:induction false} CasesKeepReturns(cs: Cases, t: Option<Label>, l: Label)
    requires NestedCases(cs, t)
    ensures NCases(Jumped, cs, l) > 0 ==> NCases(Defined, cs, l) > 0 || t == Some(l)
    decreases cs
  {
    match cs
    case Otherwise(b) => NodeKeepsReturns(b, t, l);
    case CCons(c, b, tail) =>
      ExprKeepsReturns(c, l);
      NodeKeepsReturns(b, t, l);
      CasesKeepReturns(tail, t, l);
  }

  lemma {:induction false} BindKeepsReturns(d: Binding, l: Label)
    requires NestedBind(d)
    ensures NBind(Jumped, d, l) > 0 ==> NBind(Defined, d, l) > 0
    decreases d
  {
    match d
    case Group(subs) => BindsKeepReturns(subs, l);
    case Place(_, es) => ArgsKeepReturns(es, l);
    case _ =>
  }

  lemma {:induction false} BindsKeepReturns(ds: Bindings, l: Label)
    requires NestedBinds(ds)
    ensures NBinds(Jumped, ds, l) > 0 ==> NBinds(Defined, ds, l) > 0
    decreases ds
  {
    if ds.BCons? {
      BindKeepsReturns(ds.head, l);
      BindsKeepReturns(ds.tail, l);
    }
  }

  /** An end that a statement returns to is an end in it, or the one around it. */
  lemma {:induction false} StmtKeepsReturns(s: Stmt, t: Option<Label>, l: Label)
    requires NestedStmt(s, t)
    ensures NStmt(Jumped, s, l) > 0 ==> NStmt(Defined, s, l) > 0 || t == Some(l)
    decreases s
  {
    match s
    case NoOp =>
    case Block(ss) => StmtsKeepReturns(ss, t, l);
    case IfStmt(c, a, b) =>
      ExprKeepsReturns(c, l);
      StmtKeepsReturns(a, t, l);
      if b.Some? { StmtKeepsReturns(b.value, t, l); }
    case While(c, b) =>
      ExprKeepsReturns(c, l);
      StmtKeepsReturns(b, t, l);
    case InfiniteLoop(b) => StmtKeepsReturns(b, t, l);
    case ForEach(d, e, b) =>
      BindKeepsReturns(d, l);
      ExprKeepsReturns(e, l);
      StmtKeepsReturns(b, t, l);
    case SwitchStmt(x, cs) =>
      ExprKeepsReturns(x, l);
      CasesKeepReturns(cs, t, l);
    case ConditionalStmt(cs) => CasesKeepReturns(cs, t, l);
    case Assign(d, e) =>
      BindKeepsReturns(d, l);
      ExprKeepsReturns(e, l);
    case ReturnStmt(e, _) => ExprKeepsReturns(e, l);
    case ThrowStmt(e) => ExprKeepsReturns(e, l);
    case YieldStmt(e) => ExprKeepsReturns(e, l);
    case CoReturnStmt(e) => ExprKeepsReturns(e, l);
  }

  lemma {:induction false} StmtsKeepReturns(ss: Stmts, t: Option<Label>, l: Label)
    requires NestedStmts(ss, t)
    ensures NStmts(Jumped, ss, l) > 0 ==> NStmts(Defined, ss, l) > 0 || t == Some(l)
    decreases ss
  {
    if ss.SCons? {
      StmtKeepsReturns(ss.head, t, l);
      StmtsKeepReturns(ss.tail, t, l);
    }
  }
}
