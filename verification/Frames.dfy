/** Slots of a frame: which variable gets which slot, how many slots the tree asks for,
    and why no slot it uses lies outside the frame that is allocated. */
module Frames {
  import opened Values
  import opened Instructions
  import opened Machine
  import opened Sst
  import opened BigStep
  import opened WellFormed

  function Max(a: nat, b: nat): nat { if a < b then b else a }

  /** alloc: how many slots the blocks inside an expression need. What the source does
      not look into (the object of a member read, the captures of a function pointer, the
      subject and the default of a switch) is not counted here either. */
  function ExprAlloc(e: Expr): nat
    decreases e
  {
    match e
    case Strict(Member(_), _) => 0
    case Strict(_, es) => ArgsAlloc(es)
    case NullTest(x) => ExprAlloc(x)
    case Logic(_, l, r) => Max(ExprAlloc(l), ExprAlloc(r))
    case Ternary(c, t, f) => Max(ExprAlloc(c), Max(ExprAlloc(t), ExprAlloc(f)))
    case Conditional(cs) => CascadeAlloc(cs)
    case Switch(_, cs) => CasesTemporary(cs)
    case StructLit(ms) => MembersAlloc(ms)
    case MapLit(ps) => PairsAlloc(ps)
    case CallExpr(_, es) => ArgsAlloc(es)
    case InvokeExpr(x, es) => Max(ArgsAlloc(es), ExprAlloc(x))
    case InvokeMember(x, _, es) => Max(ArgsAlloc(es), ExprAlloc(x))
    case Iife(_, body) => TotalAlloc(body)
    case _ => 0
  }

  function ArgsAlloc(es: Exprs): nat
    decreases es
  {
    if es.ENil? then 0 else Max(ExprAlloc(es.head), ArgsAlloc(es.tail))
  }

  function MembersAlloc(ms: Members): nat
    decreases ms
  {
    if ms.MNil? then 0 else Max(ExprAlloc(ms.e), MembersAlloc(ms.tail))
  }

  function PairsAlloc(ps: Pairs): nat
    decreases ps
  {
    if ps.PNil? then 0 else Max(ExprAlloc(ps.key) + ExprAlloc(ps.val), PairsAlloc(ps.tail))
  }

  function NodeTemporary(n: Node): nat
    decreases n
  {
    match n
    case E(e) => ExprAlloc(e)
    case S(s) => TemporaryAlloc(s)
  }

  function NodePersistent(n: Node): nat
    decreases n, 0
  {
    if n.S? then PersistentAlloc(n.s) else 0
  }

  function NodeTotal(n: Node): nat
    decreases n, 1
  {
    NodeTemporary(n) + NodePersistent(n)
  }

  /** Of a last arm only the temporary slots are counted. */
  function CascadeAlloc(cs: Cases): nat
    decreases cs, 0
  {
    match cs
    case Otherwise(b) => NodeTemporary(b)
    case CCons(c, E(e), tail) => Max(CascadeAlloc(tail), Max(ExprAlloc(c), ExprAlloc(e)))
    case CCons(c, S(s), tail) => Max(CascadeAlloc(tail), ExprAlloc(c) + TotalAlloc(s))
  }

  function CasesTemporary(cs: Cases): nat
    decreases cs, 0
  {
    if cs.Otherwise? then 0
    else Max(CasesTemporary(cs.tail), Max(NodeTemporary(cs.body), ExprAlloc(cs.cond)))
  }

  function CasesPersistent(cs: Cases): nat
    decreases cs, 0
  {
    if cs.Otherwise? then 0 else NodePersistent(cs.body) + CasesPersistent(cs.tail)
  }

  function BindAlloc(b: Binding): nat
    decreases b
  {
    match b
    case NewVar(_) => 1
    case Group(subs) => BindsAlloc(subs)
    case _ => 0
  }

  function BindsAlloc(bs: Bindings): nat
    decreases bs
  {
    if bs.BNil? then 0 else BindAlloc(bs.head) + BindsAlloc(bs.tail)
  }

  function TemporaryAlloc(s: Stmt): nat
    decreases s, 1
  {
    match s
    case NoOp => 0
    case Block(ss) => StmtsTemporary(ss) + StmtsPersistent(ss)
    case IfStmt(c, t, f) =>
      Max(ExprAlloc(c), Max(TotalAlloc(t), if f.Some? then TotalAlloc(f.value) else 0))
    case While(c, b) => Max(ExprAlloc(c), TotalAlloc(b))
    case InfiniteLoop(b) => TotalAlloc(b)
    case ForEach(bind, e, b) => 2 + ExprAlloc(e) + BindAlloc(bind) + TotalAlloc(b)
    case SwitchStmt(_, cs) => CasesTemporary(cs) + CasesPersistent(cs)
    case ConditionalStmt(cs) => CascadeAlloc(cs)
    case Assign(_, e) => ExprAlloc(e)
    case ReturnStmt(e, _) => ExprAlloc(e)
    case ThrowStmt(e) => ExprAlloc(e)
    case YieldStmt(e) => ExprAlloc(e)
    case CoReturnStmt(e) => ExprAlloc(e)
  }

  /** Only assignments declare variables in the scope they stand in. */
  function PersistentAlloc(s: Stmt): nat
    decreases s, 0
  {
    if s.Assign? then BindAlloc(s.bind) else 0
  }

  /** How many variables a statement adds to the scope it stands in. The default of a
      switch stands in the scope of the switch itself, which nobody counts. */
  function Grows(s: Stmt): nat
    decreases s
  {
    match s
    case Assign(bind, _) => BindAlloc(bind)
    case SwitchStmt(_, cs) => CasesGrow(cs)
    case _ => 0
  }

  function CasesGrow(cs: Cases): nat
    decreases cs
  {
    match cs
    case Otherwise(E(_)) => 0
    case Otherwise(S(s)) => Grows(s)
    case CCons(_, _, tail) => CasesGrow(tail)
  }

  function TotalAlloc(s: Stmt): nat
    decreases s, 2
  {
    TemporaryAlloc(s) + PersistentAlloc(s)
  }

  function StmtsTemporary(ss: Stmts): nat
    decreases ss
  {
    if ss.SNil? then 0 else Max(TemporaryAlloc(ss.head), StmtsTemporary(ss.tail))
  }

  function StmtsPersistent(ss: Stmts): nat
    decreases ss
  {
    if ss.SNil? then 0 else PersistentAlloc(ss.head) + StmtsPersistent(ss.tail)
  }

  /** Block::temporary_alloc: the statements are counted one after the other. */
  method CountBlock(ss: Stmts) returns (count: nat)
    ensures count == TemporaryAlloc(Block(ss))
  {
    var temporary: nat, persistent: nat, rest := 0, 0, ss;
    while rest.SCons?
      invariant Max(temporary, StmtsTemporary(rest)) == StmtsTemporary(ss)
      invariant persistent + StmtsPersistent(rest) == StmtsPersistent(ss)
      decreases rest
    {
      temporary := Max(temporary, TemporaryAlloc(rest.head));
      persistent := persistent + PersistentAlloc(rest.head);
      rest := rest.tail;
    }
    count := temporary + persistent;
  }

  /** Switch::temporary_alloc: neither the subject nor the default is counted. */
  method CountSwitch(x: Expr, cs: Cases) returns (count: nat)
    ensures count == TemporaryAlloc(SwitchStmt(x, cs))
  {
    var temporary: nat, persistent: nat, rest := 0, 0, cs;
    while rest.CCons?
      invariant Max(temporary, CasesTemporary(rest)) == CasesTemporary(cs)
      invariant persistent + CasesPersistent(rest) == CasesPersistent(cs)
      decreases rest
    {
      temporary := Max(temporary, Max(NodeTemporary(rest.body), ExprAlloc(rest.cond)));
      persistent := persistent + NodePersistent(rest.body);
      rest := rest.tail;
    }
    count := temporary + persistent;
  }

  /** One above the highest slot a tree mentions. */
  function UsedExpr(e: Expr): nat
    decreases e
  {
    match e
    case Var(a) => a + 1
    case Strict(_, es) => UsedArgs(es)
    case NullTest(x) => UsedExpr(x)
    case Logic(_, l, r) => Max(UsedExpr(l), UsedExpr(r))
    case Ternary(c, t, f) => Max(UsedExpr(c), Max(UsedExpr(t), UsedExpr(f)))
    case Conditional(cs) => UsedCases(cs)
    case Switch(x, cs) => Max(UsedExpr(x), UsedCases(cs))
    case StructLit(ms) => UsedMembers(ms)
    case MapLit(ps) => UsedPairs(ps)
    case CallExpr(_, es) => UsedArgs(es)
    case InvokeExpr(x, es) => Max(UsedExpr(x), UsedArgs(es))
    case InvokeMember(x, _, es) => Max(UsedExpr(x), UsedArgs(es))
    case FxPointer(_, es) => UsedArgs(es)
    case Iife(_, body) => UsedStmt(body)
    case _ => 0
  }

  function UsedArgs(es: Exprs): nat
    decreases es
  {
    if es.ENil? then 0 else Max(UsedExpr(es.head), UsedArgs(es.tail))
  }

  function UsedMembers(ms: Members): nat
    decreases ms
  {
    if ms.MNil? then 0 else Max(UsedExpr(ms.e), UsedMembers(ms.tail))
  }

  function UsedPairs(ps: Pairs): nat
    decreases ps
  {
    if ps.PNil? then 0 else Max(Max(UsedExpr(ps.key), UsedExpr(ps.val)), UsedPairs(ps.tail))
  }

  function UsedNode(x: Node): nat
    decreases x
  {
    match x
    case E(e) => UsedExpr(e)
    case S(s) => UsedStmt(s)
  }

  function UsedCases(cs: Cases): nat
    decreases cs
  {
    match cs
    case Otherwise(b) => UsedNode(b)
    case CCons(c, b, tail) => Max(UsedExpr(c), Max(UsedNode(b), UsedCases(tail)))
  }

  function UsedBind(b: Binding): nat
    decreases b
  {
    match b
    case NewVar(a) => a + 1
    case Local(a) => a + 1
    case Group(subs) => UsedBinds(subs)
    case Place(_, es) => UsedArgs(es)
    case _ => 0
  }

  function UsedBinds(bs: Bindings): nat
    decreases bs
  {
    if bs.BNil? then 0 else Max(UsedBind(bs.head), UsedBinds(bs.tail))
  }

  function UsedStmt(s: Stmt): nat
    decreases s
  {
    match s
    case NoOp => 0
    case Block(ss) => UsedStmts(ss)
    case IfStmt(c, t, f) => Max(UsedExpr(c), Max(UsedStmt(t), if f.Some? then UsedStmt(f.value) else 0))
    case While(c, b) => Max(UsedExpr(c), UsedStmt(b))
    case InfiniteLoop(b) => UsedStmt(b)
    case ForEach(bind, e, b) => Max(UsedExpr(e), Max(UsedBind(bind), UsedStmt(b)))
    case SwitchStmt(x, cs) => Max(UsedExpr(x), UsedCases(cs))
    case ConditionalStmt(cs) => UsedCases(cs)
    case Assign(bind, e) => Max(UsedExpr(e), UsedBind(bind))
    case ReturnStmt(e, _) => UsedExpr(e)
    case ThrowStmt(e) => UsedExpr(e)
    case YieldStmt(e) => UsedExpr(e)
    case CoReturnStmt(e) => UsedExpr(e)
  }

  function UsedStmts(ss: Stmts): nat
    decreases ss
  {
    if ss.SNil? then 0 else Max(UsedStmt(ss.head), UsedStmts(ss.tail))
  }

  /** The slots that can be read once g variables were declared from slot n on. */
  function Seen(r: nat, n: nat, g: nat): nat { if g > 0 then n + g else r }

  /** A tree as the analysis makes it where the next variable gets slot n: it reads slots
      below r, and each new variable gets the next slot. A for-each declares two more
      variables, which its body cannot name. The labels of a switch are analysed in a
      scope of their own, which starts empty. */
  predicate FitsExpr(e: Expr, r: nat, n: nat)
    decreases e
  {
    match e
    case Var(a) => a < r
    case Strict(_, es) => FitsArgs(es, r, n)
    case NullTest(x) => FitsExpr(x, r, n)
    case Logic(_, x, y) => FitsExpr(x, r, n) && FitsExpr(y, r, n)
    case Ternary(c, t, f) => FitsExpr(c, r, n) && FitsExpr(t, r, n) && FitsExpr(f, r, n)
    case Conditional(cs) => FitsCases(cs, r, n, r, n)
    case Switch(x, cs) => FitsExpr(x, r, n) && FitsCases(cs, 0, 0, r, n)
    case StructLit(ms) => FitsMembers(ms, r, n)
    case MapLit(ps) => FitsPairs(ps, r, n)
    case CallExpr(_, es) => FitsArgs(es, r, n)
    case InvokeExpr(x, es) => FitsExpr(x, r, n) && FitsArgs(es, r, n)
    case InvokeMember(x, _, es) => FitsExpr(x, r, n) && FitsArgs(es, r, n)
    case FxPointer(_, es) => FitsArgs(es, r, n)
    case Iife(_, body) => FitsStmt(body, r, n)
    case _ => true
  }

  predicate FitsArgs(es: Exprs, r: nat, n: nat)
    decreases es
  {
    es.ECons? ==> FitsExpr(es.head, r, n) && FitsArgs(es.tail, r, n)
  }

  predicate FitsMembers(ms: Members, r: nat, n: nat)
    decreases ms
  {
    ms.MCons? ==> FitsExpr(ms.e, r, n) && FitsMembers(ms.tail, r, n)
  }

  predicate FitsPairs(ps: Pairs, r: nat, n: nat)
    decreases ps
  {
    ps.PCons? ==> FitsExpr(ps.key, r, n) && FitsExpr(ps.val, r, n) && FitsPairs(ps.tail, r, n)
  }

  predicate FitsNode(x: Node, r: nat, n: nat)
    decreases x
  {
    match x
    case E(e) => FitsExpr(e, r, n)
    case S(s) => FitsStmt(s, r, n)
  }

  /** Conditions are analysed where slots below lr can be read and ln is the next one. */
  predicate FitsCases(cs: Cases, lr: nat, ln: nat, r: nat, n: nat)
    decreases cs
  {
    match cs
    case Otherwise(b) => FitsNode(b, r, n)
    case CCons(c, b, tail) => FitsExpr(c, lr, ln) && FitsNode(b, r, n) && FitsCases(tail, lr, ln, r, n)
  }

  predicate FitsBind(b: Binding, r: nat, n: nat)
    decreases b
  {
    match b
    case NewVar(a) => a == n
    case Local(a) => a < r
    case Group(subs) => FitsBinds(subs, r, n)
    case Place(_, es) => FitsArgs(es, r, n)
    case _ => true
  }

  predicate FitsBinds(bs: Bindings, r: nat, n: nat)
    decreases bs
  {
    bs.BCons? ==>
      var g := BindAlloc(bs.head); FitsBind(bs.head, r, n) && FitsBinds(bs.tail, Seen(r, n, g), n + g)
  }

  predicate FitsStmt(s: Stmt, r: nat, n: nat)
    decreases s
  {
    match s
    case NoOp => true
    case Block(ss) => FitsStmts(ss, r, n)
    case IfStmt(c, t, f) => FitsExpr(c, r, n) && FitsStmt(t, r, n) && (f.Some? ==> FitsStmt(f.value, r, n))
    case While(c, b) => FitsExpr(c, r, n) && FitsStmt(b, r, n)
    case InfiniteLoop(b) => FitsStmt(b, r, n)
    case ForEach(bind, e, b) =>
      var g := BindAlloc(bind);
      FitsExpr(e, r, n) && FitsBind(bind, r, n) && FitsStmt(b, Seen(r, n, g), n + g + 2)
    case SwitchStmt(x, cs) => FitsExpr(x, r, n) && FitsCases(cs, 0, 0, r, n)
    case ConditionalStmt(cs) => FitsCases(cs, r, n, r, n)
    case Assign(bind, e) => FitsBind(bind, r, n) && FitsExpr(e, r, n)
    case ReturnStmt(e, _) => FitsExpr(e, r, n)
    case ThrowStmt(e) => FitsExpr(e, r, n)
    case YieldStmt(e) => FitsExpr(e, r, n)
    case CoReturnStmt(e) => FitsExpr(e, r, n)
  }

  predicate FitsStmts(ss: Stmts, r: nat, n: nat)
    decreases ss
  {
    ss.SCons? ==>
      var g := Grows(ss.head); FitsStmt(ss.head, r, n) && FitsStmts(ss.tail, Seen(r, n, g), n + g)
  }

  /** How far the slots of a tree reach, computed from the variables it declares: the
      count the frame would have to be, with nothing left out. */
  function ReachExpr(e: Expr, r: nat, n: nat): nat
    decreases e
  {
    match e
    case Strict(_, es) => ReachArgs(es, r, n)
    case NullTest(x) => ReachExpr(x, r, n)
    case Logic(_, x, y) => Max(ReachExpr(x, r, n), ReachExpr(y, r, n))
    case Ternary(c, t, f) => Max(ReachExpr(c, r, n), Max(ReachExpr(t, r, n), ReachExpr(f, r, n)))
    case Conditional(cs) => ReachCases(cs, r, n, r, n)
    case Switch(x, cs) => Max(ReachExpr(x, r, n), ReachCases(cs, 0, 0, r, n))
    case StructLit(ms) => ReachMembers(ms, r, n)
    case MapLit(ps) => ReachPairs(ps, r, n)
    case CallExpr(_, es) => ReachArgs(es, r, n)
    case InvokeExpr(x, es) => Max(ReachExpr(x, r, n), ReachArgs(es, r, n))
    case InvokeMember(x, _, es) => Max(ReachExpr(x, r, n), ReachArgs(es, r, n))
    case FxPointer(_, es) => ReachArgs(es, r, n)
    case Iife(_, body) => ReachStmt(body, r, n)
    case _ => r
  }

  function ReachArgs(es: Exprs, r: nat, n: nat): nat
    decreases es
  {
    if es.ENil? then r else Max(ReachExpr(es.head, r, n), ReachArgs(es.tail, r, n))
  }

  function ReachMembers(ms: Members, r: nat, n: nat): nat
    decreases ms
  {
    if ms.MNil? then r else Max(ReachExpr(ms.e, r, n), ReachMembers(ms.tail, r, n))
  }

  function ReachPairs(ps: Pairs, r: nat, n: nat): nat
    decreases ps
  {
    if ps.PNil? then r
    else Max(Max(ReachExpr(ps.key, r, n), ReachExpr(ps.val, r, n)), ReachPairs(ps.tail, r, n))
  }

  function ReachNode(x: Node, r: nat, n: nat): nat
    decreases x
  {
    match x
    case E(e) => ReachExpr(e, r, n)
    case S(s) => ReachStmt(s, r, n)
  }

  function ReachCases(cs: Cases, lr: nat, ln: nat, r: nat, n: nat): nat
    decreases cs
  {
    match cs
    case Otherwise(b) => ReachNode(b, r, n)
    case CCons(c, b, tail) =>
      Max(ReachExpr(c, lr, ln), Max(ReachNode(b, r, n), ReachCases(tail, lr, ln, r, n)))
  }

  function ReachBind(b: Binding, r: nat, n: nat): nat
    decreases b
  {
    match b
    case NewVar(_) => n + 1
    case Group(subs) => ReachBinds(subs, r, n)
    case Place(_, es) => ReachArgs(es, r, n)
    case _ => r
  }

  function ReachBinds(bs: Bindings, r: nat, n: nat): nat
    decreases bs
  {
    if bs.BNil? then r
    else
      var g := BindAlloc(bs.head);
      Max(ReachBind(bs.head, r, n), ReachBinds(bs.tail, Seen(r, n, g), n + g))
  }

  function ReachStmt(s: Stmt, r: nat, n: nat): nat
    decreases s
  {
    match s
    case NoOp => r
    case Block(ss) => ReachStmts(ss, r, n)
    case IfStmt(c, t, f) =>
      Max(ReachExpr(c, r, n), Max(ReachStmt(t, r, n), if f.Some? then ReachStmt(f.value, r, n) else r))
    case While(c, b) => Max(ReachExpr(c, r, n), ReachStmt(b, r, n))
    case InfiniteLoop(b) => ReachStmt(b, r, n)
    case ForEach(bind, e, b) =>
      var g := BindAlloc(bind);
      Max(ReachExpr(e, r, n), Max(ReachBind(bind, r, n), ReachStmt(b, Seen(r, n, g), n + g + 2)))
    case SwitchStmt(x, cs) => Max(ReachExpr(x, r, n), ReachCases(cs, 0, 0, r, n))
    case ConditionalStmt(cs) => ReachCases(cs, r, n, r, n)
    case Assign(bind, e) => Max(ReachExpr(e, r, n), ReachBind(bind, r, n))
    case ReturnStmt(e, _) => ReachExpr(e, r, n)
    case ThrowStmt(e) => ReachExpr(e, r, n)
    case YieldStmt(e) => ReachExpr(e, r, n)
    case CoReturnStmt(e) => ReachExpr(e, r, n)
  }

  function ReachStmts(ss: Stmts, r: nat, n: nat): nat
    decreases ss
  {
    if ss.SNil? then r
    else
      var g := Grows(ss.head);
      Max(ReachStmt(ss.head, r, n), ReachStmts(ss.tail, Seen(r, n, g), n + g))
  }

  /** Computed from declarations or read off the addresses: the same. */
  lemma {:induction false} ExprReaches(e: Expr, r: nat, n: nat)
    requires FitsExpr(e, r, n) && r <= n
    ensures ReachExpr(e, r, n) == Max(r, UsedExpr(e))
    decreases e
  {
    match e
    case Strict(_, es) => ArgsReach(es, r, n);
    case NullTest(x) => ExprReaches(x, r, n);
    case Logic(_, x, y) => ExprReaches(x, r, n); ExprReaches(y, r, n);
    case Ternary(c, t, f) => ExprReaches(c, r, n); ExprReaches(t, r, n); ExprReaches(f, r, n);
    case Conditional(cs) => CasesReach(cs, r, n, r, n);
    case Switch(x, cs) => ExprReaches(x, r, n); CasesReach(cs, 0, 0, r, n);
    case StructLit(ms) => MembersReach(ms, r, n);
    case MapLit(ps) => PairsReach(ps, r, n);
    case CallExpr(_, es) => ArgsReach(es, r, n);
    case InvokeExpr(x, es) => ExprReaches(x, r, n); ArgsReach(es, r, n);
    case InvokeMember(x, _, es) => ExprReaches(x, r, n); ArgsReach(es, r, n);
    case FxPointer(_, es) => ArgsReach(es, r, n);
    case Iife(_, body) => StmtReaches(body, r, n);
    case _ =>
  }

  lemma {:induction false} ArgsReach(es: Exprs, r: nat, n: nat)
    requires FitsArgs(es, r, n) && r <= n
    ensures ReachArgs(es, r, n) == Max(r, UsedArgs(es))
    decreases es
  {
    if es.ECons? { ExprReaches(es.head, r, n); ArgsReach(es.tail, r, n); }
  }

  lemma {:induction false} MembersReach(ms: Members, r: nat, n: nat)
    requires FitsMembers(ms, r, n) && r <= n
    ensures ReachMembers(ms, r, n) == Max(r, UsedMembers(ms))
    decreases ms
  {
    if ms.MCons? { ExprReaches(ms.e, r, n); MembersReach(ms.tail, r, n); }
  }

  lemma {:induction false} PairsReach(ps: Pairs, r: nat, n: nat)
    requires FitsPairs(ps, r, n) && r <= n
    ensures ReachPairs(ps, r, n) == Max(r, UsedPairs(ps))
    decreases ps
  {
    if ps.PCons? { ExprReaches(ps.key, r, n); ExprReaches(ps.val, r, n); PairsReach(ps.tail, r, n); }
  }

  lemma {:induction false} NodeReaches(x: Node, r: nat, n: nat)
    requires FitsNode(x, r, n) && r <= n
    ensures ReachNode(x, r, n) == Max(r, UsedNode(x))
    decreases x
  {
    match x
    case E(e) => ExprReaches(e, r, n);
    case S(s) => StmtReaches(s, r, n);
  }

  lemma {:induction false} CasesReach(cs: Cases, lr: nat, ln: nat, r: nat, n: nat)
    requires FitsCases(cs, lr, ln, r, n) && lr <= ln && r <= n && lr <= r
    ensures ReachCases(cs, lr, ln, r, n) == Max(r, UsedCases(cs))
    decreases cs
  {
    match cs
    case Otherwise(b) => NodeReaches(b, r, n);
    case CCons(c, b, tail) =>
      ExprReaches(c, lr, ln);
      NodeReaches(b, r, n);
      CasesReach(tail, lr, ln, r, n);
  }

  lemma {:induction false} BindReaches(b: Binding, r: nat, n: nat)
    requires FitsBind(b, r, n) && r <= n
    ensures ReachBind(b, r, n) == Max(r, UsedBind(b)) && (BindAlloc(b) > 0 ==> UsedBind(b) >= n + BindAlloc(b))
    decreases b
  {
    match b
    case Group(subs) => BindsReach(subs, r, n);
    case Place(_, es) => ArgsReach(es, r, n);
    case _ =>
  }

  lemma {:induction false} BindsReach(bs: Bindings, r: nat, n: nat)
    requires FitsBinds(bs, r, n) && r <= n
    ensures ReachBinds(bs, r, n) == Max(r, UsedBinds(bs))
        && (BindsAlloc(bs) > 0 ==> UsedBinds(bs) >= n + BindsAlloc(bs))
    decreases bs
  {
    if bs.BCons? {
      var g := BindAlloc(bs.head);
      BindReaches(bs.head, r, n);
      BindsReach(bs.tail, Seen(r, n, g), n + g);
    }
  }

  lemma {:induction false} StmtReaches(s: Stmt, r: nat, n: nat)
    requires FitsStmt(s, r, n) && r <= n
    ensures ReachStmt(s, r, n) == Max(r, UsedStmt(s)) && (Grows(s) > 0 ==> UsedStmt(s) >= n + Grows(s))
    decreases s, 1
  {
    hide FitsExpr, ReachExpr, UsedExpr, FitsCases, ReachCases, UsedCases, FitsBind, ReachBind, UsedBind,
      FitsStmts, ReachStmts, UsedStmts, BindAlloc, CasesGrow;
    match s
    case NoOp =>
    case Block(ss) => StmtsReach(ss, r, n);
    case IfStmt(_, _, _) => IfReaches(s, r, n);
    case While(c, b) => ExprReaches(c, r, n); StmtReaches(b, r, n);
    case InfiniteLoop(b) => StmtReaches(b, r, n);
    case ForEach(_, _, _) => ForEachReaches(s, r, n);
    case SwitchStmt(x, cs) => ExprReaches(x, r, n); CasesReach(cs, 0, 0, r, n); DefaultReaches(cs, 0, 0, r, n);
    case ConditionalStmt(cs) => CasesReach(cs, r, n, r, n);
    case Assign(bind, e) => ExprReaches(e, r, n); BindReaches(bind, r, n);
    case ReturnStmt(e, _) => ExprReaches(e, r, n);
    case ThrowStmt(e) => ExprReaches(e, r, n);
    case YieldStmt(e) => ExprReaches(e, r, n);
    case CoReturnStmt(e) => ExprReaches(e, r, n);
  }

  lemma {:induction false} IfReaches(s: Stmt, r: nat, n: nat)
    requires s.IfStmt? && FitsStmt(s, r, n) && r <= n
    ensures ReachStmt(s, r, n) == Max(r, UsedStmt(s))
    decreases s, 0
  {
    hide FitsExpr, ReachExpr, UsedExpr;
    ExprReaches(s.cond, r, n);
    StmtReaches(s.thn, r, n);
    if s.els.Some? { StmtReaches(s.els.value, r, n); }
  }

  lemma {:induction false} ForEachReaches(s: Stmt, r: nat, n: nat)
    requires s.ForEach? && FitsStmt(s, r, n) && r <= n
    ensures ReachStmt(s, r, n) == Max(r, UsedStmt(s))
    decreases s, 0
  {
    hide FitsExpr, ReachExpr, UsedExpr, FitsBind, ReachBind, UsedBind, BindAlloc;
    var g := BindAlloc(s.bind);
    ExprReaches(s.e, r, n);
    BindReaches(s.bind, r, n);
    StmtReaches(s.body, Seen(r, n, g), n + g + 2);
  }

  lemma {:induction false} DefaultReaches(cs: Cases, lr: nat, ln: nat, r: nat, n: nat)
    requires FitsCases(cs, lr, ln, r, n) && r <= n
    ensures CasesGrow(cs) > 0 ==> UsedCases(cs) >= n + CasesGrow(cs)
    decreases cs
  {
    match cs
    case Otherwise(E(_)) =>
    case Otherwise(S(s)) => StmtReaches(s, r, n); assert UsedNode(S(s)) == UsedStmt(s);
    case CCons(_, _, tail) => DefaultReaches(tail, lr, ln, r, n);
  }

  lemma {:induction false} StmtsReach(ss: Stmts, r: nat, n: nat)
    requires FitsStmts(ss, r, n) && r <= n
    ensures ReachStmts(ss, r, n) == Max(r, UsedStmts(ss))
    decreases ss
  {
    if ss.SCons? {
      var g := Grows(ss.head);
      StmtReaches(ss.head, r, n);
      StmtsReach(ss.tail, Seen(r, n, g), n + g);
    }
  }

  /** Calls and function pointers find the same functions in both programs. */
  ghost predicate Alike(u: Source, v: Source) {
    && |u.env.fns| == |v.env.fns|
    && (forall l :: FindFn(u.env.fns, l) == FindFn(v.env.fns, l))
    && (forall f :: 0 <= f < |u.env.fns| ==> Arity(u.env.fns[f]) == Arity(v.env.fns[f]))
  }

  /** A tree that makes sense in some frame makes sense in another just when that one has
      the slots the tree mentions. */
  lemma {:induction false} ExprExactly(u: Source, v: Source, sh: Shape, e: Expr, slots: nat, m: nat)
    requires Alike(u, v) && WfExpr(u, sh, e, slots)
    ensures WfExpr(v, sh, e, m) <==> UsedExpr(e) <= m
    decreases e
  {
    hide WfStmt, UsedStmt, WfCases, UsedCases;
    match e
    case Strict(_, es) => ArgsExactly(u, v, sh, es, slots, m);
    case NullTest(x) => ExprExactly(u, v, sh, x, slots, m);
    case Logic(_, l, r) => ExprExactly(u, v, sh, l, slots, m); ExprExactly(u, v, sh, r, slots, m);
    case Ternary(c, t, f) =>
      ExprExactly(u, v, sh, c, slots, m);
      ExprExactly(u, v, sh, t, slots, m);
      ExprExactly(u, v, sh, f, slots, m);
    case Conditional(cs) => CasesExactly(u, v, sh, cs, slots, None, m);
    case Switch(x, cs) => ExprExactly(u, v, sh, x, slots, m); CasesExactly(u, v, sh, cs, slots, None, m);
    case StructLit(ms) => MembersExactly(u, v, sh, ms, slots, m);
    case MapLit(ps) => PairsExactly(u, v, sh, ps, slots, m);
    case CallExpr(_, es) => ArgsExactly(u, v, sh, es, slots, m);
    case InvokeExpr(x, es) => ExprExactly(u, v, sh, x, slots, m); ArgsExactly(u, v, sh, es, slots, m);
    case InvokeMember(x, _, es) => ExprExactly(u, v, sh, x, slots, m); ArgsExactly(u, v, sh, es, slots, m);
    case FxPointer(_, es) => ArgsExactly(u, v, sh, es, slots, m);
    case Iife(x, body) => StmtExactly(u, v, sh, body, slots, {x}, m);
    case _ =>
  }

  lemma {:induction false} ArgsExactly(u: Source, v: Source, sh: Shape, es: Exprs, slots: nat, m: nat)
    requires Alike(u, v) && WfExprs(u, sh, es, slots)
    ensures WfExprs(v, sh, es, m) <==> UsedArgs(es) <= m
    decreases es
  {
    if es.ECons? { ExprExactly(u, v, sh, es.head, slots, m); ArgsExactly(u, v, sh, es.tail, slots, m); }
  }

  lemma {:induction false} MembersExactly(u: Source, v: Source, sh: Shape, ms: Members, slots: nat, m: nat)
    requires Alike(u, v) && WfMembers(u, sh, ms, slots)
    ensures WfMembers(v, sh, ms, m) <==> UsedMembers(ms) <= m
    decreases ms
  {
    if ms.MCons? { ExprExactly(u, v, sh, ms.e, slots, m); MembersExactly(u, v, sh, ms.tail, slots, m); }
  }

  lemma {:induction false} PairsExactly(u: Source, v: Source, sh: Shape, ps: Pairs, slots: nat, m: nat)
    requires Alike(u, v) && WfPairs(u, sh, ps, slots)
    ensures WfPairs(v, sh, ps, m) <==> UsedPairs(ps) <= m
    decreases ps
  {
    if ps.PCons? {
      ExprExactly(u, v, sh, ps.key, slots, m);
      ExprExactly(u, v, sh, ps.val, slots, m);
      PairsExactly(u, v, sh, ps.tail, slots, m);
    }
  }

  lemma {:induction false} NodeExactly(
    u: Source, v: Source, sh: Shape, x: Node, slots: nat, targets: Option<set<Label>>, m: nat)
    requires Alike(u, v) && WfNode(u, sh, x, slots, targets)
    ensures WfNode(v, sh, x, m, targets) <==> UsedNode(x) <= m
    decreases x
  {
    match x
    case E(e) => ExprExactly(u, v, sh, e, slots, m);
    case S(s) => StmtExactly(u, v, sh, s, slots, targets.value, m);
  }

  lemma {:induction false} CasesExactly(
    u: Source, v: Source, sh: Shape, cs: Cases, slots: nat, targets: Option<set<Label>>, m: nat)
    requires Alike(u, v) && WfCases(u, sh, cs, slots, targets)
    ensures WfCases(v, sh, cs, m, targets) <==> UsedCases(cs) <= m
    decreases cs
  {
    match cs
    case Otherwise(b) => NodeExactly(u, v, sh, b, slots, targets, m);
    case CCons(c, b, tail) =>
      ExprExactly(u, v, sh, c, slots, m);
      NodeExactly(u, v, sh, b, slots, targets, m);
      CasesExactly(u, v, sh, tail, slots, targets, m);
  }

  lemma {:induction false} BindExactly(u: Source, v: Source, sh: Shape, b: Binding, slots: nat, m: nat)
    requires Alike(u, v) && WfBinding(u, sh, b, slots)
    ensures WfBinding(v, sh, b, m) <==> UsedBind(b) <= m
    decreases b
  {
    match b
    case Group(subs) => BindsExactly(u, v, sh, subs, slots, m);
    case Place(_, es) => ArgsExactly(u, v, sh, es, slots, m);
    case _ =>
  }

  lemma {:induction false} BindsExactly(u: Source, v: Source, sh: Shape, bs: Bindings, slots: nat, m: nat)
    requires Alike(u, v) && WfBindings(u, sh, bs, slots)
    ensures WfBindings(v, sh, bs, m) <==> UsedBinds(bs) <= m
    decreases bs
  {
    if bs.BCons? { BindExactly(u, v, sh, bs.head, slots, m); BindsExactly(u, v, sh, bs.tail, slots, m); }
  }

  lemma {:induction false} StmtExactly(
    u: Source, v: Source, sh: Shape, s: Stmt, slots: nat, targets: set<Label>, m: nat)
    requires Alike(u, v) && WfStmt(u, sh, s, slots, targets)
    ensures WfStmt(v, sh, s, m, targets) <==> UsedStmt(s) <= m
    decreases s
  {
    hide WfExpr, UsedExpr, WfCases, UsedCases, WfBinding, UsedBind;
    match s
    case NoOp =>
    case Block(ss) => StmtsExactly(u, v, sh, ss, slots, targets, m);
    case IfStmt(c, t, f) =>
      ExprExactly(u, v, sh, c, slots, m);
      StmtExactly(u, v, sh, t, slots, targets, m);
      if f.Some? { StmtExactly(u, v, sh, f.value, slots, targets, m); }
    case While(c, b) => ExprExactly(u, v, sh, c, slots, m); StmtExactly(u, v, sh, b, slots, targets, m);
    case InfiniteLoop(b) => StmtExactly(u, v, sh, b, slots, targets, m);
    case ForEach(bind, e, b) =>
      ExprExactly(u, v, sh, e, slots, m);
      BindExactly(u, v, sh, bind, slots, m);
      StmtExactly(u, v, sh, b, slots, {}, m);
    case SwitchStmt(x, cs) =>
      ExprExactly(u, v, sh, x, slots, m);
      CasesExactly(u, v, sh, cs, slots, Some(targets), m);
    case ConditionalStmt(cs) => CasesExactly(u, v, sh, cs, slots, Some(targets), m);
    case Assign(bind, e) => ExprExactly(u, v, sh, e, slots, m); BindExactly(u, v, sh, bind, slots, m);
    case ReturnStmt(e, _) => ExprExactly(u, v, sh, e, slots, m);
    case ThrowStmt(e) => ExprExactly(u, v, sh, e, slots, m);
    case YieldStmt(e) => ExprExactly(u, v, sh, e, slots, m);
    case CoReturnStmt(e) => ExprExactly(u, v, sh, e, slots, m);
  }

  lemma {:induction false} StmtsExactly(
    u: Source, v: Source, sh: Shape, ss: Stmts, slots: nat, targets: set<Label>, m: nat)
    requires Alike(u, v) && WfStmts(u, sh, ss, slots, targets)
    ensures WfStmts(v, sh, ss, m, targets) <==> UsedStmts(ss) <= m
    decreases ss
  {
    if ss.SCons? {
      StmtExactly(u, v, sh, ss.head, slots, targets, m);
      StmtsExactly(u, v, sh, ss.tail, slots, targets, m);
    }
  }

  /** The frame bound, exactly: entered with n variables and given the slots it counts, a
      statement uses no slot outside its frame just when it reaches no further. */
  lemma StmtBoundExactly(u: Source, v: Source, sh: Shape, s: Stmt, slots: nat, targets: set<Label>, n: nat)
    requires Alike(u, v) && WfStmt(u, sh, s, slots, targets) && FitsStmt(s, n, n)
    ensures WfStmt(v, sh, s, n + TotalAlloc(s), targets) <==> ReachStmt(s, n, n) <= n + TotalAlloc(s)
  {
    hide WfStmt, FitsStmt, ReachStmt, UsedStmt, TotalAlloc;
    StmtExactly(u, v, sh, s, slots, targets, n + TotalAlloc(s));
    StmtReaches(s, n, n);
  }

  lemma ExprBoundExactly(u: Source, v: Source, sh: Shape, e: Expr, slots: nat, n: nat)
    requires Alike(u, v) && WfExpr(u, sh, e, slots) && FitsExpr(e, n, n)
    ensures WfExpr(v, sh, e, n + ExprAlloc(e)) <==> ReachExpr(e, n, n) <= n + ExprAlloc(e)
  {
    hide WfExpr, FitsExpr, ReachExpr, UsedExpr, ExprAlloc;
    ExprExactly(u, v, sh, e, slots, n + ExprAlloc(e));
    ExprReaches(e, n, n);
  }

  /** Where the count leaves something out, a variable there gets a slot nobody allocates:
      in a last arm that is itself a declaration, in a block under a member read, and in
      a default that is itself a declaration. */
  lemma UncountedLastArm(n: nat)
    ensures var s := ConditionalStmt(Otherwise(S(Assign(NewVar(n), Lit(NullLit)))));
      FitsStmt(s, n, n) && ReachStmt(s, n, n) == n + TotalAlloc(s) + 1
  {
    var d := Assign(NewVar(n), Lit(NullLit));
    assert FitsStmt(d, n, n) && ReachStmt(d, n, n) == n + 1;
    assert FitsNode(S(d), n, n) && ReachNode(S(d), n, n) == n + 1;
    assert FitsCases(Otherwise(S(d)), n, n, n, n) && ReachCases(Otherwise(S(d)), n, n, n, n) == n + 1;
    assert TemporaryAlloc(d) == 0 && NodeTemporary(S(d)) == 0 && CascadeAlloc(Otherwise(S(d))) == 0;
  }

  lemma UncountedDefault(n: nat)
    ensures var s := SwitchStmt(Lit(NullLit), Otherwise(S(Assign(NewVar(n), Lit(NullLit)))));
      FitsStmt(s, n, n) && ReachStmt(s, n, n) == n + TotalAlloc(s) + 1 && Grows(s) == PersistentAlloc(s) + 1
  {
    var d := Assign(NewVar(n), Lit(NullLit));
    assert FitsStmt(d, n, n) && ReachStmt(d, n, n) == n + 1 && Grows(d) == 1;
    assert FitsNode(S(d), n, n) && ReachNode(S(d), n, n) == n + 1;
    assert FitsCases(Otherwise(S(d)), 0, 0, n, n) && ReachCases(Otherwise(S(d)), 0, 0, n, n) == n + 1;
    assert CasesGrow(Otherwise(S(d))) == 1 && CasesTemporary(Otherwise(S(d))) == 0
        && CasesPersistent(Otherwise(S(d))) == 0;
  }

  lemma UncountedMemberRead(x: Label, n: nat)
    ensures var e := Strict(Member(0), ECons(Iife(x, Assign(NewVar(n), Lit(NullLit))), ENil));
      FitsExpr(e, n, n) && ReachExpr(e, n, n) == n + ExprAlloc(e) + 1
  {
    var d := Assign(NewVar(n), Lit(NullLit));
    var es := ECons(Iife(x, d), ENil);
    assert FitsStmt(d, n, n) && ReachStmt(d, n, n) == n + 1;
    assert FitsExpr(es.head, n, n) && ReachExpr(es.head, n, n) == n + 1;
    assert FitsArgs(es.tail, n, n) && ReachArgs(es.tail, n, n) == n;
    assert FitsArgs(es, n, n) && ReachArgs(es, n, n) == n + 1;
  }

  /** No variables where the count does not look: under member reads, in captures, in what
      is assigned to, in the subject and the default of a switch; and no last arm that is
      itself a declaration. */
  predicate PlainExpr(e: Expr)
    decreases e
  {
    match e
    case Strict(node, es) => PlainArgs(es) && (node.Member? ==> ArgsAlloc(es) == 0)
    case NullTest(x) => PlainExpr(x)
    case Logic(_, l, r) => PlainExpr(l) && PlainExpr(r)
    case Ternary(c, t, f) => PlainExpr(c) && PlainExpr(t) && PlainExpr(f)
    case Conditional(cs) => PlainCases(cs)
    case Switch(x, cs) => PlainExpr(x) && ExprAlloc(x) == 0 && PlainSwitch(cs) && CasesPersistent(cs) == 0
    case StructLit(ms) => PlainMembers(ms)
    case MapLit(ps) => PlainPairs(ps)
    case CallExpr(_, es) => PlainArgs(es)
    case InvokeExpr(x, es) => PlainExpr(x) && PlainArgs(es)
    case InvokeMember(x, _, es) => PlainExpr(x) && PlainArgs(es)
    case FxPointer(_, es) => PlainArgs(es) && ArgsAlloc(es) == 0
    case Iife(_, body) => PlainStmt(body)
    case _ => true
  }

  predicate PlainArgs(es: Exprs)
    decreases es
  {
    es.ECons? ==> PlainExpr(es.head) && PlainArgs(es.tail)
  }

  predicate PlainMembers(ms: Members)
    decreases ms
  {
    ms.MCons? ==> PlainExpr(ms.e) && PlainMembers(ms.tail)
  }

  predicate PlainPairs(ps: Pairs)
    decreases ps
  {
    ps.PCons? ==> PlainExpr(ps.key) && PlainExpr(ps.val) && PlainPairs(ps.tail)
  }

  predicate PlainNode(x: Node)
    decreases x
  {
    match x
    case E(e) => PlainExpr(e)
    case S(s) => PlainStmt(s)
  }

  predicate PlainCases(cs: Cases)
    decreases cs
  {
    match cs
    case Otherwise(b) => PlainNode(b) && NodePersistent(b) == 0
    case CCons(c, b, tail) => PlainExpr(c) && PlainNode(b) && PlainCases(tail)
  }

  predicate PlainSwitch(cs: Cases)
    decreases cs
  {
    match cs
    case Otherwise(b) => PlainNode(b) && NodeTotal(b) == 0
    case CCons(c, b, tail) => PlainExpr(c) && PlainNode(b) && PlainSwitch(tail)
  }

  predicate PlainBind(b: Binding)
    decreases b
  {
    match b
    case Group(subs) => PlainBinds(subs)
    case Place(_, es) => PlainArgs(es) && ArgsAlloc(es) == 0
    case _ => true
  }

  predicate PlainBinds(bs: Bindings)
    decreases bs
  {
    bs.BCons? ==> PlainBind(bs.head) && PlainBinds(bs.tail)
  }

  predicate PlainStmt(s: Stmt)
    decreases s
  {
    match s
    case NoOp => true
    case Block(ss) => PlainStmts(ss)
    case IfStmt(c, t, f) => PlainExpr(c) && PlainStmt(t) && (f.Some? ==> PlainStmt(f.value))
    case While(c, b) => PlainExpr(c) && PlainStmt(b)
    case InfiniteLoop(b) => PlainStmt(b)
    case ForEach(bind, e, b) => PlainBind(bind) && PlainExpr(e) && PlainStmt(b)
    case SwitchStmt(x, cs) => PlainExpr(x) && ExprAlloc(x) == 0 && PlainSwitch(cs)
    case ConditionalStmt(cs) => PlainCases(cs)
    case Assign(bind, e) => PlainBind(bind) && PlainExpr(e)
    case ReturnStmt(e, _) => PlainExpr(e)
    case ThrowStmt(e) => PlainExpr(e)
    case YieldStmt(e) => PlainExpr(e)
    case CoReturnStmt(e) => PlainExpr(e)
  }

  predicate PlainStmts(ss: Stmts)
    decreases ss
  {
    ss.SCons? ==> PlainStmt(ss.head) && PlainStmts(ss.tail)
  }

  /** Plain trees reach no further than they count. */
  lemma {:induction false} ExprBound(e: Expr, r: nat, n: nat)
    requires PlainExpr(e) && r <= n
    ensures ReachExpr(e, r, n) <= n + ExprAlloc(e)
    decreases e
  {
    match e
    case Strict(_, es) => ArgsBound(es, r, n);
    case NullTest(x) => ExprBound(x, r, n);
    case Logic(_, x, y) => ExprBound(x, r, n); ExprBound(y, r, n);
    case Ternary(c, t, f) => ExprBound(c, r, n); ExprBound(t, r, n); ExprBound(f, r, n);
    case Conditional(cs) => CasesBound(cs, r, n);
    case Switch(x, cs) => ExprBound(x, r, n); SwitchBound(cs, r, n);
    case StructLit(ms) => MembersBound(ms, r, n);
    case MapLit(ps) => PairsBound(ps, r, n);
    case CallExpr(_, es) => ArgsBound(es, r, n);
    case InvokeExpr(x, es) => ExprBound(x, r, n); ArgsBound(es, r, n);
    case InvokeMember(x, _, es) => ExprBound(x, r, n); ArgsBound(es, r, n);
    case FxPointer(_, es) => ArgsBound(es, r, n);
    case Iife(_, body) => StmtBound(body, r, n);
    case _ =>
  }

  lemma {:induction false} ArgsBound(es: Exprs, r: nat, n: nat)
    requires PlainArgs(es) && r <= n
    ensures ReachArgs(es, r, n) <= n + ArgsAlloc(es)
    decreases es
  {
    if es.ECons? { ExprBound(es.head, r, n); ArgsBound(es.tail, r, n); }
  }

  lemma {:induction false} MembersBound(ms: Members, r: nat, n: nat)
    requires PlainMembers(ms) && r <= n
    ensures ReachMembers(ms, r, n) <= n + MembersAlloc(ms)
    decreases ms
  {
    if ms.MCons? { ExprBound(ms.e, r, n); MembersBound(ms.tail, r, n); }
  }

  lemma {:induction false} PairsBound(ps: Pairs, r: nat, n: nat)
    requires PlainPairs(ps) && r <= n
    ensures ReachPairs(ps, r, n) <= n + PairsAlloc(ps)
    decreases ps
  {
    if ps.PCons? { ExprBound(ps.key, r, n); ExprBound(ps.val, r, n); PairsBound(ps.tail, r, n); }
  }

  lemma {:induction false} NodeBound(x: Node, r: nat, n: nat)
    requires PlainNode(x) && r <= n
    ensures ReachNode(x, r, n) <= n + NodeTotal(x)
    decreases x
  {
    match x
    case E(e) => ExprBound(e, r, n);
    case S(s) => StmtBound(s, r, n);
  }

  lemma {:induction false} CasesBound(cs: Cases, r: nat, n: nat)
    requires PlainCases(cs) && r <= n
    ensures ReachCases(cs, r, n, r, n) <= n + CascadeAlloc(cs)
    decreases cs
  {
    match cs
    case Otherwise(b) => NodeBound(b, r, n);
    case CCons(c, b, tail) =>
      ExprBound(c, r, n);
      NodeBound(b, r, n);
      CasesBound(tail, r, n);
  }

  /** Labels see no variables, and the default declares none. */
  lemma {:induction false} SwitchBound(cs: Cases, r: nat, n: nat)
    requires PlainSwitch(cs) && r <= n
    ensures ReachCases(cs, 0, 0, r, n) <= n + CasesTemporary(cs) + CasesPersistent(cs) && CasesGrow(cs) == 0
    decreases cs
  {
    match cs
    case Otherwise(b) =>
      NodeBound(b, r, n);
      if b.S? { StmtBound(b.s, r, n); }
    case CCons(c, b, tail) =>
      ExprBound(c, 0, 0);
      NodeBound(b, r, n);
      SwitchBound(tail, r, n);
  }

  lemma {:induction false} BindBound(b: Binding, r: nat, n: nat)
    requires PlainBind(b) && r <= n
    ensures ReachBind(b, r, n) <= n + BindAlloc(b)
    decreases b
  {
    match b
    case Group(subs) => BindsBound(subs, r, n);
    case Place(_, es) => ArgsBound(es, r, n);
    case _ =>
  }

  lemma {:induction false} BindsBound(bs: Bindings, r: nat, n: nat)
    requires PlainBinds(bs) && r <= n
    ensures ReachBinds(bs, r, n) <= n + BindsAlloc(bs)
    decreases bs
  {
    if bs.BCons? {
      var g := BindAlloc(bs.head);
      BindBound(bs.head, r, n);
      BindsBound(bs.tail, Seen(r, n, g), n + g);
    }
  }

  lemma {:induction false} StmtBound(s: Stmt, r: nat, n: nat)
    requires PlainStmt(s) && r <= n
    ensures ReachStmt(s, r, n) <= n + TotalAlloc(s) && Grows(s) == PersistentAlloc(s)
    decreases s
  {
    hide PlainExpr, ReachExpr, ExprAlloc, PlainBind, ReachBind, BindAlloc, PlainCases, ReachCases, CascadeAlloc,
      PlainSwitch, CasesTemporary, CasesPersistent, CasesGrow;
    match s
    case NoOp =>
    case Block(ss) => StmtsBound(ss, r, n);
    case IfStmt(c, t, f) =>
      ExprBound(c, r, n);
      StmtBound(t, r, n);
      if f.Some? { StmtBound(f.value, r, n); }
    case While(c, b) => ExprBound(c, r, n); StmtBound(b, r, n);
    case InfiniteLoop(b) => StmtBound(b, r, n);
    case ForEach(bind, e, b) =>
      var g := BindAlloc(bind);
      ExprBound(e, r, n);
      BindBound(bind, r, n);
      StmtBound(b, Seen(r, n, g), n + g + 2);
    case SwitchStmt(x, cs) => ExprBound(x, r, n); SwitchBound(cs, r, n);
    case ConditionalStmt(cs) => CasesBound(cs, r, n);
    case Assign(bind, e) => ExprBound(e, r, n); BindBound(bind, r, n);
    case ReturnStmt(e, _) => ExprBound(e, r, n);
    case ThrowStmt(e) => ExprBound(e, r, n);
    case YieldStmt(e) => ExprBound(e, r, n);
    case CoReturnStmt(e) => ExprBound(e, r, n);
  }

  lemma {:induction false} StmtsBound(ss: Stmts, r: nat, n: nat)
    requires PlainStmts(ss) && r <= n
    ensures ReachStmts(ss, r, n) <= n + StmtsTemporary(ss) + StmtsPersistent(ss)
    decreases ss
  {
    if ss.SCons? {
      var g := Grows(ss.head);
      StmtBound(ss.head, r, n);
      StmtsBound(ss.tail, Seen(r, n, g), n + g);
    }
  }
}
