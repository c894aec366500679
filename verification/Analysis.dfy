/** Analysis of statements over scopes: when it succeeds, and that the trees it makes
    declare and read the slots that the frame bound counts on. */
module Analysis {
  import opened Values
  import opened Sst
  import opened Frames
  import OptimizedFrames
  import opened Syntax
  import opened Scopes
  import opened NamesToSlots

  /** All names in the expression are known. */
  predicate ScopedExpr(ast: ExprAst, known: set<string>) {
    match ast
    case LitAst(_) => true
    case VarAst(name) => name in known
    case UnaryAst(_, e) => ScopedExpr(e, known)
    case BinaryAst(_, l, r) => ScopedExpr(l, known) && ScopedExpr(r, known)
  }

  /** A statement in a scope that has the names own, where it sees the names known; the
      definitions and globals are seen everywhere. */
  ghost predicate Scoped(ast: StmtAst, own: set<string>, known: set<string>, statics: set<string>)
    decreases ast
  {
    match ast
    case NoOpAst => true
    case ExprStmtAst(e) => ScopedExpr(e, known + statics)
    case VarStmtAst(bind, init) => ScopedExpr(init, known + statics) && Distinct(Names(bind), own)
    case AssignAst(name, e) => name in known + statics && ScopedExpr(e, known + statics)
    case BlockAst(stmts) => ScopedAll(stmts, {}, known, statics)
    case IfAst(c, t, f) =>
      && ScopedExpr(c, known + statics) && Scoped(t, {}, known, statics)
      && (f.Some? ==> Scoped(f.value, {}, known, statics))
    case WhileAst(c, b) => ScopedExpr(c, known + statics) && Scoped(b, {}, known, statics)
    case LoopAst(b) => Scoped(b, {}, known, statics)
    case SwitchAst(x, cases, other) =>
      && ScopedExpr(x, known + statics) && Scoped(other, own, known, statics)
      && forall i :: 0 <= i < |cases| ==> CaseScoped(cases[i], known, statics)
    case ThrowAst(e) => ScopedExpr(e, known + statics)
  }

  /** The label of a case sees no local variable. */
  ghost predicate CaseScoped(ast: (ExprAst, StmtAst), known: set<string>, statics: set<string>)
    decreases ast
  {
    ScopedExpr(ast.0, statics) && Scoped(ast.1, {}, known, statics)
  }

  ghost predicate ScopedAll(stmts: seq<StmtAst>, own: set<string>, known: set<string>, statics: set<string>)
    decreases stmts
  {
    stmts != [] ==>
      var more := Adds(stmts[0]);
      Scoped(stmts[0], own, known, statics) && ScopedAll(stmts[1..], own + more, known + more, statics)
  }

  /** No name is there twice, and the scope has none of them. */
  ghost predicate Distinct(names: seq<string>, own: set<string>) {
    && (forall i, j :: 0 <= i < j < |names| ==> names[i] != names[j])
    && (forall i :: 0 <= i < |names| ==> names[i] !in own)
  }

  /** A variable of the scope, else a definition or global; None if there is neither. */
  function Named(name: string, scope: Scope, statics: map<string, nat>): (r: Option<Expr>)
    requires scope.Valid() && scope.Packed()
    reads scope.chain
    ensures r.Some? <==> name in scope.Known() + statics.Keys
    ensures r.Some? ==> FitsExpr(r.value, scope.Size(), scope.Size()) && (r.value.Var? || r.value.GlobalVar?)
    ensures r.Some? ==> Stands(name, r.value, scope.Stack(), statics)
  {
    scope.ResolveBelowSize(name);
    scope.ResolveIsLevel(name);
    scope.KnownResolves(name);
    if scope.Resolve(name).Some? then Some(Var(scope.Resolve(name).value))
    else if name in statics then Some(GlobalVar(statics[name])) else None
  }

  /** analyze_expression: fails just on names that are unknown, reads only variables in
      scope, and the tree means what the expression means. */
  function AnalyzeExpression(ast: ExprAst, scope: Scope, statics: map<string, nat>): (r: Option<Expr>)
    requires scope.Valid() && scope.Packed()
    reads scope.chain
    ensures r.Some? <==> ScopedExpr(ast, scope.Known() + statics.Keys)
    ensures r.Some? ==> FitsExpr(r.value, scope.Size(), scope.Size())
    ensures r.Some? ==> ExprMeans(ast, r.value, scope.Stack(), statics)
    decreases ast
  {
    match ast
    case LitAst(lit) =>
      LitMeans(lit, scope.Stack(), statics);
      Some(Lit(lit))
    case VarAst(name) =>
      var e := Named(name, scope, statics);
      if e.None? then None
      else
        NameMeans(name, e.value, scope.Stack(), statics);
        e
    case UnaryAst(op, e) =>
      var x := AnalyzeExpression(e, scope, statics);
      if x.None? then None
      else
        assert FitsArgs(ENil, scope.Size(), scope.Size());
        UnaryMeans(e, x.value, op, scope.Stack(), statics);
        Some(Strict(Unary(op), ECons(x.value, ENil)))
    case BinaryAst(op, l, r) =>
      var x, y := AnalyzeExpression(l, scope, statics), AnalyzeExpression(r, scope, statics);
      if x.None? || y.None? then None
      else
        assert FitsArgs(ECons(y.value, ENil), scope.Size(), scope.Size());
        BinaryMeans(l, r, x.value, y.value, op, scope.Stack(), statics);
        Some(Strict(Binary(op), ECons(x.value, ECons(y.value, ENil))))
  }

  /** Variables can be assigned to. */
  function AsBinding(e: Expr): Binding
    requires e.Var? || e.GlobalVar?
  {
    if e.Var? then Local(e.addr) else Global(e.addr)
  }

  /** How many variables statements declare in their scope. */
  function GrowsAll(ss: Stmts): nat {
    if ss.SNil? then 0 else Grows(ss.head) + GrowsAll(ss.tail)
  }

  lemma {:induction false} AppendStmtFits(ss: Stmts, s: Stmt, n: nat)
    requires FitsStmts(ss, n, n) && FitsStmt(s, n + GrowsAll(ss), n + GrowsAll(ss))
    ensures FitsStmts(AppendStmt(ss, s), n, n) && GrowsAll(AppendStmt(ss, s)) == GrowsAll(ss) + Grows(s)
    decreases ss
  {
    if ss.SCons? {
      AppendStmtFits(ss.tail, s, n + Grows(ss.head));
    } else {
      assert FitsStmts(SNil, n + Grows(s), n + Grows(s)) && GrowsAll(SNil) == 0;
    }
  }

  /** Labels read no local variable, bodies have scopes of their own. */
  predicate CasesFit(cs: seq<(Expr, Stmt)>, n: nat) {
    forall i :: 0 <= i < |cs| ==> FitsExpr(cs[i].0, 0, 0) && FitsStmt(cs[i].1, n, n)
  }

  lemma {:induction false} MakeCasesFits(cs: seq<(Expr, Stmt)>, other: Stmt, n: nat)
    requires CasesFit(cs, n) && FitsStmt(other, n, n)
    ensures FitsCases(MakeCases(cs, other), 0, 0, n, n)
    ensures CasesGrow(MakeCases(cs, other)) == Grows(other)
    decreases |cs|
  {
    if cs != [] { MakeCasesFits(cs[1..], other, n); }
  }

  lemma OneMoreCase(cs: seq<(Expr, Stmt)>, c: Expr, b: Stmt, n: nat)
    requires CasesFit(cs, n) && FitsExpr(c, 0, 0) && FitsStmt(b, n, n)
    ensures CasesFit(cs + [(c, b)], n)
  {
  }

  lemma SwitchFits(x: Expr, cs: seq<(Expr, Stmt)>, other: Stmt, n: nat, size: nat)
    requires FitsExpr(x, n, n) && CasesFit(cs, n) && Sound(other, n, size)
    ensures Sound(SwitchStmt(x, MakeCases(cs, other)), n, size)
  {
    MakeCasesFits(cs, other, n);
  }

  /** The tree s that statement ast became where the next free slot was n. */
  ghost predicate Sound(s: Stmt, n: nat, size: nat) {
    FitsStmt(s, n, n) && size == n + Grows(s)
  }

  lemma AssignSound(b: Binding, e: Expr, n: nat)
    requires b.Discard? || b.Global? || (b.Local? && b.addr < n)
    requires FitsExpr(e, n, n)
    ensures Sound(Assign(b, e), n, n)
  {
    assert BindAlloc(b) == 0;
  }

  /** analyze_statement: None, a compile error, just where a name is unknown or declared
      twice in a scope. */
  method AnalyzeStatement(ast: StmtAst, scope: Scope, statics: map<string, nat>) returns (r: Option<Stmt>)
    requires scope.Valid() && scope.Packed()
    modifies scope
    ensures scope.Valid() && scope.Packed()
    ensures r.Some? <==> Scoped(ast, old(scope.vars.Keys), old(scope.Known()), statics.Keys)
    ensures r.Some? ==> Sound(r.value, old(scope.Size()), scope.Size())
    ensures r.Some? ==> Wider(old(scope.vars), scope.vars, Adds(ast), UsedStmt(r.value))
    ensures r.Some? ==> StmtMeans(ast, r.value, old(scope.Stack()), scope.Stack(), statics)
    decreases ast, 2
  {
    hide Declarable, Declared, Distinct, Named, StmtMeans, ExprMeans, UsedStmt, Scope.Valid, Scope.Packed, Scope.Size,
      Scope.Base, Scope.Known, Scope.Resolve, Scope.Stack, Scope.Beneath;
    match ast
    case NoOpAst =>
      NoOpMeans(scope.Stack(), statics);
      r := Some(NoOp);
    case ExprStmtAst(e) =>
      var x := AnalyzeExpression(e, scope, statics);
      if x.None? { return None; }
      AssignSound(Discard, x.value, scope.Size());
      ExprStmtMeans(e, x.value, scope.Stack(), statics);
      r := Some(Assign(Discard, x.value));
    case VarStmtAst(_, _) => r := AnalyzeVar(ast, scope, statics);
    case AssignAst(name, e) => r := AnalyzeAssign(ast, scope, statics);
    case BlockAst(_) => r := AnalyzeBlock(ast, scope, statics);
    case IfAst(_, _, _) => r := AnalyzeIf(ast, scope, statics);
    case WhileAst(_, _) => r := AnalyzeLoop(ast, scope, statics);
    case LoopAst(_) => r := AnalyzeLoop(ast, scope, statics);
    case SwitchAst(_, _, _) => r := AnalyzeSwitch(ast, scope, statics);
    case ThrowAst(e) =>
      var x := AnalyzeExpression(e, scope, statics);
      if x.None? { return None; }
      ThrowMeans(e, x.value, scope.Stack(), statics);
      r := Some(ThrowStmt(x.value));
  }

  /** The target is the variable the name means, else the global. */
  method AnalyzeAssign(ast: StmtAst, scope: Scope, statics: map<string, nat>) returns (r: Option<Stmt>)
    requires ast.AssignAst? && scope.Valid() && scope.Packed()
    ensures r.Some? <==> Scoped(ast, scope.vars.Keys, scope.Known(), statics.Keys)
    ensures r.Some? ==> Sound(r.value, scope.Size(), scope.Size())
    ensures r.Some? ==> StmtMeans(ast, r.value, scope.Stack(), scope.Stack(), statics)
    decreases ast, 0
  {
    hide Named, StmtMeans, ExprMeans, ScopedExpr, Apart, Scope.Valid, Scope.Packed, Scope.Size, Scope.Base, Scope.Known,
      Scope.Resolve, Scope.Stack, Scope.Beneath;
    var l, x := Named(ast.name, scope, statics), AnalyzeExpression(ast.e, scope, statics);
    if l.None? || x.None? { return None; }
    AssignSound(AsBinding(l.value), x.value, scope.Size());
    StackApart(scope);
    AssignMeans(ast.name, AsBinding(l.value), ast.e, x.value, scope.Stack(), statics);
    r := Some(Assign(AsBinding(l.value), x.value));
  }

  lemma DistinctIs(names: seq<string>, vars: map<string, nat>)
    ensures Distinct(names, vars.Keys) <==> Declarable(names, vars)
  {
  }

  /** The expression is analysed before its variables are declared. */
  method AnalyzeVar(ast: StmtAst, scope: Scope, statics: map<string, nat>) returns (r: Option<Stmt>)
    requires ast.VarStmtAst? && scope.Valid() && scope.Packed()
    modifies scope
    ensures scope.Valid() && scope.Packed()
    ensures r.Some? <==> Scoped(ast, old(scope.vars.Keys), old(scope.Known()), statics.Keys)
    ensures r.Some? ==> Sound(r.value, old(scope.Size()), scope.Size())
    ensures r.Some? ==> Wider(old(scope.vars), scope.vars, Adds(ast), UsedStmt(r.value))
    ensures r.Some? ==> StmtMeans(ast, r.value, old(scope.Stack()), scope.Stack(), statics)
    decreases ast, 0
  {
    hide FitsExpr, FitsBind, Declarable, Declared, Distinct, BindAlloc, Bound, Names, ScopedExpr, StmtMeans, ExprMeans,
      Wider, UsedStmt, Below, Numbered, Scope.Valid, Scope.Packed, Scope.Size, Scope.Base, Scope.Known, Scope.Resolve,
      Scope.Stack, Scope.Beneath;
    var x := AnalyzeExpression(ast.init, scope, statics);
    if x.None? { return None; }
    ghost var n, vars, base := scope.Size(), scope.vars, scope.Stack()[..|scope.Stack()| - 1];
    scope.StackIs();
    assert scope.Stack() == base + [vars];
    StackApart(scope);
    DistinctIs(Names(ast.bind), vars);
    var d := AnalyzeBinding(ast.bind, scope);
    if d.None? { return None; }
    BoundFits(ast.bind, n, n);
    scope.StackIs();
    VarNumbered(vars, scope.vars, ast.bind, n, x.value);
    VarMeans(ast.bind, ast.init, x.value, base, vars, n, statics);
    r := Some(Assign(d.value, x.value));
  }

  lemma VarNumbered(vars: Slots, after: Slots, bind: BindAst, n: nat, e: Expr)
    requires Declarable(Names(bind), vars) && Declared(vars, after, Names(bind), n)
    ensures after == Numbered(vars, Names(bind), n)
    ensures Wider(vars, after, (set x | x in Names(bind)), UsedStmt(Assign(Bound(bind, n), e)))
  {
    hide Names, Bound, UsedBind, UsedExpr, UsedStmt, Numbered;
    var names := Names(bind);
    BoundUsed(bind, n);
    AssignUsed(Bound(bind, n), e);
    assert after == Numbered(vars, names, n) by {
      NumberedDeclared(vars, names, n);
      DeclaredOnce(vars, after, Numbered(vars, names, n), names, n);
    }
    forall x | x in after && x !in vars ensures after[x] < UsedStmt(Assign(Bound(bind, n), e)) {
      var i :| 0 <= i < |names| && names[i] == x;
    }
    assert after.Keys == vars.Keys + set x | x in names;
  }

  lemma WiderKeys(m: Slots, all: Slots, names: set<string>, size: nat)
    requires Wider(m, all, names, size)
    ensures all.Keys == m.Keys + names
  {
  }

  lemma AssignUsed(b: Binding, e: Expr)
    ensures UsedStmt(Assign(b, e)) >= UsedBind(b)
  {
  }

  lemma NoneFit(n: nat)
    ensures FitsStmts(SNil, n, n) && GrowsAll(SNil) == 0
  {
  }

  lemma BlockFits(ss: Stmts, n: nat)
    requires FitsStmts(ss, n, n)
    ensures Sound(Block(ss), n, n)
  {
  }

  /** A statement in a block scope of its own. */
  method AnalyzeInner(ast: StmtAst, scope: Scope, statics: map<string, nat>) returns (r: Option<Stmt>)
    requires scope.Valid() && scope.Packed()
    ensures r.Some? <==> Scoped(ast, {}, scope.Known(), statics.Keys)
    ensures r.Some? ==> FitsStmt(r.value, scope.Size(), scope.Size())
    ensures r.Some? ==> InnerMeans(ast, r.value, scope.Stack(), statics)
    decreases ast, 3
  {
    hide Scoped, FitsStmt, Grows, Adds, StmtMeans, InnerMeans, Wider, UsedStmt, Scope.Valid, Scope.Packed, Scope.Size,
      Scope.Base, Scope.Known, Scope.Resolve, Scope.Stack, Scope.Beneath;
    var inner := new Scope.Minor(scope);
    assert inner.vars.Keys == {};
    r := AnalyzeStatement(ast, inner, statics);
    if r.Some? {
      SoundFits(r.value, scope.Size(), inner.Size());
      inner.StackIs();
      ScopeMeans(ast, r.value, scope.Stack(), inner.vars, statics);
    }
  }

  lemma SoundFits(s: Stmt, n: nat, size: nat)
    requires Sound(s, n, size)
    ensures FitsStmt(s, n, n)
  {
  }

  /** A block has a scope of its own, its variables take slots one after the other. */
  method AnalyzeBlock(ast: StmtAst, scope: Scope, statics: map<string, nat>) returns (r: Option<Stmt>)
    requires ast.BlockAst? && scope.Valid() && scope.Packed()
    ensures r.Some? <==> ScopedAll(ast.stmts, {}, scope.Known(), statics.Keys)
    ensures r.Some? ==> Sound(r.value, scope.Size(), scope.Size())
    ensures r.Some? ==> StmtMeans(ast, r.value, scope.Stack(), scope.Stack(), statics)
    decreases ast, 0
  {
    hide FitsStmt, FitsStmts, GrowsAll, Grows, AppendStmt, Adds, Scoped, ScopedAll, Sound, StmtMeans, InTurnMeans,
      Wider, UsedStmt, Scope.Valid, Scope.Packed, Scope.Size, Scope.Base, Scope.Known, Scope.Resolve, Scope.Stack,
      Scope.Beneath;
    var inner := new Scope.Minor(scope);
    ghost var n, all := scope.Size(), ScopedAll(ast.stmts, {}, scope.Known(), statics.Keys);
    var done := SNil;
    NoneFit(n);
    assert inner.vars.Keys == {};
    assert ast.stmts[0..] == ast.stmts && ast.stmts[..0] == [];
    NoneMean(inner.Stack(), statics);
    for i := 0 to |ast.stmts|
      invariant inner.Valid() && inner.Packed() && inner.Size() == n + GrowsAll(done)
      invariant fresh(inner) && inner.parent == scope && FitsStmts(done, n, n)
      invariant scope.Known() == old(scope.Known()) && scope.Stack() == old(scope.Stack())
      invariant InTurnMeans(ast.stmts[..i], done, scope.Stack() + [map[]], inner.Stack(), statics)
      invariant all <==> ScopedAll(ast.stmts[i..], inner.vars.Keys, inner.Known(), statics.Keys)
    {
      ghost var vars, known, before := inner.vars, inner.Known(), inner.Stack();
      inner.KnownIs();
      var next := AnalyzeStatement(ast.stmts[i], inner, statics);
      NextScoped(ast.stmts, i, vars.Keys, known, statics.Keys);
      if next.None? { return None; }
      inner.KnownIs();
      WiderKeys(vars, inner.vars, Adds(ast.stmts[i]), UsedStmt(next.value));
      assert inner.Known() == known + Adds(ast.stmts[i]);
      AppendSound(done, next.value, n, inner.Size());
      NextMeans(ast.stmts[..i], done, ast.stmts[i], next.value, scope.Stack() + [map[]], before, inner.Stack(),
        statics);
      assert ast.stmts[..i + 1] == ast.stmts[..i] + [ast.stmts[i]];
      done := AppendStmt(done, next.value);
    }
    NoneScoped(ast.stmts, inner.vars.Keys, inner.Known(), statics.Keys);
    BlockFits(done, n);
    inner.StackIs();
    assert ast.stmts[..|ast.stmts|] == ast.stmts;
    BlockMeans(ast.stmts, done, scope.Stack(), inner.vars, statics);
    r := Some(Block(done));
  }

  lemma NextScoped(stmts: seq<StmtAst>, i: nat, own: set<string>, known: set<string>, statics: set<string>)
    requires i < |stmts|
    ensures ScopedAll(stmts[i..], own, known, statics) <==>
      var more := Adds(stmts[i]);
      Scoped(stmts[i], own, known, statics) && ScopedAll(stmts[i + 1..], own + more, known + more, statics)
  {
    assert stmts[i..][0] == stmts[i] && stmts[i..][1..] == stmts[i + 1..];
  }

  lemma NoneScoped(stmts: seq<StmtAst>, own: set<string>, known: set<string>, statics: set<string>)
    ensures ScopedAll(stmts[|stmts|..], own, known, statics)
  {
  }

  lemma AppendSound(ss: Stmts, s: Stmt, n: nat, size: nat)
    requires FitsStmts(ss, n, n) && Sound(s, n + GrowsAll(ss), size)
    ensures FitsStmts(AppendStmt(ss, s), n, n) && size == n + GrowsAll(AppendStmt(ss, s))
  {
    AppendStmtFits(ss, s, n);
  }

  /** Both branches have scopes of their own; an else that does nothing counts as none. */
  method AnalyzeIf(ast: StmtAst, scope: Scope, statics: map<string, nat>) returns (r: Option<Stmt>)
    requires ast.IfAst? && scope.Valid() && scope.Packed()
    ensures r.Some? <==> Scoped(ast, scope.vars.Keys, scope.Known(), statics.Keys)
    ensures r.Some? ==> Sound(r.value, scope.Size(), scope.Size())
    ensures r.Some? ==> StmtMeans(ast, r.value, scope.Stack(), scope.Stack(), statics)
    decreases ast, 0
  {
    hide CaseScoped, ScopedAll, Distinct, Names, StmtMeans, InnerMeans, ExprMeans, Scope.Valid, Scope.Packed,
      Scope.Size, Scope.Base, Scope.Known, Scope.Resolve, Scope.Stack, Scope.Beneath;
    var c := AnalyzeExpression(ast.cond, scope, statics);
    if c.None? { return None; }
    var t := AnalyzeInner(ast.thn, scope, statics);
    if t.None? { return None; }
    if ast.els.Some? && !ast.els.value.NoOpAst? {
      var f := AnalyzeInner(ast.els.value, scope, statics);
      if f.None? { return None; }
      IfMeans(ast.cond, c.value, ast.thn, t.value, ast.els, f, scope.Stack(), statics);
      r := Some(IfStmt(c.value, t.value, f));
    } else {
      IfMeans(ast.cond, c.value, ast.thn, t.value, ast.els, None, scope.Stack(), statics);
      r := Some(IfStmt(c.value, t.value, None));
    }
  }

  /** The body of a loop has a scope of its own, its condition has not. */
  method AnalyzeLoop(ast: StmtAst, scope: Scope, statics: map<string, nat>) returns (r: Option<Stmt>)
    requires (ast.WhileAst? || ast.LoopAst?) && scope.Valid() && scope.Packed()
    ensures r.Some? <==> Scoped(ast, scope.vars.Keys, scope.Known(), statics.Keys)
    ensures r.Some? ==> Sound(r.value, scope.Size(), scope.Size())
    ensures r.Some? ==> StmtMeans(ast, r.value, scope.Stack(), scope.Stack(), statics)
    decreases ast, 0
  {
    hide CaseScoped, ScopedAll, Distinct, Names, StmtMeans, InnerMeans, ExprMeans, Scope.Valid, Scope.Packed,
      Scope.Size, Scope.Base, Scope.Known, Scope.Resolve, Scope.Stack, Scope.Beneath;
    var c := if ast.WhileAst? then AnalyzeExpression(ast.cond, scope, statics) else Some(Lit(NullLit));
    if c.None? { return None; }
    var b := AnalyzeInner(ast.body, scope, statics);
    if b.None? { return None; }
    if ast.WhileAst? {
      WhileMeans(ast.cond, c.value, ast.body, b.value, scope.Stack(), statics);
    } else {
      LoopMeans(ast.body, b.value, scope.Stack(), statics);
    }
    r := Some(if ast.WhileAst? then While(c.value, b.value) else InfiniteLoop(b.value));
  }

  /** What a switch declares is what its default declares, which has no scope of its own. */
  method AnalyzeSwitch(ast: StmtAst, scope: Scope, statics: map<string, nat>) returns (r: Option<Stmt>)
    requires ast.SwitchAst? && scope.Valid() && scope.Packed()
    modifies scope
    ensures scope.Valid() && scope.Packed()
    ensures r.Some? <==> Scoped(ast, old(scope.vars.Keys), old(scope.Known()), statics.Keys)
    ensures r.Some? ==> Sound(r.value, old(scope.Size()), scope.Size())
    ensures r.Some? ==> Wider(old(scope.vars), scope.vars, Adds(ast), UsedStmt(r.value))
    ensures r.Some? ==> StmtMeans(ast, r.value, old(scope.Stack()), scope.Stack(), statics)
    decreases ast, 1
  {
    hide FitsStmt, FitsExpr, Grows, CasesFit, FitsCases, MakeCases, CasesGrow, ScopedExpr, Scoped, Sound, CaseScoped,
      StmtMeans, ExprMeans, CasesMean, Wider, UsedStmt,
      Scope.Valid, Scope.Packed, Scope.Size, Scope.Base, Scope.Known, Scope.Resolve, Scope.Stack,
      Scope.Beneath;
    ghost var n, vars, base := scope.Size(), scope.vars, scope.Stack()[..|scope.Stack()| - 1];
    scope.StackIs();
    assert scope.Stack() == base + [vars];
    SwitchScoped(ast, scope.vars.Keys, scope.Known(), statics.Keys);
    var x := AnalyzeExpression(ast.subject, scope, statics);
    if x.None? { return None; }
    var done := AnalyzeCases(ast, scope, statics);
    if done.None? { return None; }
    var other := AnalyzeStatement(ast.other, scope, statics);
    if other.None? { return None; }
    SwitchFits(x.value, done.value, other.value, n, scope.Size());
    scope.StackIs();
    SwitchMeans(ast, x.value, done.value, other.value, base, vars, scope.vars, statics, UsedStmt(other.value));
    SwitchUsed(x.value, done.value, other.value, vars, scope.vars, Adds(ast));
    r := Some(SwitchStmt(x.value, MakeCases(done.value, other.value)));
  }

  lemma SwitchUsed(
    x: Expr, cs: seq<(Expr, Stmt)>, other: Stmt, m: Slots, all: Slots, names: set<string>)
    requires Wider(m, all, names, UsedStmt(other))
    ensures Wider(m, all, names, UsedStmt(SwitchStmt(x, MakeCases(cs, other))))
  {
    hide MakeCases, UsedExpr, UsedCases;
    DefaultUsed(cs, other);
    SwitchIsUsed(x, MakeCases(cs, other));
  }

  lemma SwitchIsUsed(x: Expr, cs: Cases)
    ensures UsedStmt(SwitchStmt(x, cs)) >= UsedCases(cs)
  {
  }

  lemma SwitchScoped(ast: StmtAst, own: set<string>, known: set<string>, statics: set<string>)
    requires ast.SwitchAst?
    ensures Scoped(ast, own, known, statics) <==>
      && ScopedExpr(ast.subject, known + statics) && Scoped(ast.other, own, known, statics)
      && forall i :: 0 <= i < |ast.cases| ==> CaseScoped(ast.cases[i], known, statics)
  {
  }

  /** Labels are analysed in a scope that sees no local variable, bodies in scopes of their
      own. */
  method AnalyzeCases(ast: StmtAst, scope: Scope, statics: map<string, nat>) returns (r: Option<seq<(Expr, Stmt)>>)
    requires ast.SwitchAst? && scope.Valid() && scope.Packed()
    ensures r.Some? <==> forall i :: 0 <= i < |ast.cases| ==> CaseScoped(ast.cases[i], scope.Known(), statics.Keys)
    ensures r.Some? ==> CasesFit(r.value, scope.Size())
    ensures r.Some? ==> CasesMean(ast.cases, r.value, scope.Stack(), statics)
    decreases ast, 0
  {
    hide FitsStmt, FitsExpr, CasesFit, Grows, Scoped, ScopedExpr, ExprMeans, InnerMeans, Scope.Valid, Scope.Packed,
      Scope.Size, Scope.Base, Scope.Known, Scope.Resolve, Scope.Stack, Scope.Beneath;
    ghost var n, known := scope.Size(), scope.Known();
    var labels := new Scope.Major();
    assert {} + statics.Keys == statics.Keys;
    var done: seq<(Expr, Stmt)> := [];
    NoCases(n);
    for i := 0 to |ast.cases|
      invariant forall j :: 0 <= j < i ==> CaseScoped(ast.cases[j], known, statics.Keys)
      invariant CasesFit(done, n)
      invariant |done| == i && forall j :: 0 <= j < i ==> CaseMeans(ast.cases[j], done[j], scope.Stack(), statics)
      invariant fresh(labels) && labels.Valid() && labels.Packed() && labels.Size() == 0 && labels.Known() == {}
      invariant scope.Stack() == old(scope.Stack()) && labels.Stack() == [map[]]
    {
      var c := AnalyzeExpression(ast.cases[i].0, labels, statics);
      var b := AnalyzeInner(ast.cases[i].1, scope, statics);
      if c.None? || b.None? {
        assert !CaseScoped(ast.cases[i], known, statics.Keys);
        return None;
      }
      OneMoreCase(done, c.value, b.value, n);
      done := done + [(c.value, b.value)];
    }
    r := Some(done);
  }

  lemma NoCases(n: nat)
    ensures CasesFit([], n)
  {
  }

  /** Of a plain body that the analysis makes, the frame that is counted holds all slots. */
  lemma AnalysedBodyFits(s: Stmt, n: nat, size: nat)
    requires Sound(s, n, size) && PlainStmt(s)
    ensures UsedStmt(s) <= n + TotalAlloc(s)
  {
    hide PlainStmt, FitsStmt, UsedStmt, TotalAlloc, Grows;
    OptimizedFrames.PlainStmtCovers(s, n, n);
  }
}
