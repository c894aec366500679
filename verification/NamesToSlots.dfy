/** Variables by name and variables in slots: trees that mean what their syntax means. */
module NamesToSlots {
  import opened Values
  import opened Sst
  import opened BigStep
  import opened Frames
  import opened Optimize
  import opened Syntax
  import opened Scopes

  /** The slots of the variables of a scope. */
  type Slots = map<string, nat>

  /** Each variable that has a value has it in its slot. */
  ghost predicate LevelHolds(m: Slots, vars: Vars, locals: seq<Value>) {
    && m.Keys == vars.Keys
    && forall x :: x in m ==> m[x] < |locals| && (vars[x].Some? ==> locals[m[x]] == vars[x].value)
  }

  ghost predicate Holds(ss: seq<Slots>, s: Store, w: World) {
    && |ss| == |s.scopes| && s.globals == w.globals && s.heap == w.heap
    && forall i :: 0 <= i < |ss| ==> LevelHolds(ss[i], s.scopes[i], w.locals)
  }

  /** No two variables share a slot. */
  ghost predicate Apart(ss: seq<Slots>) {
    forall i, j, x, y :: 0 <= i < |ss| && 0 <= j < |ss| && x in ss[i] && y in ss[j] && ss[i][x] == ss[j][y] ==>
      i == j && x == y
  }

  ghost predicate Below(ss: seq<Slots>, n: nat) {
    forall i, x :: 0 <= i < |ss| && x in ss[i] ==> ss[i][x] < n
  }

  /** Where syntax has a meaning, the tree ends the same, in a state that holds it. */
  ghost predicate Ended(ss: seq<Slots>, r: Ends, q: Res, size: nat) {
    r.out.Outside? ||
    (&& q.out == r.out
     && (r.out.OutOfFuel? || (q.w.globals == r.s.globals && q.w.heap == r.s.heap))
     && (r.out.Done? ==> Holds(ss, r.s, q.w) && |q.w.locals| == size))
  }

  ghost predicate ExprMeansAt(
    ast: ExprAst, e: Expr, ss: seq<Slots>, statics: map<string, nat>, u: Source, s: Store, w: World, fuel: nat)
  {
    Holds(ss, s, w) && UsedExpr(e) <= |w.locals| ==>
      && Ended(ss, Evaluate(u, ast, s, statics), EvalExpr(u, e, w, fuel), |w.locals|)
      && (Evaluate(u, ast, s, statics).out.Outside? || EvalExpr(u, e, w, fuel).w.locals == w.locals)
  }

  /** In every frame that holds the variables in their slots, the tree means what its syntax
      means. */
  ghost predicate ExprMeans(ast: ExprAst, e: Expr, ss: seq<Slots>, statics: map<string, nat>) {
    forall u, s, w, fuel :: ExprMeansAt(ast, e, ss, statics, u, s, w, fuel)
  }

  ghost predicate StmtMeansAt(
    ast: StmtAst, t: Stmt, ss: seq<Slots>, after: seq<Slots>, statics: map<string, nat>,
    u: Source, s: Store, w: World, fuel: nat)
  {
    Holds(ss, s, w) && UsedStmt(t) <= |w.locals| ==>
      Ended(after, Perform(u, ast, s, statics, fuel), EvalStmt(u, t, w, fuel), |w.locals|)
  }

  ghost predicate StmtMeans(ast: StmtAst, t: Stmt, ss: seq<Slots>, after: seq<Slots>, statics: map<string, nat>) {
    forall u, s, w, fuel :: StmtMeansAt(ast, t, ss, after, statics, u, s, w, fuel)
  }

  ghost predicate InnerMeansAt(
    ast: StmtAst, t: Stmt, ss: seq<Slots>, statics: map<string, nat>, u: Source, s: Store, w: World, fuel: nat)
  {
    Holds(ss, s, w) && UsedStmt(t) <= |w.locals| ==>
      Ended(ss, Inner(u, ast, s, statics, fuel), EvalStmt(u, t, w, fuel), |w.locals|)
  }

  ghost predicate InnerMeans(ast: StmtAst, t: Stmt, ss: seq<Slots>, statics: map<string, nat>) {
    forall u, s, w, fuel :: InnerMeansAt(ast, t, ss, statics, u, s, w, fuel)
  }

  lemma SameEnded(ss: seq<Slots>, s: Store, w: World)
    requires Holds(ss, s, w)
    ensures Ended(ss, Ends(Done([]), s), Unit(w), |w.locals|)
  {
  }

  lemma SameLevel(ss: seq<Slots>, s: Store, w: World, name: string)
    requires Holds(ss, s, w)
    ensures Level(ss, name) == Level(s.scopes, name)
  {
    var k, l := Level(ss, name), Level(s.scopes, name);
    if k >= 0 { assert LevelHolds(ss[k], s.scopes[k], w.locals); }
    if l >= 0 { assert LevelHolds(ss[l], s.scopes[l], w.locals); }
  }

  lemma LitMeans(lit: Literal, ss: seq<Slots>, statics: map<string, nat>)
    ensures ExprMeans(LitAst(lit), Lit(lit), ss, statics)
  {
    forall u, s, w, fuel ensures ExprMeansAt(LitAst(lit), Lit(lit), ss, statics, u, s, w, fuel) {
      if Holds(ss, s, w) { LiteralAnywhere(u, lit, World(s.globals, [], s.heap), w); }
    }
  }

  lemma LiteralAnywhere(u: Source, lit: Literal, v: World, w: World)
    requires v.globals == w.globals && v.heap == w.heap
    ensures EvalLit(u, lit, v).out == EvalLit(u, lit, w).out
    ensures EvalLit(u, lit, w).w == w.(heap := EvalLit(u, lit, v).w.heap)
  {
    hide Apply;
  }

  /** The tree of a name: the slot of the innermost variable, else the definition or global. */
  predicate Stands(name: string, e: Expr, ss: seq<Slots>, statics: map<string, nat>) {
    var k := Level(ss, name);
    if k >= 0 then e == Var(ss[k][name]) else name in statics && e == GlobalVar(statics[name])
  }

  lemma NameMeans(name: string, e: Expr, ss: seq<Slots>, statics: map<string, nat>)
    requires Stands(name, e, ss, statics)
    ensures ExprMeans(VarAst(name), e, ss, statics)
  {
    forall u, s, w, fuel ensures ExprMeansAt(VarAst(name), e, ss, statics, u, s, w, fuel) {
      if Holds(ss, s, w) {
        SameLevel(ss, s, w, name);
        var k := Level(ss, name);
        if k >= 0 { assert LevelHolds(ss[k], s.scopes[k], w.locals); }
      }
    }
  }

  /** The same operator on the same operands, at the end of both. */
  lemma OperatorEnds(
    u: Source, op: SimpleOp, args: seq<Value>, ss: seq<Slots>, s: Store, w: World)
    requires Holds(ss, s, w)
    ensures Ended(ss, Operate(u, op, args, s), PrimOut(u, Simple(op), args, w), |w.locals|)
    ensures PrimOut(u, Simple(op), args, w).w.locals == w.locals
  {
    hide Apply;
  }

  lemma UnaryMeans(ast: ExprAst, e: Expr, op: SimpleOp, ss: seq<Slots>, statics: map<string, nat>)
    requires ExprMeans(ast, e, ss, statics)
    ensures ExprMeans(UnaryAst(op, ast), Strict(Unary(op), ECons(e, ENil)), ss, statics)
  {
    hide Holds, EvalExpr, Operate, PrimOut;
    var t := Strict(Unary(op), ECons(e, ENil));
    OperandUsed(e, op);
    forall u, s, w, fuel ensures ExprMeansAt(UnaryAst(op, ast), t, ss, statics, u, s, w, fuel) {
      if Holds(ss, s, w) && UsedExpr(t) <= |w.locals| {
        assert ExprMeansAt(ast, e, ss, statics, u, s, w, fuel);
        UnaryIs(u, op, e, w, fuel);
        var x, q := Evaluate(u, ast, s, statics), EvalExpr(u, e, w, fuel);
        if x.out.Done? { OperatorEnds(u, op, x.out.vs, ss, x.s, q.w); }
      }
    }
  }

  lemma OperandUsed(e: Expr, op: SimpleOp)
    ensures UsedExpr(Strict(Unary(op), ECons(e, ENil))) == UsedExpr(e)
  {
    assert UsedArgs(ENil) == 0 && UsedArgs(ECons(e, ENil)) == Max(UsedExpr(e), UsedArgs(ENil));
  }

  lemma OperandsUsed(l: Expr, r: Expr, op: SimpleOp)
    ensures UsedExpr(Strict(Binary(op), ECons(l, ECons(r, ENil)))) == Max(UsedExpr(l), UsedExpr(r))
  {
    assert UsedArgs(ENil) == 0 && UsedArgs(ECons(r, ENil)) == Max(UsedExpr(r), UsedArgs(ENil));
    assert UsedArgs(ECons(l, ECons(r, ENil))) == Max(UsedExpr(l), UsedArgs(ECons(r, ENil)));
  }

  lemma BinaryMeans(
    a: ExprAst, b: ExprAst, l: Expr, r: Expr, op: SimpleOp, ss: seq<Slots>, statics: map<string, nat>)
    requires ExprMeans(a, l, ss, statics) && ExprMeans(b, r, ss, statics)
    ensures ExprMeans(BinaryAst(op, a, b), Strict(Binary(op), ECons(l, ECons(r, ENil))), ss, statics)
  {
    hide Holds, EvalExpr, Operate, PrimOut;
    var t := Strict(Binary(op), ECons(l, ECons(r, ENil)));
    OperandsUsed(l, r, op);
    forall u, s, w, fuel ensures ExprMeansAt(BinaryAst(op, a, b), t, ss, statics, u, s, w, fuel) {
      if Holds(ss, s, w) && UsedExpr(t) <= |w.locals| {
        assert ExprMeansAt(a, l, ss, statics, u, s, w, fuel);
        BinaryIs(u, op, l, r, w, fuel);
        var x, p := Evaluate(u, a, s, statics), EvalExpr(u, l, w, fuel);
        if x.out.Done? {
          assert ExprMeansAt(b, r, ss, statics, u, x.s, p.w, fuel);
          var y, q := Evaluate(u, b, x.s, statics), EvalExpr(u, r, p.w, fuel);
          if y.out.Done? { OperatorEnds(u, op, x.out.vs + y.out.vs, ss, y.s, q.w); }
        }
      }
    }
  }

  lemma NoOpMeans(ss: seq<Slots>, statics: map<string, nat>)
    ensures StmtMeans(NoOpAst, NoOp, ss, ss, statics)
  {
    forall u, s, w, fuel ensures StmtMeansAt(NoOpAst, NoOp, ss, ss, statics, u, s, w, fuel) {}
  }

  /** An assignment evaluates its expression and binds the value. */
  lemma AssignIs(u: Source, b: Binding, e: Expr, w: World, fuel: nat)
    ensures EvalStmt(u, Assign(b, e), w, fuel) ==
      var r := BigStep.One(EvalExpr(u, e, w, fuel));
      if !r.out.Done? then r else EvalBind(u, b, r.out.vs[0], r.w, fuel)
    ensures UsedStmt(Assign(b, e)) == Max(UsedExpr(e), UsedBind(b))
  {
  }

  lemma ExprStmtMeans(ast: ExprAst, e: Expr, ss: seq<Slots>, statics: map<string, nat>)
    requires ExprMeans(ast, e, ss, statics)
    ensures StmtMeans(ExprStmtAst(ast), Assign(Discard, e), ss, ss, statics)
  {
    hide Holds, EvalExpr, EvalStmt;
    var t := Assign(Discard, e);
    forall u, s, w, fuel ensures StmtMeansAt(ExprStmtAst(ast), t, ss, ss, statics, u, s, w, fuel) {
      if Holds(ss, s, w) && UsedStmt(t) <= |w.locals| {
        AssignIs(u, Discard, e, w, fuel);
        assert ExprMeansAt(ast, e, ss, statics, u, s, w, fuel);
      }
    }
  }

  lemma ThrowMeans(ast: ExprAst, e: Expr, ss: seq<Slots>, statics: map<string, nat>)
    requires ExprMeans(ast, e, ss, statics)
    ensures StmtMeans(ThrowAst(ast), ThrowStmt(e), ss, ss, statics)
  {
    hide Holds, EvalExpr;
    var t := ThrowStmt(e);
    forall u, s, w, fuel ensures StmtMeansAt(ThrowAst(ast), t, ss, ss, statics, u, s, w, fuel) {
      if Holds(ss, s, w) && UsedStmt(t) <= |w.locals| {
        assert ExprMeansAt(ast, e, ss, statics, u, s, w, fuel);
      }
    }
  }

  /** The binding of an assigned name. */
  predicate Target(name: string, b: Binding, ss: seq<Slots>, statics: map<string, nat>) {
    var k := Level(ss, name);
    if k >= 0 then b == Local(ss[k][name]) else name in statics && b == Global(statics[name])
  }

  lemma SlotWriteHolds(ss: seq<Slots>, s: Store, w: World, k: nat, name: string, v: Value)
    requires Holds(ss, s, w) && Apart(ss) && k < |ss| && name in ss[k]
    ensures k < |s.scopes| && ss[k][name] < |w.locals|
    ensures Holds(ss, s.(scopes := s.scopes[k := s.scopes[k][name := Some(v)]]),
                  w.(locals := w.locals[ss[k][name] := v]))
  {
    assert LevelHolds(ss[k], s.scopes[k], w.locals);
    var a := ss[k][name];
    var s2, w2 := s.(scopes := s.scopes[k := s.scopes[k][name := Some(v)]]), w.(locals := w.locals[a := v]);
    forall i | 0 <= i < |ss| ensures LevelHolds(ss[i], s2.scopes[i], w2.locals) {
      assert LevelHolds(ss[i], s.scopes[i], w.locals);
    }
  }

  lemma WriteHolds(
    u: Source, name: string, b: Binding, v: Value, ss: seq<Slots>, statics: map<string, nat>, s: Store, w: World,
    fuel: nat)
    requires Holds(ss, s, w) && Apart(ss) && Target(name, b, ss, statics)
    ensures Ended(ss, Write(name, v, s, statics), EvalBind(u, b, v, w, fuel), |w.locals|)
  {
    hide LevelHolds, Apart;
    SameLevel(ss, s, w, name);
    var k := Level(ss, name);
    if k >= 0 { SlotWriteHolds(ss, s, w, k, name, v); }
  }

  lemma AssignMeans(
    name: string, b: Binding, ast: ExprAst, e: Expr, ss: seq<Slots>, statics: map<string, nat>)
    requires ExprMeans(ast, e, ss, statics) && Apart(ss) && Target(name, b, ss, statics)
    ensures StmtMeans(AssignAst(name, ast), Assign(b, e), ss, ss, statics)
  {
    hide Holds, EvalExpr, EvalStmt, EvalBind, Write, Apart;
    var t := Assign(b, e);
    forall u, s, w, fuel ensures StmtMeansAt(AssignAst(name, ast), t, ss, ss, statics, u, s, w, fuel) {
      if Holds(ss, s, w) && UsedStmt(t) <= |w.locals| {
        AssignIs(u, b, e, w, fuel);
        assert ExprMeansAt(ast, e, ss, statics, u, s, w, fuel);
        var x, q := Evaluate(u, ast, s, statics), EvalExpr(u, e, w, fuel);
        if x.out.Done? { WriteHolds(u, name, b, x.out.vs[0], ss, statics, x.s, q.w, fuel); }
      }
    }
  }

  /** In a scope of its own. */
  lemma ScopeMeans(ast: StmtAst, t: Stmt, ss: seq<Slots>, m: Slots, statics: map<string, nat>)
    requires StmtMeans(ast, t, ss + [map[]], ss + [m], statics)
    ensures InnerMeans(ast, t, ss, statics)
  {
    hide StmtMeansAt, InnerMeansAt;
    forall u, s, w, fuel ensures InnerMeansAt(ast, t, ss, statics, u, s, w, fuel) {
      assert StmtMeansAt(ast, t, ss + [map[]], ss + [m], statics, u, s.(scopes := s.scopes + [map[]]), w, fuel);
      ScopeMeansAt(ast, t, ss, m, statics, u, s, w, fuel);
    }
  }

  lemma ScopeMeansAt(
    ast: StmtAst, t: Stmt, ss: seq<Slots>, m: Slots, statics: map<string, nat>,
    u: Source, s: Store, w: World, fuel: nat)
    requires StmtMeansAt(ast, t, ss + [map[]], ss + [m], statics, u, s.(scopes := s.scopes + [map[]]), w, fuel)
    ensures InnerMeansAt(ast, t, ss, statics, u, s, w, fuel)
  {
    hide EvalStmt, Perform, Holds, Ended, Leave, UsedStmt;
    if Holds(ss, s, w) && UsedStmt(t) <= |w.locals| {
      EnterHolds(ss, s, w);
      var r := Perform(u, ast, s.(scopes := s.scopes + [map[]]), statics, fuel);
      EndedLeaves(ss, m, r, EvalStmt(u, t, w, fuel), |w.locals|);
    }
  }

  lemma EndedLeaves(ss: seq<Slots>, m: Slots, r: Ends, q: Res, size: nat)
    requires Ended(ss + [m], r, q, size)
    ensures Ended(ss, Leave(r), q, size)
  {
    hide Holds;
    if r.out.Done? { LeaveHolds(ss, m, r.s, q.w); }
  }

  lemma EnterHolds(ss: seq<Slots>, s: Store, w: World)
    requires Holds(ss, s, w)
    ensures Holds(ss + [map[]], s.(scopes := s.scopes + [map[]]), w)
  {
    assert LevelHolds(map[], map[], w.locals);
  }

  lemma LeaveHolds(ss: seq<Slots>, m: Slots, s: Store, w: World)
    requires Holds(ss + [m], s, w)
    ensures s.scopes != [] && Holds(ss, s.(scopes := Front(s.scopes)), w)
  {
    hide LevelHolds;
    forall i | 0 <= i < |ss| ensures LevelHolds(ss[i], Front(s.scopes)[i], w.locals) {
      assert (ss + [m])[i] == ss[i];
    }
  }

  lemma IfMeans(
    ca: ExprAst, c: Expr, ta: StmtAst, t: Stmt, fa: Option<StmtAst>, f: Option<Stmt>, ss: seq<Slots>,
    statics: map<string, nat>)
    requires ExprMeans(ca, c, ss, statics) && InnerMeans(ta, t, ss, statics)
    requires if f.Some? then fa.Some? && InnerMeans(fa.value, f.value, ss, statics)
             else fa.Some? ==> fa.value.NoOpAst?
    ensures StmtMeans(IfAst(ca, ta, fa), IfStmt(c, t, f), ss, ss, statics)
  {
    hide StmtMeansAt;
    forall u, s, w, fuel
      ensures StmtMeansAt(IfAst(ca, ta, fa), IfStmt(c, t, f), ss, ss, statics, u, s, w, fuel)
    {
      IfMeansAt(ca, c, ta, t, fa, f, ss, statics, u, s, w, fuel);
    }
  }

  lemma IfMeansAt(
    ca: ExprAst, c: Expr, ta: StmtAst, t: Stmt, fa: Option<StmtAst>, f: Option<Stmt>, ss: seq<Slots>,
    statics: map<string, nat>, u: Source, s: Store, w: World, fuel: nat)
    requires ExprMeans(ca, c, ss, statics) && InnerMeans(ta, t, ss, statics)
    requires if f.Some? then fa.Some? && InnerMeans(fa.value, f.value, ss, statics)
             else fa.Some? ==> fa.value.NoOpAst?
    ensures StmtMeansAt(IfAst(ca, ta, fa), IfStmt(c, t, f), ss, ss, statics, u, s, w, fuel)
  {
    hide Holds, EvalExpr, Inner, UsedExpr;
    var i := IfStmt(c, t, f);
    if Holds(ss, s, w) && UsedStmt(i) <= |w.locals| {
      assert ExprMeansAt(ca, c, ss, statics, u, s, w, fuel);
      var x, q := Evaluate(u, ca, s, statics), EvalExpr(u, c, w, fuel);
      IfIs(u, i, w, fuel);
      if x.out.Done? {
        if Truthy(x.out.vs[0]) {
          assert InnerMeansAt(ta, t, ss, statics, u, x.s, q.w, fuel);
        } else if f.Some? {
          assert InnerMeansAt(fa.value, f.value, ss, statics, u, x.s, q.w, fuel);
        } else if fa.Some? {
          NothingInside(u, x.s, statics, fuel);
        }
      }
    }
  }

  lemma NothingInside(u: Source, s: Store, statics: map<string, nat>, fuel: nat)
    ensures Inner(u, NoOpAst, s, statics, fuel) == Ends(Done([]), s)
  {
    assert Front(s.scopes + [map[]]) == s.scopes;
  }

  lemma IfIs(u: Source, s: Stmt, w: World, fuel: nat)
    requires s.IfStmt?
    ensures EvalStmt(u, s, w, fuel) ==
      var r := BigStep.One(EvalExpr(u, s.cond, w, fuel));
      if !r.out.Done? then r
      else if Truthy(r.out.vs[0]) then EvalStmt(u, s.thn, r.w, fuel)
      else if s.els.Some? then EvalStmt(u, s.els.value, r.w, fuel)
      else Unit(r.w)
  {
  }

  /** The loop with less fuel. */
  ghost predicate AgainMeans(la: StmtAst, l: Stmt, ss: seq<Slots>, statics: map<string, nat>, u: Source, less: nat) {
    forall s, w :: StmtMeansAt(la, l, ss, ss, statics, u, s, w, less)
  }

  /** One round of a loop, and the loop again. */
  lemma {:induction false} RoundMeans(
    la: StmtAst, l: Stmt, ba: StmtAst, b: Stmt, ss: seq<Slots>, statics: map<string, nat>,
    u: Source, s: Store, w: World, w0: World, fuel: nat)
    requires InnerMeans(ba, b, ss, statics) && Holds(ss, s, w) && UsedStmt(b) <= |w.locals| && UsedStmt(l) <= |w.locals|
    requires fuel > 0 ==> AgainMeans(la, l, ss, statics, u, fuel - 1)
    ensures Ended(ss, Again(u, la, Inner(u, ba, s, statics, fuel), statics, fuel),
                  RoundOf(u, l, EvalStmt(u, b, w, fuel), w0, fuel), |w.locals|)
  {
    hide Holds, EvalStmt, Inner, Perform, UsedStmt;
    assert InnerMeansAt(ba, b, ss, statics, u, s, w, fuel);
    var r, q := Inner(u, ba, s, statics, fuel), EvalStmt(u, b, w, fuel);
    if r.out.Done? && fuel > 0 { assert StmtMeansAt(la, l, ss, ss, statics, u, r.s, q.w, fuel - 1); }
  }

  /** After the body of a loop has ended with r; w0 is the state before the round. */
  function RoundOf(u: Source, l: Stmt, r: Res, w0: World, fuel: nat): Res {
    var q := Neutral(r);
    if !q.out.Done? then q
    else if fuel == 0 then Res(OutOfFuel, w0)
    else EvalStmt(u, l, q.w, fuel - 1)
  }

  lemma WhileIs(u: Source, s: Stmt, w: World, fuel: nat)
    requires s.While?
    ensures EvalStmt(u, s, w, fuel) ==
      var r := BigStep.One(EvalExpr(u, s.cond, w, fuel));
      if !r.out.Done? then r
      else if !Truthy(r.out.vs[0]) then Unit(r.w)
      else RoundOf(u, s, EvalStmt(u, s.body, r.w, fuel), w, fuel)
  {
  }

  lemma LoopIs(u: Source, s: Stmt, w: World, fuel: nat)
    requires s.InfiniteLoop?
    ensures EvalStmt(u, s, w, fuel) == RoundOf(u, s, EvalStmt(u, s.body, w, fuel), w, fuel)
  {
  }

  lemma WhileMeans(
    ca: ExprAst, c: Expr, ba: StmtAst, b: Stmt, ss: seq<Slots>, statics: map<string, nat>)
    requires ExprMeans(ca, c, ss, statics) && InnerMeans(ba, b, ss, statics)
    ensures StmtMeans(WhileAst(ca, ba), While(c, b), ss, ss, statics)
  {
    hide StmtMeansAt;
    forall u, s, w, fuel ensures StmtMeansAt(WhileAst(ca, ba), While(c, b), ss, ss, statics, u, s, w, fuel) {
      WhileMeansAt(ca, c, ba, b, ss, statics, u, s, w, fuel);
    }
  }

  lemma {:induction false} WhileMeansAt(
    ca: ExprAst, c: Expr, ba: StmtAst, b: Stmt, ss: seq<Slots>, statics: map<string, nat>,
    u: Source, s: Store, w: World, fuel: nat)
    requires ExprMeans(ca, c, ss, statics) && InnerMeans(ba, b, ss, statics)
    ensures StmtMeansAt(WhileAst(ca, ba), While(c, b), ss, ss, statics, u, s, w, fuel)
    decreases fuel
  {
    hide Holds, EvalExpr, Inner, UsedExpr, InnerMeans, Again, RoundOf;
    var la, l := WhileAst(ca, ba), While(c, b);
    if Holds(ss, s, w) && UsedStmt(l) <= |w.locals| {
      assert ExprMeansAt(ca, c, ss, statics, u, s, w, fuel);
      var x, q := Evaluate(u, ca, s, statics), EvalExpr(u, c, w, fuel);
      WhileIs(u, l, w, fuel);
      if x.out.Done? && Truthy(x.out.vs[0]) {
        if fuel > 0 {
          var less: nat := fuel - 1;
          forall t, v ensures StmtMeansAt(la, l, ss, ss, statics, u, t, v, less) {
            WhileMeansAt(ca, c, ba, b, ss, statics, u, t, v, less);
          }
        }
        RoundMeans(la, l, ba, b, ss, statics, u, x.s, q.w, w, fuel);
      }
    }
  }

  lemma LoopMeans(ba: StmtAst, b: Stmt, ss: seq<Slots>, statics: map<string, nat>)
    requires InnerMeans(ba, b, ss, statics)
    ensures StmtMeans(LoopAst(ba), InfiniteLoop(b), ss, ss, statics)
  {
    hide StmtMeansAt;
    forall u, s, w, fuel ensures StmtMeansAt(LoopAst(ba), InfiniteLoop(b), ss, ss, statics, u, s, w, fuel) {
      LoopMeansAt(ba, b, ss, statics, u, s, w, fuel);
    }
  }

  lemma {:induction false} LoopMeansAt(
    ba: StmtAst, b: Stmt, ss: seq<Slots>, statics: map<string, nat>, u: Source, s: Store, w: World, fuel: nat)
    requires InnerMeans(ba, b, ss, statics)
    ensures StmtMeansAt(LoopAst(ba), InfiniteLoop(b), ss, ss, statics, u, s, w, fuel)
    decreases fuel
  {
    hide Holds, Inner, InnerMeans, Again, RoundOf;
    var la, l := LoopAst(ba), InfiniteLoop(b);
    if Holds(ss, s, w) && UsedStmt(l) <= |w.locals| {
      LoopIs(u, l, w, fuel);
      if fuel > 0 {
        var less: nat := fuel - 1;
        forall t, v ensures StmtMeansAt(la, l, ss, ss, statics, u, t, v, less) {
          LoopMeansAt(ba, b, ss, statics, u, t, v, less);
        }
      }
      RoundMeans(la, l, ba, b, ss, statics, u, s, w, w, fuel);
    }
  }

  function AppendStmt(ss: Stmts, s: Stmt): Stmts {
    if ss.SNil? then SCons(s, SNil) else SCons(ss.head, AppendStmt(ss.tail, s))
  }

  ghost predicate InTurnMeansAt(
    stmts: seq<StmtAst>, ts: Stmts, ss: seq<Slots>, after: seq<Slots>, statics: map<string, nat>,
    u: Source, s: Store, w: World, fuel: nat)
  {
    Holds(ss, s, w) && UsedStmts(ts) <= |w.locals| ==>
      Ended(after, InTurn(u, stmts, s, statics, fuel), EvalStmts(u, ts, w, fuel), |w.locals|)
  }

  ghost predicate InTurnMeans(
    stmts: seq<StmtAst>, ts: Stmts, ss: seq<Slots>, after: seq<Slots>, statics: map<string, nat>)
  {
    forall u, s, w, fuel :: InTurnMeansAt(stmts, ts, ss, after, statics, u, s, w, fuel)
  }

  lemma NoneMean(ss: seq<Slots>, statics: map<string, nat>)
    ensures InTurnMeans([], SNil, ss, ss, statics)
  {
    forall u, s, w, fuel ensures InTurnMeansAt([], SNil, ss, ss, statics, u, s, w, fuel) {}
  }

  lemma {:induction false} AppendRuns(u: Source, ts: Stmts, t: Stmt, w: World, fuel: nat)
    ensures EvalStmts(u, AppendStmt(ts, t), w, fuel) ==
      var r := EvalStmts(u, ts, w, fuel);
      if !r.out.Done? then r else Neutral(EvalStmt(u, t, r.w, fuel))
    ensures UsedStmts(AppendStmt(ts, t)) == Max(UsedStmts(ts), UsedStmt(t))
    decreases ts
  {
    hide EvalStmt, UsedStmt;
    if ts.SCons? {
      var r := Neutral(EvalStmt(u, ts.head, w, fuel));
      AppendRuns(u, ts.tail, t, r.w, fuel);
    } else {
      var q := Neutral(EvalStmt(u, t, w, fuel));
      assert EvalStmts(u, SNil, q.w, fuel) == Unit(q.w) && UsedStmts(SNil) == 0;
      assert EvalStmts(u, SCons(t, SNil), w, fuel) == if !q.out.Done? then q else Unit(q.w);
    }
  }

  lemma NextMeans(
    stmts: seq<StmtAst>, ts: Stmts, ast: StmtAst, t: Stmt, ss: seq<Slots>, middle: seq<Slots>, after: seq<Slots>,
    statics: map<string, nat>)
    requires InTurnMeans(stmts, ts, ss, middle, statics) && StmtMeans(ast, t, middle, after, statics)
    ensures InTurnMeans(stmts + [ast], AppendStmt(ts, t), ss, after, statics)
  {
    hide Holds, EvalStmt, EvalStmts, Perform, UsedStmt, UsedStmts;
    var all := stmts + [ast];
    assert Front(all) == stmts;
    forall u, s, w, fuel ensures InTurnMeansAt(all, AppendStmt(ts, t), ss, after, statics, u, s, w, fuel) {
      if Holds(ss, s, w) {
        AppendRuns(u, ts, t, w, fuel);
        assert InTurnMeansAt(stmts, ts, ss, middle, statics, u, s, w, fuel);
        var r, q := InTurn(u, stmts, s, statics, fuel), EvalStmts(u, ts, w, fuel);
        if r.out.Done? { assert StmtMeansAt(ast, t, middle, after, statics, u, r.s, q.w, fuel); }
      }
    }
  }

  lemma BlockMeans(stmts: seq<StmtAst>, ts: Stmts, ss: seq<Slots>, m: Slots, statics: map<string, nat>)
    requires InTurnMeans(stmts, ts, ss + [map[]], ss + [m], statics)
    ensures StmtMeans(BlockAst(stmts), Block(ts), ss, ss, statics)
  {
    hide Holds, EvalStmts, InTurn, UsedStmts, Ended, Leave;
    forall u, s, w, fuel ensures StmtMeansAt(BlockAst(stmts), Block(ts), ss, ss, statics, u, s, w, fuel) {
      if Holds(ss, s, w) && UsedStmts(ts) <= |w.locals| {
        var inside := s.(scopes := s.scopes + [map[]]);
        EnterHolds(ss, s, w);
        assert InTurnMeansAt(stmts, ts, ss + [map[]], ss + [m], statics, u, inside, w, fuel);
        EndedLeaves(ss, m, InTurn(u, stmts, inside, statics, fuel), EvalStmts(u, ts, w, fuel), |w.locals|);
      }
    }
  }

  /** The names in the slots from n on. */
  function Numbered(m: Slots, names: seq<string>, n: nat): (r: Slots)
    ensures r.Keys == m.Keys + set x | x in names
  {
    if names == [] then m
    else
      var r := Numbered(m, Front(names), n);
      assert names == Front(names) + [Last(names)];
      r[Last(names) := n + |names| - 1]
  }

  lemma {:induction false} NumberedConcat(m: Slots, a: seq<string>, b: seq<string>, n: nat)
    ensures Numbered(m, a + b, n) == Numbered(Numbered(m, a, n), b, n + |a|)
    decreases |b|
  {
    if b == [] {
      assert a + b == a;
    } else {
      NumberedConcat(m, a, Front(b), n);
      assert Front(a + b) == a + Front(b) && Last(a + b) == Last(b);
    }
  }

  lemma {:induction false} NumberedBelow(m: Slots, names: seq<string>, n: nat)
    requires forall x :: x in m ==> m[x] < n
    ensures forall x :: x in Numbered(m, names, n) ==> Numbered(m, names, n)[x] < n + |names|
    decreases |names|
  {
    if names != [] { NumberedBelow(m, Front(names), n); }
  }

  lemma {:induction false} NumberedDeclared(m: Slots, names: seq<string>, n: nat)
    requires Declarable(names, m)
    ensures Declared(m, Numbered(m, names, n), names, n)
    decreases |names|
  {
    if names != [] {
      var front := Front(names);
      assert names == front + [Last(names)] && forall i :: 0 <= i < |front| ==> front[i] == names[i];
      NumberedDeclared(m, front, n);
    }
  }

  lemma DeclaredOnce(m: Slots, a: Slots, b: Slots, names: seq<string>, n: nat)
    requires Declared(m, a, names, n) && Declared(m, b, names, n)
    ensures a == b
  {
    forall x | x in a ensures x in b && a[x] == b[x] {
      if x in names { var i :| 0 <= i < |names| && names[i] == x; }
    }
    assert a.Keys == b.Keys;
  }

  lemma {:induction false} AppendBinds(u: Source, bs: Bindings, b: Binding, vs: seq<Value>, w: World, fuel: nat)
    requires |vs| == CountBindings(bs) + 1
    ensures CountBindings(Append(bs, b)) == |vs|
    ensures EvalBinds(u, Append(bs, b), vs, w, fuel) ==
      var r := EvalBinds(u, bs, Front(vs), w, fuel);
      if !r.out.Done? then r
      else
        var q := EvalBind(u, b, Last(vs), r.w, fuel);
        if !q.out.Done? then q else if q.out.vs != [] then Res(Outside, r.w) else Unit(q.w)
    decreases bs
  {
    hide EvalBind;
    if bs.BCons? {
      assert Front(vs)[0] == vs[0] && Front(vs)[1..] == Front(vs[1..]);
      var r := EvalBind(u, bs.head, vs[0], w, fuel);
      AppendBinds(u, bs.tail, b, vs[1..], r.w, fuel);
    } else {
      assert CountBindings(BCons(b, BNil)) == 1;
      var q := EvalBind(u, b, vs[0], w, fuel);
      assert EvalBinds(u, BNil, vs[1..], q.w, fuel) == Unit(q.w);
    }
  }

  lemma {:induction false} AllBoundCount(subs: seq<BindAst>, n: nat)
    ensures CountBindings(AllBound(subs, n)) == |subs|
    decreases |subs|
  {
    hide Bound;
    if subs != [] {
      AllBoundCount(Front(subs), n);
      AppendCount(AllBound(Front(subs), n), Bound(subs[|subs| - 1], n + |AllNames(Front(subs))|));
    }
  }

  lemma {:induction false} AppendCount(bs: Bindings, b: Binding)
    ensures CountBindings(Append(bs, b)) == CountBindings(bs) + 1
    decreases bs
  {
    if bs.BCons? { AppendCount(bs.tail, b); } else { assert CountBindings(BCons(b, BNil)) == 1; }
  }

  /** A new variable in the next slot. */
  lemma NewVarHolds(u: Source, name: string, v: Value, ss: seq<Slots>, m: Slots, n: nat, s: Store, w: World, fuel: nat)
    requires Holds(ss + [m], s, w) && Below(ss + [m], n) && n < |w.locals|
    ensures Ended(ss + [m[name := n]], Declare(u, NewVarAst(name), v, s), EvalBind(u, NewVar(n), v, w, fuel),
      |w.locals|)
  {
    var r, w2 := Declare(u, NewVarAst(name), v, s), w.(locals := w.locals[n := v]);
    var before, all := ss + [m], ss + [m[name := n]];
    forall i | 0 <= i < |all| ensures LevelHolds(all[i], r.s.scopes[i], w2.locals) {
      assert LevelHolds(before[i], s.scopes[i], w.locals);
    }
    assert Holds(all, r.s, w2);
  }

  lemma {:induction false} DeclareHolds(
    u: Source, ast: BindAst, v: Value, ss: seq<Slots>, m: Slots, n: nat, s: Store, w: World, fuel: nat)
    requires Holds(ss + [m], s, w) && Below(ss + [m], n)
    requires Names(ast) != [] ==> n + |Names(ast)| <= |w.locals|
    ensures Ended(ss + [Numbered(m, Names(ast), n)], Declare(u, ast, v, s), EvalBind(u, Bound(ast, n), v, w, fuel),
                  |w.locals|)
    decreases ast, 1
  {
    hide Holds, Below;
    match ast
    case NewVarAst(name) =>
      assert Numbered(m, [name], n) == m[name := n] by { assert Front([name]) == []; }
      NewVarHolds(u, name, v, ss, m, n, s, w, fuel);
    case GroupAst(subs) => GroupHolds(u, ast, v, ss, m, n, s, w, fuel);
  }

  lemma {:induction false} GroupHolds(
    u: Source, ast: BindAst, v: Value, ss: seq<Slots>, m: Slots, n: nat, s: Store, w: World, fuel: nat)
    requires ast.GroupAst? && Holds(ss + [m], s, w) && Below(ss + [m], n)
    requires Names(ast) != [] ==> n + |Names(ast)| <= |w.locals|
    ensures Ended(ss + [Numbered(m, Names(ast), n)], Declare(u, ast, v, s), EvalBind(u, Bound(ast, n), v, w, fuel),
                  |w.locals|)
    decreases ast, 0
  {
    hide Below, LevelHolds, EvalBinds, DeclareEach, AllBound;
    var subs := ast.subs;
    AllBoundCount(subs, n);
    assert s.heap == w.heap && s.globals == w.globals;
    hide Holds;
    var vs := u.env.ops.elements(v, w.heap);
    if |subs| < 256 && vs.Some? && |vs.value| >= |subs| {
      EachHolds(u, subs, vs.value[..|subs|], ss, m, n, s, w, fuel);
    }
  }

  lemma {:induction false} EachHolds(
    u: Source, subs: seq<BindAst>, vs: seq<Value>, ss: seq<Slots>, m: Slots, n: nat, s: Store, w: World, fuel: nat)
    requires Holds(ss + [m], s, w) && Below(ss + [m], n) && |vs| == |subs|
    requires AllNames(subs) != [] ==> n + |AllNames(subs)| <= |w.locals|
    ensures CountBindings(AllBound(subs, n)) == |vs|
    ensures Ended(ss + [Numbered(m, AllNames(subs), n)], DeclareEach(u, subs, vs, s),
                  EvalBinds(u, AllBound(subs, n), vs, w, fuel), |w.locals|)
    decreases subs, 0
  {
    AllBoundCount(subs, n);
    hide Holds, Below, EvalBind, Declare, Bound, Names;
    if subs != [] {
      var front, last := Front(subs), subs[|subs| - 1];
      var a, b := AllNames(front), Names(last);
      var middle := Numbered(m, a, n);
      EachHolds(u, front, Front(vs), ss, m, n, s, w, fuel);
      AppendBinds(u, AllBound(front, n), Bound(last, n + |a|), vs, w, fuel);
      NumberedConcat(m, a, b, n);
      var r, q := DeclareEach(u, front, Front(vs), s), EvalBinds(u, AllBound(front, n), Front(vs), w, fuel);
      if r.out.Done? {
        TopBelow(ss, m, a, n);
        DeclareHolds(u, last, Last(vs), ss, middle, n + |a|, r.s, q.w, fuel);
      }
    } else {
      assert AllNames(subs) == [] && AllBound(subs, n) == BNil && Numbered(m, [], n) == m;
      assert DeclareEach(u, subs, vs, s) == Ends(Done([]), s) && EvalBinds(u, BNil, vs, w, fuel) == Unit(w);
      SameEnded(ss + [m], s, w);
    }
  }

  lemma TopBelow(ss: seq<Slots>, m: Slots, names: seq<string>, n: nat)
    requires Below(ss + [m], n)
    ensures Below(ss + [Numbered(m, names, n)], n + |names|)
  {
    assert (ss + [m])[|ss|] == m && forall i :: 0 <= i < |ss| ==> (ss + [m])[i] == ss[i];
    NumberedBelow(m, names, n);
  }

  lemma VarMeans(
    bind: BindAst, init: ExprAst, e: Expr, ss: seq<Slots>, m: Slots, n: nat, statics: map<string, nat>)
    requires ExprMeans(init, e, ss + [m], statics) && Below(ss + [m], n)
    ensures StmtMeans(VarStmtAst(bind, init), Assign(Bound(bind, n), e), ss + [m],
                      ss + [Numbered(m, Names(bind), n)], statics)
  {
    hide Holds, Below, EvalExpr, EvalStmt, EvalBind, Declare, Bound, Names, UsedBind, UsedExpr;
    var ast, t := VarStmtAst(bind, init), Assign(Bound(bind, n), e);
    BoundUsed(bind, n);
    forall u, s, w, fuel
      ensures StmtMeansAt(ast, t, ss + [m], ss + [Numbered(m, Names(bind), n)], statics, u, s, w, fuel)
    {
      if Holds(ss + [m], s, w) && UsedStmt(t) <= |w.locals| {
        AssignIs(u, Bound(bind, n), e, w, fuel);
        assert ExprMeansAt(init, e, ss + [m], statics, u, s, w, fuel);
        var x, q := Evaluate(u, init, s, statics), EvalExpr(u, e, w, fuel);
        if x.out.Done? { DeclareHolds(u, bind, x.out.vs[0], ss, m, n, x.s, q.w, fuel); }
      }
    }
  }

  lemma BoundUsed(bind: BindAst, n: nat)
    ensures Names(bind) != [] ==> UsedBind(Bound(bind, n)) >= n + |Names(bind)|
  {
    hide Bound, Names, UsedBind, ReachBind, FitsBind, BindAlloc;
    BoundFits(bind, n, n);
    BindReaches(Bound(bind, n), n, n);
  }

  function MakeCases(cs: seq<(Expr, Stmt)>, other: Stmt): Cases {
    if cs == [] then Otherwise(S(other)) else CCons(cs[0].0, S(cs[0].1), MakeCases(cs[1..], other))
  }

  /** A case of a switch: its label sees no variables, its body has a scope of its own. */
  ghost predicate CaseMeans(
    ast: (ExprAst, StmtAst), c: (Expr, Stmt), ss: seq<Slots>, statics: map<string, nat>)
  {
    ExprMeans(ast.0, c.0, [map[]], statics) && InnerMeans(ast.1, c.1, ss, statics)
  }

  ghost predicate CasesMean(
    asts: seq<(ExprAst, StmtAst)>, cs: seq<(Expr, Stmt)>, ss: seq<Slots>, statics: map<string, nat>)
  {
    |cs| == |asts| && forall i :: 0 <= i < |cs| ==> CaseMeans(asts[i], cs[i], ss, statics)
  }

  /** What the default may have declared is in the slots after the switch. */
  ghost predicate Wider(m: Slots, all: Slots, names: set<string>, size: nat) {
    all.Keys == m.Keys + names && forall x :: x in all ==> if x in m then all[x] == m[x] else all[x] < size
  }

  lemma UnsetHolds(ss: seq<Slots>, m: Slots, all: Slots, names: set<string>, r: Ends, w: World)
    requires r.out.Done? && Wider(m, all, names, |w.locals|)
    requires Holds(ss + [m], r.s, w) || Holds(ss + [all], r.s, w)
    ensures Holds(ss + [all], Unset(r, names).s, w)
  {
    var q := Unset(r, names);
    forall i | 0 <= i < |ss + [all]| ensures LevelHolds((ss + [all])[i], q.s.scopes[i], w.locals) {
      if Holds(ss + [m], r.s, w) {
        assert LevelHolds((ss + [m])[i], r.s.scopes[i], w.locals);
      } else {
        assert LevelHolds((ss + [all])[i], r.s.scopes[i], w.locals);
      }
    }
  }

  lemma UnsetEnded(
    ss: seq<Slots>, m: Slots, all: Slots, names: set<string>, r: Ends, q: Res, size: nat)
    requires Wider(m, all, names, size)
    requires Ended(ss + [m], r, q, size) || Ended(ss + [all], r, q, size)
    ensures Ended(ss + [all], Unset(r, names), q, size)
  {
    hide Wider;
    if r.out.Done? {
      UnsetHolds(ss, m, all, names, r, q.w);
    }
  }

  /** From case i on. */
  lemma {:induction false} ChooseMeans(
    ast: StmtAst, cs: seq<(Expr, Stmt)>, other: Stmt, ss: seq<Slots>, m: Slots, all: Slots,
    statics: map<string, nat>, i: nat, v: Value, u: Source, s: Store, w: World, fuel: nat)
    requires ast.SwitchAst? && CasesMean(ast.cases, cs, ss + [m], statics) && i <= |cs|
    requires StmtMeans(ast.other, other, ss + [m], ss + [all], statics)
    requires Holds(ss + [m], s, w) && UsedCases(MakeCases(cs[i..], other)) <= |w.locals|
    requires Wider(m, all, Adds(ast.other), |w.locals|)
    ensures Ended(ss + [all], Unset(Choose(u, ast, i, v, s, statics, fuel), Adds(ast.other)),
                  EvalArms(u, v, MakeCases(cs[i..], other), w, fuel), |w.locals|)
    decreases |cs| - i, 2
  {
    hide Holds, Wider, Perform, EvalStmt, Unset, UsedStmt;
    if i == |cs| {
      assert cs[i..] == [];
      assert StmtMeansAt(ast.other, other, ss + [m], ss + [all], statics, u, s, w, fuel);
      var r, q := Perform(u, ast.other, s, statics, fuel), EvalStmt(u, other, w, fuel);
      UnsetEnded(ss, m, all, Adds(ast.other), r, q, |w.locals|);
    } else {
      assert cs[i..][0] == cs[i] && cs[i..][1..] == cs[i + 1..];
      CaseChosen(ast, cs, other, ss, m, all, statics, i, v, u, s, w, fuel);
    }
  }

  lemma {:induction false} CaseChosen(
    ast: StmtAst, cs: seq<(Expr, Stmt)>, other: Stmt, ss: seq<Slots>, m: Slots, all: Slots,
    statics: map<string, nat>, i: nat, v: Value, u: Source, s: Store, w: World, fuel: nat)
    requires ast.SwitchAst? && CasesMean(ast.cases, cs, ss + [m], statics) && i < |cs|
    requires StmtMeans(ast.other, other, ss + [m], ss + [all], statics)
    requires Holds(ss + [m], s, w) && UsedCases(MakeCases(cs[i..], other)) <= |w.locals|
    requires Wider(m, all, Adds(ast.other), |w.locals|)
    ensures Ended(ss + [all], Unset(Choose(u, ast, i, v, s, statics, fuel), Adds(ast.other)),
                  EvalArms(u, v, MakeCases(cs[i..], other), w, fuel), |w.locals|)
    decreases |cs| - i, 1
  {
    hide Holds, Wider, Perform, Inner, EvalExpr, EvalStmt, Unset, UsedStmt, UsedExpr, PrimOut, Operate, Ended,
      InnerMeans, Evaluate, StmtMeans;
    var test, body, rest := cs[i].0, cs[i].1, MakeCases(cs[i + 1..], other);
    assert cs[i..][0] == cs[i] && cs[i..][1..] == cs[i + 1..];
    assert CaseMeans(ast.cases[i], cs[i], ss + [m], statics);
    LabelMeans(u, ast.cases[i].0, test, ss + [m], statics, s, w, fuel);
    ArmsIs(u, v, test, body, rest, w, fuel);
    var c, q := Evaluate(u, ast.cases[i].0, s.(scopes := [map[]]), statics), EvalExpr(u, test, w, fuel);
    if !c.out.Done? {
      EndedEarly(ss + [all], c, Adds(ast.other), EvalArms(u, v, MakeCases(cs[i..], other), w, fuel), |w.locals|);
    } else {
      var x := s.(heap := c.s.heap);
      OperatorEnds(u, Ueql, [v] + c.out.vs, ss + [m], x, q.w);
      var p, p' := Operate(u, Ueql, [v] + c.out.vs, x), PrimOut(u, Simple(Ueql), [v] + c.out.vs, q.w);
      AfterLabel(ast, cs, other, ss, m, all, statics, i, v, u, p, p', |w.locals|, fuel);
    }
  }

  /** The comparison with a label has ended with r, in the tree with q. */
  lemma {:induction false} AfterLabel(
    ast: StmtAst, cs: seq<(Expr, Stmt)>, other: Stmt, ss: seq<Slots>, m: Slots, all: Slots,
    statics: map<string, nat>, i: nat, v: Value, u: Source, r: Ends, q: Res, size: nat, fuel: nat)
    requires ast.SwitchAst? && CasesMean(ast.cases, cs, ss + [m], statics) && i < |cs|
    requires StmtMeans(ast.other, other, ss + [m], ss + [all], statics)
    requires UsedStmt(cs[i].1) <= size && UsedCases(MakeCases(cs[i + 1..], other)) <= size
    requires Wider(m, all, Adds(ast.other), size)
    requires Ended(ss + [m], r, q, size) && (r.out.Done? ==> |r.out.vs| == 1)
    ensures Ended(ss + [all], Unset(ChosenBy(u, ast, i, v, r, statics, fuel), Adds(ast.other)),
                  ArmBy(u, v, cs[i].1, MakeCases(cs[i + 1..], other), q, fuel), size)
    decreases |cs| - i, 0
  {
    hide Holds, Wider, Inner, EvalStmt, Unset, UsedStmt, StmtMeans, Choose, EvalArms, UsedCases, MakeCases;
    if !r.out.Done? {
      UnsetEnded(ss, m, all, Adds(ast.other), r, q, size);
    } else if Truthy(r.out.vs[0]) {
      ChooseMeans(ast, cs, other, ss, m, all, statics, i + 1, v, u, r.s, q.w, fuel);
    } else {
      assert CaseMeans(ast.cases[i], cs[i], ss + [m], statics);
      assert InnerMeansAt(ast.cases[i].1, cs[i].1, ss + [m], statics, u, r.s, q.w, fuel);
      var a, b := Inner(u, ast.cases[i].1, r.s, statics, fuel), EvalStmt(u, cs[i].1, q.w, fuel);
      UnsetEnded(ss, m, all, Adds(ast.other), a, b, size);
    }
  }

  /** What happens after the comparison with label i. */
  function ChosenBy(
    u: Source, ast: StmtAst, i: nat, v: Value, r: Ends, statics: map<string, nat>, fuel: nat): Ends
    requires ast.SwitchAst? && i < |ast.cases| && (r.out.Done? ==> |r.out.vs| == 1)
  {
    if !r.out.Done? then r
    else if Truthy(r.out.vs[0]) then Choose(u, ast, i + 1, v, r.s, statics, fuel)
    else Inner(u, ast.cases[i].1, r.s, statics, fuel)
  }

  function ArmBy(u: Source, v: Value, body: Stmt, rest: Cases, q: Res, fuel: nat): Res {
    if !q.out.Done? then q
    else if |q.out.vs| == 1 && Truthy(q.out.vs[0]) then EvalArms(u, v, rest, q.w, fuel)
    else EvalStmt(u, body, q.w, fuel)
  }

  lemma ArmsIs(u: Source, v: Value, test: Expr, body: Stmt, rest: Cases, w: World, fuel: nat)
    ensures EvalArms(u, v, CCons(test, S(body), rest), w, fuel) ==
      var r := BigStep.One(EvalExpr(u, test, w, fuel));
      if !r.out.Done? then r
      else ArmBy(u, v, body, rest, PrimOut(u, Simple(Ueql), [v] + r.out.vs, r.w), fuel)
  {
    hide EvalExpr, EvalStmt;
  }

  lemma EndedEarly(ss: seq<Slots>, r: Ends, names: set<string>, q: Res, size: nat)
    requires !r.out.Done?
    requires r.out.Outside? ||
      (q.out == r.out && (r.out.OutOfFuel? || (q.w.globals == r.s.globals && q.w.heap == r.s.heap)))
    ensures Ended(ss, Unset(r, names), q, size)
  {
  }

  lemma LabelMeans(
    u: Source, ast: ExprAst, e: Expr, ss: seq<Slots>, statics: map<string, nat>, s: Store, w: World, fuel: nat)
    requires ExprMeans(ast, e, [map[]], statics) && Holds(ss, s, w) && UsedExpr(e) <= |w.locals|
    ensures var r, q := Evaluate(u, ast, s.(scopes := [map[]]), statics), EvalExpr(u, e, w, fuel);
      r.out.Outside? ||
      (&& q.out == r.out && (r.out.OutOfFuel? || (q.w.globals == r.s.globals && q.w.heap == r.s.heap))
       && (r.out.Done? ==> |r.out.vs| == 1 && |q.w.locals| == |w.locals| && Holds(ss, s.(heap := r.s.heap), q.w)))
  {
    hide LevelHolds;
    assert LevelHolds(map[], map[], w.locals) by { NothingHeld(w.locals); }
    assert ExprMeansAt(ast, e, [map[]], statics, u, s.(scopes := [map[]]), w, fuel);
  }

  lemma NothingHeld(locals: seq<Value>)
    ensures LevelHolds(map[], map[], locals)
  {
  }

  lemma SwitchMeans(
    ast: StmtAst, x: Expr, cs: seq<(Expr, Stmt)>, other: Stmt, ss: seq<Slots>, m: Slots, all: Slots,
    statics: map<string, nat>, size: nat)
    requires ast.SwitchAst? && ExprMeans(ast.subject, x, ss + [m], statics)
    requires CasesMean(ast.cases, cs, ss + [m], statics)
    requires StmtMeans(ast.other, other, ss + [m], ss + [all], statics)
    requires Wider(m, all, Adds(ast.other), size) && (all != m ==> UsedStmt(other) >= size)
    ensures StmtMeans(ast, SwitchStmt(x, MakeCases(cs, other)), ss + [m], ss + [all], statics)
  {
    hide StmtMeansAt;
    forall u, s, w, fuel
      ensures StmtMeansAt(ast, SwitchStmt(x, MakeCases(cs, other)), ss + [m], ss + [all], statics, u, s, w, fuel)
    {
      SwitchMeansAt(ast, x, cs, other, ss, m, all, statics, size, u, s, w, fuel);
    }
  }

  lemma SwitchMeansAt(
    ast: StmtAst, x: Expr, cs: seq<(Expr, Stmt)>, other: Stmt, ss: seq<Slots>, m: Slots, all: Slots,
    statics: map<string, nat>, size: nat, u: Source, s: Store, w: World, fuel: nat)
    requires ast.SwitchAst? && ExprMeans(ast.subject, x, ss + [m], statics)
    requires CasesMean(ast.cases, cs, ss + [m], statics)
    requires StmtMeans(ast.other, other, ss + [m], ss + [all], statics)
    requires Wider(m, all, Adds(ast.other), size) && (all != m ==> UsedStmt(other) >= size)
    ensures StmtMeansAt(ast, SwitchStmt(x, MakeCases(cs, other)), ss + [m], ss + [all], statics, u, s, w, fuel)
  {
    hide Holds, EvalExpr, EvalArms, Choose, Unset, UsedExpr, UsedCases, MakeCases, StmtMeans, CasesMean, Wider;
    var t := SwitchStmt(x, MakeCases(cs, other));
    if Holds(ss + [m], s, w) && UsedStmt(t) <= |w.locals| {
      assert ExprMeansAt(ast.subject, x, ss + [m], statics, u, s, w, fuel);
      var v, q := Evaluate(u, ast.subject, s, statics), EvalExpr(u, x, w, fuel);
      if v.out.Done? {
        assert cs[0..] == cs;
        DefaultUsed(cs, other);
        WiderFits(m, all, Adds(ast.other), size, |w.locals|);
        ChooseMeans(ast, cs, other, ss, m, all, statics, 0, v.out.vs[0], u, v.s, q.w, fuel);
      }
    }
  }

  lemma {:induction false} DefaultUsed(cs: seq<(Expr, Stmt)>, other: Stmt)
    ensures UsedCases(MakeCases(cs, other)) >= UsedStmt(other)
    decreases |cs|
  {
    if cs != [] { DefaultUsed(cs[1..], other); } else { assert UsedNode(S(other)) == UsedStmt(other); }
  }

  lemma WiderFits(m: Slots, all: Slots, names: set<string>, size: nat, more: nat)
    requires Wider(m, all, names, size) && (all != m ==> more >= size)
    ensures Wider(m, all, names, more)
  {
  }

  /** Variables that are alive have different slots, all in use. */
  lemma {:induction false} StackApart(scope: Scope)
    requires scope.Valid() && scope.Packed()
    ensures Apart(scope.Stack()) && Below(scope.Stack(), scope.Size())
    decreases scope.depth
  {
    var base, m, n := scope.Beneath(), scope.vars, scope.Base();
    assert scope.Stack() == base + [m];
    if scope.parent != null { StackApart(scope.parent); }
    assert Apart(base) && Below(base, n);
    OneMoreApart(base, m, n, scope.Size());
  }

  lemma OneMoreApart(base: seq<Slots>, m: Slots, n: nat, size: nat)
    requires Apart(base) && Below(base, n) && n <= size
    requires forall x :: x in m ==> n <= m[x] < size
    requires forall x, y :: x in m && y in m && x != y ==> m[x] != m[y]
    ensures Apart(base + [m]) && Below(base + [m], size)
  {
    var ss := base + [m];
    forall i, j, x, y | 0 <= i < |ss| && 0 <= j < |ss| && x in ss[i] && y in ss[j] && ss[i][x] == ss[j][y]
      ensures i == j && x == y
    {
      if i < |base| { assert ss[i] == base[i] && base[i][x] < n; }
      if j < |base| { assert ss[j] == base[j] && base[j][y] < n; }
    }
    forall i, x | 0 <= i < |ss| && x in ss[i] ensures ss[i][x] < size {
      if i < |base| { assert ss[i] == base[i]; }
    }
  }
}
