/** A statement that the analysis accepts has a meaning by names, in every store that has the
    names it sees, unless the default of a switch declares something. */
module Definite {
  import opened Values
  import opened Sst
  import opened Frames
  import opened BigStep
  import opened Syntax
  import opened NamesToSlots
  import opened Analysis

  /** Operators with as many operands as they take. */
  predicate RightOperands(ast: ExprAst) {
    match ast
    case LitAst(_) => true
    case VarAst(_) => true
    case UnaryAst(op, e) => SimplePops(op) == 1 && RightOperands(e)
    case BinaryAst(op, l, r) => SimplePops(op) == 2 && RightOperands(l) && RightOperands(r)
  }

  /** As many parts as fit in one byte. */
  predicate SmallGroups(ast: BindAst) {
    ast.GroupAst? ==> |ast.subs| < 256 && forall i :: 0 <= i < |ast.subs| ==> SmallGroups(ast.subs[i])
  }

  /** Right operands, small groups, and no switch whose default declares anything. */
  predicate Regular(ast: StmtAst) {
    match ast
    case NoOpAst => true
    case ExprStmtAst(e) => RightOperands(e)
    case VarStmtAst(bind, init) => SmallGroups(bind) && RightOperands(init)
    case AssignAst(_, e) => RightOperands(e)
    case BlockAst(stmts) => forall i :: 0 <= i < |stmts| ==> Regular(stmts[i])
    case IfAst(c, t, f) => RightOperands(c) && Regular(t) && (f.Some? ==> Regular(f.value))
    case WhileAst(c, b) => RightOperands(c) && Regular(b)
    case LoopAst(b) => Regular(b)
    case SwitchAst(x, cases, other) =>
      && RightOperands(x) && Regular(other) && Adds(other) == {}
      && forall i :: 0 <= i < |cases| ==> RightOperands(cases[i].0) && Regular(cases[i].1)
    case ThrowAst(e) => RightOperands(e)
  }

  /** Some scope has the variable. */
  ghost predicate Seen(scopes: seq<Vars>, x: string) {
    exists k :: 0 <= k < |scopes| && x in scopes[k]
  }

  /** No variable is without a value. */
  ghost predicate AllSet(scopes: seq<Vars>) {
    forall k, x :: 0 <= k < |scopes| && x in scopes[k] ==> scopes[k][x].Some?
  }

  /** The names known are there, with values. */
  ghost predicate Ready(s: Store, known: set<string>, statics: map<string, nat>) {
    && s.scopes != [] && AllSet(s.scopes) && (forall x :: x in known ==> Seen(s.scopes, x))
    && forall x :: x in statics ==> statics[x] < |s.globals|
  }

  /** Nothing is lost on the way from s to t. */
  ghost predicate Grown(s: Store, t: Store) {
    && |t.scopes| == |s.scopes| && |t.globals| == |s.globals|
    && forall k :: 0 <= k < |s.scopes| ==> s.scopes[k].Keys <= t.scopes[k].Keys
  }

  /** It ends in a way that is described; if it falls through, the names it declared are there. */
  ghost predicate Meant(s: Store, r: Ends, known: set<string>, statics: map<string, nat>) {
    !r.out.Outside? && (r.out.Done? ==> Grown(s, r.s) && Ready(r.s, known, statics))
  }

  lemma SeenLevel(scopes: seq<Vars>, x: string)
    requires Seen(scopes, x)
    ensures Level(scopes, x) >= 0
  {
  }

  lemma {:induction false} ExprMeant(
    u: Source, ast: ExprAst, s: Store, known: set<string>, statics: map<string, nat>)
    requires ScopedExpr(ast, known + statics.Keys) && RightOperands(ast) && Ready(s, known, statics)
    ensures !Evaluate(u, ast, s, statics).out.Outside?
    decreases ast
  {
    match ast
    case LitAst(_) =>
    case VarAst(name) => if name in known { SeenLevel(s.scopes, name); }
    case UnaryAst(_, e) => ExprMeant(u, e, s, known, statics);
    case BinaryAst(_, l, r) =>
      ExprMeant(u, l, s, known, statics);
      ExprMeant(u, r, Evaluate(u, l, s, statics).s, known, statics);
  }

  lemma WriteMeant(name: string, v: Value, s: Store, known: set<string>, statics: map<string, nat>)
    requires Ready(s, known, statics) && name in known + statics.Keys
    ensures Meant(s, Write(name, v, s, statics), known, statics)
  {
    if name in known { SeenLevel(s.scopes, name); }
    StillSeen(s, Write(name, v, s, statics).s, known);
  }

  lemma StillSeen(s: Store, t: Store, known: set<string>)
    requires Grown(s, t) && forall x :: x in known ==> Seen(s.scopes, x)
    ensures forall x :: x in known ==> Seen(t.scopes, x)
  {
    forall x | x in known ensures Seen(t.scopes, x) {
      var k :| 0 <= k < |s.scopes| && x in s.scopes[k];
      assert x in t.scopes[k];
    }
  }

  lemma {:induction false} DeclareMeant(
    u: Source, ast: BindAst, v: Value, s: Store, known: set<string>, statics: map<string, nat>)
    requires SmallGroups(ast) && Ready(s, known, statics)
    ensures Meant(s, Declare(u, ast, v, s), known + (set x | x in Names(ast)), statics)
    decreases ast
  {
    match ast
    case NewVarAst(name) =>
      var t := Declare(u, ast, v, s).s;
      StillSeen(s, t, known);
      assert name in t.scopes[|t.scopes| - 1];
      assert Seen(t.scopes, name);
    case GroupAst(subs) =>
      if u.env.ops.elements(v, s.heap).Some? && |u.env.ops.elements(v, s.heap).value| >= |subs| {
        DeclareEachMeant(u, subs, u.env.ops.elements(v, s.heap).value[..|subs|], s, known, statics);
      }
  }

  lemma {:induction false} DeclareEachMeant(
    u: Source, subs: seq<BindAst>, vs: seq<Value>, s: Store, known: set<string>, statics: map<string, nat>)
    requires |vs| == |subs| && Ready(s, known, statics)
    requires forall i :: 0 <= i < |subs| ==> SmallGroups(subs[i])
    ensures Meant(s, DeclareEach(u, subs, vs, s), known + (set x | x in AllNames(subs)), statics)
    decreases subs
  {
    if subs != [] {
      var r := DeclareEach(u, Front(subs), Front(vs), s);
      var names := set x | x in AllNames(Front(subs));
      DeclareEachMeant(u, Front(subs), Front(vs), s, known, statics);
      if r.out.Done? {
        DeclareMeant(u, Last(subs), Last(vs), r.s, known + names, statics);
        assert (known + names) + (set x | x in Names(Last(subs))) == known + (set x | x in AllNames(subs));
      }
    } else {
      assert known + (set x | x in AllNames(subs)) == known;
    }
  }

  /** Going in keeps every name, coming out leaves what was there before. */
  lemma InReady(s: Store, known: set<string>, statics: map<string, nat>)
    requires Ready(s, known, statics)
    ensures Ready(s.(scopes := s.scopes + [map[]]), known, statics)
  {
    var t := s.(scopes := s.scopes + [map[]]);
    forall x | x in known ensures Seen(t.scopes, x) {
      var k :| 0 <= k < |s.scopes| && x in s.scopes[k];
      assert x in t.scopes[k];
    }
  }

  lemma OutMeant(s: Store, r: Ends, known: set<string>, more: set<string>, statics: map<string, nat>)
    requires Ready(s, known, statics) && Meant(s.(scopes := s.scopes + [map[]]), r, more, statics)
    ensures Meant(s, Leave(r), known, statics)
  {
    if r.out.Done? { StillSeen(s, Leave(r).s, known); }
  }

  lemma MeantFrom(s: Store, t: Store, r: Ends, known: set<string>, statics: map<string, nat>)
    requires Grown(s, t) && Meant(t, r, known, statics)
    ensures Meant(s, r, known, statics)
  {
  }

  lemma HeapOnly(s: Store, h: Heap, known: set<string>, statics: map<string, nat>)
    requires Ready(s, known, statics)
    ensures Ready(s.(heap := h), known, statics) && Grown(s, s.(heap := h))
  {
  }

  lemma {:induction false} StmtMeant(
    u: Source, ast: StmtAst, s: Store, own: set<string>, known: set<string>, statics: map<string, nat>, fuel: nat)
    requires Scoped(ast, own, known, statics.Keys) && Regular(ast) && Ready(s, known, statics)
    ensures Meant(s, Perform(u, ast, s, statics, fuel), known + Adds(ast), statics)
    decreases fuel, ast, 1
  {
    hide Evaluate, Ready, Grown, Names, ScopedExpr, RightOperands;
    assert Grown(s, s) && known + {} == known by { HeapOnly(s, s.heap, known, statics); }
    match ast
    case NoOpAst =>
    case BlockAst(stmts) =>
      InReady(s, known, statics);
      var inner := s.(scopes := s.scopes + [map[]]);
      StmtsMeant(u, stmts, inner, {}, known, statics, fuel);
      OutMeant(s, InTurn(u, stmts, inner, statics, fuel), known, known + AddsAll(stmts), statics);
    case LoopAst(b) =>
      InnerMeant(u, b, s, known, statics, fuel);
      AgainMeant(u, ast, s, Inner(u, b, s, statics, fuel), own, known, statics, fuel);
    case ExprStmtAst(e) => FirstMeant(u, e, s, known, statics);
    case VarStmtAst(bind, e) =>
      FirstMeant(u, e, s, known, statics);
      var x := Evaluate(u, e, s, statics);
      if x.out.Done? {
        DeclareMeant(u, bind, x.out.vs[0], x.s, known, statics);
        MeantFrom(s, x.s, Declare(u, bind, x.out.vs[0], x.s), known + Adds(ast), statics);
      }
    case AssignAst(name, e) =>
      FirstMeant(u, e, s, known, statics);
      var x := Evaluate(u, e, s, statics);
      if x.out.Done? {
        WriteMeant(name, x.out.vs[0], x.s, known, statics);
        MeantFrom(s, x.s, Write(name, x.out.vs[0], x.s, statics), known, statics);
      }
    case IfAst(c, t, f) =>
      FirstMeant(u, c, s, known, statics);
      var x := Evaluate(u, c, s, statics);
      if x.out.Done? {
        InnerMeant(u, t, x.s, known, statics, fuel);
        if f.Some? { InnerMeant(u, f.value, x.s, known, statics, fuel); }
        MeantFrom(s, x.s, Perform(u, ast, s, statics, fuel), known, statics);
      }
    case WhileAst(c, b) =>
      FirstMeant(u, c, s, known, statics);
      var x := Evaluate(u, c, s, statics);
      if x.out.Done? && Truthy(x.out.vs[0]) {
        InnerMeant(u, b, x.s, known, statics, fuel);
        MeantFrom(s, x.s, Inner(u, b, x.s, statics, fuel), known, statics);
        AgainMeant(u, ast, s, Inner(u, b, x.s, statics, fuel), own, known, statics, fuel);
      }
    case SwitchAst(e, _, other) =>
      FirstMeant(u, e, s, known, statics);
      var x := Evaluate(u, e, s, statics);
      if x.out.Done? {
        var r := Choose(u, ast, 0, x.out.vs[0], x.s, statics, fuel);
        ChooseMeant(u, ast, 0, x.out.vs[0], x.s, own, known, statics, fuel);
        MeantFrom(s, x.s, r, known, statics);
        assert Unset(r, {}) == r by { NoneUnset(r); }
      }
    case ThrowAst(e) => FirstMeant(u, e, s, known, statics);
  }

  /** An expression in a statement. */
  lemma FirstMeant(u: Source, e: ExprAst, s: Store, known: set<string>, statics: map<string, nat>)
    requires ScopedExpr(e, known + statics.Keys) && RightOperands(e) && Ready(s, known, statics)
    ensures var x := Evaluate(u, e, s, statics);
      !x.out.Outside? && Ready(x.s, known, statics) && Grown(s, x.s)
  {
    ExprMeant(u, e, s, known, statics);
    HeapOnly(s, Evaluate(u, e, s, statics).s.heap, known, statics);
  }

  lemma NoneUnset(r: Ends)
    ensures Unset(r, {}) == r
  {
    if r.out.Done? && r.s.scopes != [] {
      var top := Last(r.s.scopes);
      assert (map x | x in top.Keys + {} :: if x in top then top[x] else None) == top;
      assert Front(r.s.scopes) + [top] == r.s.scopes;
    }
  }

  lemma {:induction false} InnerMeant(
    u: Source, ast: StmtAst, s: Store, known: set<string>, statics: map<string, nat>, fuel: nat)
    requires Scoped(ast, {}, known, statics.Keys) && Regular(ast) && Ready(s, known, statics)
    ensures Meant(s, Inner(u, ast, s, statics, fuel), known, statics)
    decreases fuel, ast, 2
  {
    hide Scoped, Regular, Ready, Grown, Meant, Perform;
    InReady(s, known, statics);
    var inner := s.(scopes := s.scopes + [map[]]);
    StmtMeant(u, ast, inner, {}, known, statics, fuel);
    OutMeant(s, Perform(u, ast, inner, statics, fuel), known, known + Adds(ast), statics);
  }

  lemma {:induction false} AgainMeant(
    u: Source, loop: StmtAst, s: Store, r: Ends, own: set<string>, known: set<string>, statics: map<string, nat>,
    fuel: nat)
    requires Scoped(loop, own, known, statics.Keys) && Regular(loop) && Adds(loop) == {}
    requires (r.out.Done? ==> r.out.vs == []) && Meant(s, r, known, statics)
    ensures Meant(s, Again(u, loop, r, statics, fuel), known, statics)
    decreases fuel, loop, 0
  {
    hide Scoped, Regular, Ready, Perform;
    if r.out.Done? && fuel > 0 {
      StmtMeant(u, loop, r.s, own, known, statics, fuel - 1);
      assert known + {} == known;
    }
  }

  /** What statements of a block declare. */
  function AddsAll(stmts: seq<StmtAst>): set<string> {
    if stmts == [] then {} else AddsAll(Front(stmts)) + Adds(Last(stmts))
  }

  lemma {:induction false} AddsFirst(stmts: seq<StmtAst>)
    requires stmts != []
    ensures AddsAll(stmts) == Adds(stmts[0]) + AddsAll(stmts[1..])
    decreases |stmts|
  {
    if |stmts| > 1 {
      AddsFirst(Front(stmts));
      assert Front(stmts)[1..] == Front(stmts[1..]);
    }
  }

  lemma {:induction false} LastScoped(stmts: seq<StmtAst>, own: set<string>, known: set<string>, statics: set<string>)
    requires stmts != [] && ScopedAll(stmts, own, known, statics)
    ensures ScopedAll(Front(stmts), own, known, statics)
    ensures var more := AddsAll(Front(stmts)); Scoped(Last(stmts), own + more, known + more, statics)
    decreases |stmts|
  {
    hide Scoped, Adds;
    if |stmts| > 1 {
      var more, front, rest := Adds(stmts[0]), Front(stmts), stmts[1..];
      LastScoped(rest, own + more, known + more, statics);
      AddsFirst(front);
      assert front[1..] == Front(rest) && front[0] == stmts[0] && Last(rest) == Last(stmts);
      assert (own + more) + AddsAll(Front(rest)) == own + AddsAll(front);
      assert (known + more) + AddsAll(Front(rest)) == known + AddsAll(front);
    } else {
      assert AddsAll(Front(stmts)) == {} && own + {} == own && known + {} == known;
      assert Last(stmts) == stmts[0];
    }
  }

  lemma {:induction false} StmtsMeant(
    u: Source, stmts: seq<StmtAst>, s: Store, own: set<string>, known: set<string>, statics: map<string, nat>,
    fuel: nat)
    requires ScopedAll(stmts, own, known, statics.Keys) && Ready(s, known, statics)
    requires forall i :: 0 <= i < |stmts| ==> Regular(stmts[i])
    ensures Meant(s, InTurn(u, stmts, s, statics, fuel), known + AddsAll(stmts), statics)
    decreases fuel, stmts, 0
  {
    hide Scoped, ScopedAll, Adds, Ready, Regular, Perform;
    if stmts != [] {
      var front, r := AddsAll(Front(stmts)), InTurn(u, Front(stmts), s, statics, fuel);
      LastScoped(stmts, own, known, statics.Keys);
      StmtsMeant(u, Front(stmts), s, own, known, statics, fuel);
      if r.out.Done? {
        StmtMeant(u, Last(stmts), r.s, own + front, known + front, statics, fuel);
        assert (known + front) + Adds(Last(stmts)) == known + AddsAll(stmts);
      }
    } else {
      assert known + {} == known;
    }
  }

  lemma {:induction false} ChooseMeant(
    u: Source, ast: StmtAst, i: nat, v: Value, s: Store, own: set<string>, known: set<string>,
    statics: map<string, nat>, fuel: nat)
    requires ast.SwitchAst? && i <= |ast.cases| && Ready(s, known, statics)
    requires Scoped(ast, own, known, statics.Keys) && Regular(ast)
    ensures Meant(s, Choose(u, ast, i, v, s, statics, fuel), known, statics)
    decreases fuel, ast, 0, |ast.cases| - i
  {
    hide Evaluate, Ready, Grown, Perform;
    if i == |ast.cases| {
      StmtMeant(u, ast.other, s, own, known, statics, fuel);
      assert known + {} == known;
    } else {
      var bare := s.(scopes := [map[]]);
      assert CaseScoped(ast.cases[i], known, statics.Keys) && {} + statics.Keys == statics.Keys;
      assert Ready(bare, {}, statics) by { LabelReady(s, known, statics); }
      ExprMeant(u, ast.cases[i].0, bare, {}, statics);
      var c := Evaluate(u, ast.cases[i].0, bare, statics);
      if c.out.Done? {
        var q := Operate(u, Ueql, [v] + c.out.vs, s.(heap := c.s.heap));
        if q.out.Done? {
          HeapOnly(s, q.s.heap, known, statics);
          ChooseMeant(u, ast, i + 1, v, q.s, own, known, statics, fuel);
          InnerMeant(u, ast.cases[i].1, q.s, known, statics, fuel);
          MeantFrom(s, q.s, Choose(u, ast, i, v, s, statics, fuel), known, statics);
        }
      }
    }
  }

  lemma LabelReady(s: Store, known: set<string>, statics: map<string, nat>)
    requires Ready(s, known, statics)
    ensures Ready(s.(scopes := [map[]]), {}, statics)
  {
  }

  /** The tree of a regular statement does what the statement does, wherever the frame holds
      the variables it sees. */
  lemma TreeFollows(
    ast: StmtAst, t: Stmt, ss: seq<Slots>, after: seq<Slots>, own: set<string>, known: set<string>,
    statics: map<string, nat>, u: Source, s: Store, w: World, fuel: nat)
    requires StmtMeans(ast, t, ss, after, statics) && Scoped(ast, own, known, statics.Keys) && Regular(ast)
    requires Ready(s, known, statics) && Holds(ss, s, w) && UsedStmt(t) <= |w.locals|
    ensures var r, q := Perform(u, ast, s, statics, fuel), EvalStmt(u, t, w, fuel);
      && q.out == r.out && !q.out.Outside?
      && (!q.out.OutOfFuel? ==> q.w.globals == r.s.globals && q.w.heap == r.s.heap)
      && (q.out.Done? ==> Holds(after, r.s, q.w) && Ready(r.s, known + Adds(ast), statics))
  {
    hide Perform, EvalStmt, UsedStmt, Scoped, Regular, Ready, Holds;
    StmtMeant(u, ast, s, own, known, statics, fuel);
    assert StmtMeansAt(ast, t, ss, after, statics, u, s, w, fuel);
  }

  /** A switch whose default declares a variable that is read after it. */
  function DefaultDeclares(name: string): StmtAst {
    BlockAst([
      SwitchAst(LitAst(NullLit), [(LitAst(NullLit), NoOpAst)], VarStmtAst(NewVarAst(name), LitAst(NullLit))),
      ExprStmtAst(VarAst(name))])
  }

  /** It is accepted, though the variable was never given a value when the first case ran. */
  lemma UnsetAfterSwitch(u: Source, name: string, heap: Heap, fuel: nat)
    ensures Scoped(DefaultDeclares(name), {}, {}, {})
    ensures Perform(u, DefaultDeclares(name), Store([], [map[]], heap), map[], fuel).out.Outside?
  {
    hide Choose, Unset;
    var ast, s := DefaultDeclares(name), Store([], [map[]], heap);
    DefaultScoped(name);
    var sw, start, after := ast.stmts[0], Store([], [map[], map[]], heap), Store([], [map[], map[name := None]], heap);
    assert s.scopes + [map[]] == start.scopes;
    FirstCaseRuns(u, sw, start, fuel);
    UnsetIs(start, name);
    OneName(name);
    assert Front(start.scopes) + [map[name := None]] == after.scopes;
    assert Perform(u, sw, start, map[], fuel) == Ends(Done([]), after);
    SecondFails(u, ast.stmts, start, after, fuel);
  }

  lemma DefaultScoped(name: string)
    ensures Scoped(DefaultDeclares(name), {}, {}, {})
  {
    var stmts := DefaultDeclares(name).stmts;
    var c := stmts[0].cases[0];
    OneName(name);
    assert Scoped(c.1, {}, {}, {}) && ScopedExpr(c.0, {});
    assert CaseScoped(c, {}, {});
    assert Scoped(stmts[0].other, {}, {}, {});
    assert Scoped(stmts[0], {}, {}, {}) && Adds(stmts[0]) == {name};
    assert stmts[1..][1..] == [];
    assert ScopedAll(stmts, {}, {}, {});
  }

  lemma OneName(name: string)
    ensures Adds(VarStmtAst(NewVarAst(name), LitAst(NullLit))) == {name}
  {
    assert Names(NewVarAst(name)) == [name];
  }

  lemma UnsetIs(s: Store, name: string)
    requires s.scopes != [] && Last(s.scopes) == map[]
    ensures Unset(Ends(Done([]), s), {name}) == Ends(Done([]), s.(scopes := Front(s.scopes) + [map[name := None]]))
  {
    var top: Vars := map[];
    assert (map x | x in top.Keys + {name} :: if x in top then top[x] else None) == map[name := None];
  }

  lemma NullsAgree(u: Source, s: Store)
    ensures Operate(u, Ueql, [Null, Null], s) == Ends(Done([Bool(false)]), s)
  {
  }

  lemma FirstCaseRuns(u: Source, sw: StmtAst, s: Store, fuel: nat)
    requires sw.SwitchAst? && sw.cases == [(LitAst(NullLit), NoOpAst)] && s.scopes != []
    ensures Choose(u, sw, 0, Null, s, map[], fuel) == Ends(Done([]), s)
  {
    hide Operate;
    NullsAgree(u, s);
    var bare := s.(scopes := [map[]]);
    assert Evaluate(u, LitAst(NullLit), bare, map[]) == Ends(Done([Null]), bare);
    assert [Null] + [Null] == [Null, Null];
    assert Front(s.scopes + [map[]]) == s.scopes;
    assert Inner(u, NoOpAst, s, map[], fuel) == Ends(Done([]), s);
  }

  lemma SecondFails(u: Source, stmts: seq<StmtAst>, s: Store, t: Store, fuel: nat)
    requires |stmts| == 2 && stmts[1].ExprStmtAst? && stmts[1].e.VarAst?
    requires Perform(u, stmts[0], s, map[], fuel) == Ends(Done([]), t)
    requires t.scopes == [map[], map[stmts[1].e.name := None]]
    ensures InTurn(u, stmts, s, map[], fuel).out.Outside?
  {
    assert Front(stmts) == [stmts[0]] && Front([stmts[0]]) == [];
    assert InTurn(u, Front(stmts), s, map[], fuel) == Ends(Done([]), t);
    assert Level(t.scopes, stmts[1].e.name) == 1;
  }
}
