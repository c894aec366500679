/** Syntax of statements and expressions before analysis, and what it means: variables go by
    their names, in scopes one inside the other. */
module Syntax {
  import opened Values
  import opened Sst
  import opened BigStep

  datatype ExprAst =
    | LitAst(lit: Literal)
    | VarAst(name: string)
    | UnaryAst(op: SimpleOp, e: ExprAst)
    | BinaryAst(op: SimpleOp, l: ExprAst, r: ExprAst)

  datatype BindAst = NewVarAst(name: string) | GroupAst(subs: seq<BindAst>)

  datatype StmtAst =
    | NoOpAst
    | ExprStmtAst(e: ExprAst)
    | VarStmtAst(bind: BindAst, init: ExprAst)
    | AssignAst(name: string, e: ExprAst)
    | BlockAst(stmts: seq<StmtAst>)
    | IfAst(cond: ExprAst, thn: StmtAst, els: Option<StmtAst>)
    | WhileAst(cond: ExprAst, body: StmtAst)
    | LoopAst(body: StmtAst)
    | SwitchAst(subject: ExprAst, cases: seq<(ExprAst, StmtAst)>, other: StmtAst)
    | ThrowAst(e: ExprAst)

  function Front<T>(xs: seq<T>): (r: seq<T>)
    requires xs != []
    ensures |r| == |xs| - 1
  {
    xs[..|xs| - 1]
  }

  function Last<T>(xs: seq<T>): T
    requires xs != []
  {
    xs[|xs| - 1]
  }

  /** The variables of a binding, in the order they are declared. */
  function Names(ast: BindAst): seq<string> {
    match ast case NewVarAst(name) => [name] case GroupAst(subs) => AllNames(subs)
  }

  function AllNames(subs: seq<BindAst>): seq<string> {
    if subs == [] then [] else AllNames(Front(subs)) + Names(subs[|subs| - 1])
  }

  /** The names a statement declares in the scope around it. The default of a switch has
      no scope of its own. */
  function Adds(ast: StmtAst): set<string> {
    match ast
    case VarStmtAst(bind, _) => set x | x in Names(bind)
    case SwitchAst(_, _, other) => Adds(other)
    case _ => {}
  }

  /** The variables of a scope; None is one that is declared and was never given a value. */
  type Vars = map<string, Option<Value>>

  /** What a program can see: the innermost scope is the last one. */
  datatype Store = Store(globals: seq<Value>, scopes: seq<Vars>, heap: Heap)

  /** How syntax ends. Outside is what no meaning is given to: unknown names, variables that
      were never given a value, operators with the wrong number of operands. */
  datatype Ends = Ends(out: Out, s: Store)

  /** The innermost scope that has the name; -1 if none has. */
  function Level<T>(scopes: seq<map<string, T>>, name: string): (k: int)
    ensures -1 <= k < |scopes| && (k >= 0 ==> name in scopes[k])
    ensures forall j :: k < j < |scopes| ==> name !in scopes[j]
  {
    if scopes == [] then -1
    else if name in Last(scopes) then |scopes| - 1
    else Level(Front(scopes), name)
  }

  /** A name means the variable of the innermost scope, else the definition or global. */
  function Read(name: string, s: Store, statics: map<string, nat>): (r: Ends)
    ensures r.s == s && (r.out.Done? ==> |r.out.vs| == 1)
  {
    var k := Level(s.scopes, name);
    if k >= 0 then
      match s.scopes[k][name]
      case Some(v) => Ends(Done([v]), s)
      case None => Ends(Outside, s)
    else if name in statics && statics[name] < |s.globals| then Ends(Done([s.globals[statics[name]]]), s)
    else Ends(Outside, s)
  }

  function Write(name: string, v: Value, s: Store, statics: map<string, nat>): (r: Ends)
    ensures r.out.Done? ==> r.out.vs == []
  {
    var k := Level(s.scopes, name);
    if k >= 0 then Ends(Done([]), s.(scopes := s.scopes[k := s.scopes[k][name := Some(v)]]))
    else if name in statics && statics[name] < |s.globals| then
      Ends(Done([]), s.(globals := s.globals[statics[name] := v]))
    else Ends(Outside, s)
  }

  function Operate(u: Source, op: SimpleOp, args: seq<Value>, s: Store): (r: Ends)
    ensures r.s == s.(heap := r.s.heap) && (r.out.Done? ==> |r.out.vs| == 1)
  {
    if |args| != SimplePops(op) || op == AtWrite then Ends(Outside, s)
    else match Apply(u.env.ops, Simple(op), args, s.heap)
      case Ok(v, h) => Ends(Done([v]), s.(heap := h))
      case Err(x, h) => Ends(Raised(x), s.(heap := h))
  }

  /** The value of an expression: operands from left to right, then the operator. */
  function Evaluate(u: Source, ast: ExprAst, s: Store, statics: map<string, nat>): (r: Ends)
    ensures r.s == s.(heap := r.s.heap) && (r.out.Done? ==> |r.out.vs| == 1)
  {
    match ast
    case LitAst(lit) =>
      var r := EvalLit(u, lit, World(s.globals, [], s.heap));
      Ends(r.out, s.(heap := r.w.heap))
    case VarAst(name) => Read(name, s, statics)
    case UnaryAst(op, e) =>
      var x := Evaluate(u, e, s, statics);
      if !x.out.Done? then x else Operate(u, op, x.out.vs, x.s)
    case BinaryAst(op, l, r) =>
      var x := Evaluate(u, l, s, statics);
      if !x.out.Done? then x
      else
        var y := Evaluate(u, r, x.s, statics);
        if !y.out.Done? then y else Operate(u, op, x.out.vs + y.out.vs, y.s)
  }

  /** Variables are declared in the innermost scope; a group takes a tuple apart, its parts
      from left to right. */
  function Declare(u: Source, ast: BindAst, v: Value, s: Store): (r: Ends)
    ensures r.out.Done? ==> r.out.vs == []
    decreases ast
  {
    match ast
    case NewVarAst(name) =>
      if s.scopes == [] then Ends(Outside, s)
      else Ends(Done([]), s.(scopes := Front(s.scopes) + [Last(s.scopes)[name := Some(v)]]))
    case GroupAst(subs) =>
      if |subs| >= 256 then Ends(Outside, s)
      else match u.env.ops.elements(v, s.heap)
      case None => Ends(Raised(Str("Not a tuple")), s)
      case Some(vs) =>
        if |vs| < |subs| then Ends(Raised(Str("Cannot unpack tuple")), s)
        else DeclareEach(u, subs, vs[..|subs|], s)
  }

  function DeclareEach(u: Source, subs: seq<BindAst>, vs: seq<Value>, s: Store): (r: Ends)
    requires |vs| == |subs|
    ensures r.out.Done? ==> r.out.vs == []
    decreases subs
  {
    if subs == [] then Ends(Done([]), s)
    else
      var r := DeclareEach(u, Front(subs), Front(vs), s);
      if !r.out.Done? then r else Declare(u, subs[|subs| - 1], Last(vs), r.s)
  }

  /** In a scope of its own, which is gone afterwards. */
  function Inner(u: Source, ast: StmtAst, s: Store, statics: map<string, nat>, fuel: nat): (r: Ends)
    ensures r.out.Done? ==> r.out.vs == []
    decreases fuel, ast, 2
  {
    Leave(Perform(u, ast, s.(scopes := s.scopes + [map[]]), statics, fuel))
  }

  function Leave(r: Ends): (q: Ends)
    ensures q.out == r.out
  {
    if r.out.Done? && r.s.scopes != [] then r.(s := r.s.(scopes := Front(r.s.scopes))) else r
  }

  /** What a statement does. */
  function Perform(u: Source, ast: StmtAst, s: Store, statics: map<string, nat>, fuel: nat): (r: Ends)
    ensures r.out.Done? ==> r.out.vs == []
    decreases fuel, ast, 1
  {
    match ast
    case NoOpAst => Ends(Done([]), s)
    case ExprStmtAst(e) =>
      var x := Evaluate(u, e, s, statics);
      if x.out.Done? then Ends(Done([]), x.s) else x
    case VarStmtAst(bind, init) =>
      var x := Evaluate(u, init, s, statics);
      if x.out.Done? then Declare(u, bind, x.out.vs[0], x.s) else x
    case AssignAst(name, e) =>
      var x := Evaluate(u, e, s, statics);
      if x.out.Done? then Write(name, x.out.vs[0], x.s, statics) else x
    case BlockAst(stmts) => Leave(InTurn(u, stmts, s.(scopes := s.scopes + [map[]]), statics, fuel))
    case IfAst(c, t, f) =>
      var x := Evaluate(u, c, s, statics);
      if !x.out.Done? then x
      else if Truthy(x.out.vs[0]) then Inner(u, t, x.s, statics, fuel)
      else if f.Some? then Inner(u, f.value, x.s, statics, fuel)
      else Ends(Done([]), x.s)
    case WhileAst(c, b) =>
      var x := Evaluate(u, c, s, statics);
      if !x.out.Done? then x
      else if !Truthy(x.out.vs[0]) then Ends(Done([]), x.s)
      else Again(u, ast, Inner(u, b, x.s, statics, fuel), statics, fuel)
    case LoopAst(b) => Again(u, ast, Inner(u, b, s, statics, fuel), statics, fuel)
    case SwitchAst(x, _, other) =>
      var v := Evaluate(u, x, s, statics);
      if !v.out.Done? then v else Unset(Choose(u, ast, 0, v.out.vs[0], v.s, statics, fuel), Adds(other))
    case ThrowAst(e) =>
      var x := Evaluate(u, e, s, statics);
      if x.out.Done? then Ends(Raised(x.out.vs[0]), x.s) else x
  }

  /** After a round of a loop. */
  function Again(u: Source, loop: StmtAst, r: Ends, statics: map<string, nat>, fuel: nat): (q: Ends)
    requires r.out.Done? ==> r.out.vs == []
    ensures q.out.Done? ==> q.out.vs == []
    decreases fuel, loop, 0
  {
    if !r.out.Done? then r
    else if fuel == 0 then Ends(OutOfFuel, r.s)
    else Perform(u, loop, r.s, statics, fuel - 1)
  }

  function InTurn(u: Source, stmts: seq<StmtAst>, s: Store, statics: map<string, nat>, fuel: nat): (r: Ends)
    ensures r.out.Done? ==> r.out.vs == []
    decreases fuel, stmts, 0
  {
    if stmts == [] then Ends(Done([]), s)
    else
      var r := InTurn(u, Front(stmts), s, statics, fuel);
      if !r.out.Done? then r else Perform(u, stmts[|stmts| - 1], r.s, statics, fuel)
  }

  /** From case i on: the body of the first label that v is not unequal to, else the default.
      Labels see no variables. */
  function Choose(u: Source, ast: StmtAst, i: nat, v: Value, s: Store, statics: map<string, nat>, fuel: nat): (r: Ends)
    requires ast.SwitchAst? && i <= |ast.cases|
    ensures r.out.Done? ==> r.out.vs == []
    decreases fuel, ast, 0, |ast.cases| - i
  {
    if i == |ast.cases| then Perform(u, ast.other, s, statics, fuel)
    else
      var c := Evaluate(u, ast.cases[i].0, s.(scopes := [map[]]), statics);
      if !c.out.Done? then c
      else
        var q := Operate(u, Ueql, [v] + c.out.vs, s.(heap := c.s.heap));
        if !q.out.Done? then q
        else if Truthy(q.out.vs[0]) then Choose(u, ast, i + 1, v, q.s, statics, fuel)
        else Inner(u, ast.cases[i].1, q.s, statics, fuel)
  }

  /** What the default of a switch declares is declared after it, even if it did not run. */
  function Unset(r: Ends, names: set<string>): (q: Ends)
    ensures q.out == r.out
  {
    if r.out.Done? && r.s.scopes != [] then
      var top := Last(r.s.scopes);
      var all := map x | x in top.Keys + names :: if x in top then top[x] else None;
      r.(s := r.s.(scopes := Front(r.s.scopes) + [all]))
    else r
  }
}
