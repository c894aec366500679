/** The optimizer: constants are folded and branches decided ahead on the semantic tree.
    It looks only into the operands of unary, binary and ternary nodes and of calls by
    name, and into returns, assignments, throws, blocks, ifs and while loops. */
module Optimize {
  import opened Values
  import opened Sst
  import opened BigStep

  /** Folding of floats at compile time; nothing is assumed about it. */
  datatype FloatFolds = FloatFolds(
    arith: (SimpleOp, Literal, Literal) -> Option<Literal>,
    negate: nat -> nat,
    truthy: nat -> bool)

  /** The integer a bool, char or int literal is promoted to; characters are unsigned here. */
  function Number(l: Literal): Option<int> {
    match l
    case BoolLit(b) => Some(if b then 1 else 0)
    case CharLit(c) => Some(c)
    case IntLit(i) => Some(i)
    case _ => None
  }

  predicate Folds(op: SimpleOp) {
    op == Add || op == Sub || op == Mlt || op == Div || op == Mod
  }

  function FoldNumbers(op: SimpleOp, a: int, b: int): Option<Literal>
    requires Folds(op)
  {
    match op
    case Add => Some(IntLit(a + b))
    case Sub => Some(IntLit(a - b))
    case Mlt => Some(IntLit(a * b))
    case Div => if b == 0 then None else Some(IntLit(TruncDiv(a, b)))
    case Mod => if b == 0 then None else Some(IntLit(TruncMod(a, b)))
  }

  /** A binary operator on two literals; None leaves it to the run time. */
  function FoldBinary(ff: FloatFolds, op: SimpleOp, l: Literal, r: Literal): Option<Literal> {
    if !Folds(op) then None
    else if Number(l).Some? && Number(r).Some? then FoldNumbers(op, Number(l).value, Number(r).value)
    else if (Number(l).Some? || l.FloatLit?) && (Number(r).Some? || r.FloatLit?) then ff.arith(op, l, r)
    else if op == Add && l.StrLit? && r.StrLit? then Some(StrLit(l.s + r.s))
    else None
  }

  predicate IsArray(e: Expr) {
    e.Strict? && e.node == ArrayLit
  }

  /** Which way a branch on this expression goes; None if it is not decided ahead. */
  function Decided(ff: FloatFolds, e: Expr): Option<bool> {
    if IsArray(e) then Some(true)
    else if !e.Lit? then None
    else match e.lit
      case NullLit => Some(false)
      case BoolLit(b) => Some(b)
      case CharLit(c) => Some(c != 0)
      case IntLit(i) => Some(i != 0)
      case FloatLit(bits) => Some(ff.truthy(bits))
      case StrLit(_) => Some(true)
      case TypeLit(_) => None
  }

  function FoldNegation(ff: FloatFolds, l: Literal): Option<Literal> {
    if Number(l).Some? then Some(IntLit(-Number(l).value))
    else if l.FloatLit? then Some(FloatLit(ff.negate(l.bits)))
    else None
  }

  /** A unary node over an operand that is optimized already. */
  function FoldUnary(ff: FloatFolds, op: SimpleOp, x: Expr): Expr {
    var kept := Strict(Unary(op), ECons(x, ENil));
    if op == Neg && x.Lit? && FoldNegation(ff, x.lit).Some? then Lit(FoldNegation(ff, x.lit).value)
    else if op == Not && x != Lit(NullLit) && Decided(ff, x).Some? then Lit(BoolLit(!Decided(ff, x).value))
    else kept
  }

  function FoldNullTest(x: Expr): Expr {
    if x == Lit(NullLit) then Lit(BoolLit(false))
    else if IsArray(x) || (x.Lit? && !x.lit.TypeLit?) then Lit(BoolLit(true))
    else NullTest(x)
  }

  function FoldOperands(ff: FloatFolds, op: SimpleOp, l: Expr, r: Expr): Expr {
    if l.Lit? && r.Lit? && FoldBinary(ff, op, l.lit, r.lit).Some? then Lit(FoldBinary(ff, op, l.lit, r.lit).value)
    else Strict(Binary(op), ECons(l, ECons(r, ENil)))
  }

  function OptExpr(ff: FloatFolds, e: Expr): Expr
    decreases e
  {
    match e
    case CallExpr(fn, args) => CallExpr(fn, OptExprs(ff, args))
    case Strict(Unary(op), ECons(x, ENil)) => FoldUnary(ff, op, OptExpr(ff, x))
    case Strict(Binary(op), ECons(l, ECons(r, ENil))) => FoldOperands(ff, op, OptExpr(ff, l), OptExpr(ff, r))
    case NullTest(x) => FoldNullTest(OptExpr(ff, x))
    case Logic(op, l, r) => Logic(op, OptExpr(ff, l), OptExpr(ff, r))
    case Ternary(c, t, f) =>
      var d := Decided(ff, OptExpr(ff, c));
      if d == Some(true) then OptExpr(ff, t)
      else if d == Some(false) then OptExpr(ff, f)
      else Ternary(OptExpr(ff, c), OptExpr(ff, t), OptExpr(ff, f))
    case _ => e
  }

  function OptExprs(ff: FloatFolds, es: Exprs): Exprs
    decreases es
  {
    match es
    case ENil => ENil
    case ECons(e, tail) => ECons(OptExpr(ff, e), OptExprs(ff, tail))
  }

  function OptStmt(ff: FloatFolds, s: Stmt): Stmt
    decreases s
  {
    match s
    case ReturnStmt(e, target) => ReturnStmt(OptExpr(ff, e), target)
    case Assign(bind, e) => Assign(bind, OptExpr(ff, e))
    case ThrowStmt(e) => ThrowStmt(OptExpr(ff, e))
    case Block(ss) => Block(OptStmts(ff, ss))
    case IfStmt(c, t, f) =>
      DecideIf(ff, OptExpr(ff, c), OptStmt(ff, t), if f.Some? then Some(OptStmt(ff, f.value)) else None)
    case While(c, b) =>
      if Decided(ff, OptExpr(ff, c)) == Some(true) then InfiniteLoop(OptStmt(ff, b))
      else While(OptExpr(ff, c), OptStmt(ff, b))
    case _ => s
  }

  /** A missing branch cannot be picked: the if stays. */
  function DecideIf(ff: FloatFolds, c: Expr, t: Stmt, f: Option<Stmt>): Stmt {
    if Decided(ff, c) == Some(true) then t
    else if Decided(ff, c) == Some(false) && f.Some? then f.value
    else IfStmt(c, t, f)
  }

  function OptStmts(ff: FloatFolds, ss: Stmts): Stmts
    decreases ss
  {
    match ss
    case SNil => SNil
    case SCons(s, tail) => SCons(OptStmt(ff, s), OptStmts(ff, tail))
  }

  /** The value of a literal at run time. */
  function ValueOf(l: Literal): Value
    requires !l.FloatLit? && !l.TypeLit?
  {
    match l
    case NullLit => Null
    case BoolLit(b) => Bool(b)
    case CharLit(c) => Char(Signed8(c))
    case IntLit(i) => Int(i)
    case StrLit(s) => Str(s)
  }

  lemma LiteralValue(u: Source, l: Literal, w: World, fuel: nat)
    requires !l.FloatLit? && !l.TypeLit?
    ensures EvalExpr(u, Lit(l), w, fuel) == Value1(ValueOf(l), w)
  {
  }

  lemma UnaryIs(u: Source, op: SimpleOp, x: Expr, w: World, fuel: nat)
    ensures EvalExpr(u, Strict(Unary(op), ECons(x, ENil)), w, fuel) ==
      var rx := BigStep.One(EvalExpr(u, x, w, fuel));
      if !rx.out.Done? then rx else PrimOut(u, Simple(op), rx.out.vs, rx.w)
  {
    var es := ECons(x, ENil);
    assert EvalArgs(u, ENil, w, fuel) == Unit(w);
    var rx := BigStep.One(EvalExpr(u, x, w, fuel));
    if rx.out.Done? {
      assert EvalArgs(u, ENil, rx.w, fuel) == Unit(rx.w);
      assert rx.out.vs + [] == rx.out.vs;
    }
    assert EvalArgs(u, es, w, fuel) == rx;
  }

  lemma BinaryIs(u: Source, op: SimpleOp, l: Expr, r: Expr, w: World, fuel: nat)
    ensures EvalExpr(u, Strict(Binary(op), ECons(l, ECons(r, ENil))), w, fuel) ==
      var rl := BigStep.One(EvalExpr(u, l, w, fuel));
      if !rl.out.Done? then rl
      else
        var rr := BigStep.One(EvalExpr(u, r, rl.w, fuel));
        if !rr.out.Done? then rr else PrimOut(u, Simple(op), rl.out.vs + rr.out.vs, rr.w)
  {
    var rl := BigStep.One(EvalExpr(u, l, w, fuel));
    if rl.out.Done? {
      var rr := BigStep.One(EvalExpr(u, r, rl.w, fuel));
      if rr.out.Done? {
        assert EvalArgs(u, ENil, rr.w, fuel) == Unit(rr.w);
        assert rr.out.vs + [] == rr.out.vs;
      }
      assert EvalArgs(u, ECons(r, ENil), rl.w, fuel) == rr;
      assert EvalArgs(u, ECons(l, ECons(r, ENil)), w, fuel) ==
        if !rr.out.Done? then rr else rr.(out := Done(rl.out.vs + rr.out.vs));
    } else {
      assert EvalArgs(u, ECons(l, ECons(r, ENil)), w, fuel) == rl;
    }
  }
}
