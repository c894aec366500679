/** What programs mean: evaluation of the semantic tree. Fuel bounds the nesting of
    calls and loop rounds; a run that needs more ends OutOfFuel. */
module BigStep {
  import opened Values
  import opened Instructions
  import opened Machine
  import opened Sst

  datatype World = World(globals: seq<Value>, locals: seq<Value>, heap: Heap)

  /** Done carries the values left on the stack: one for an expression, none for a
      statement or binding. Left is a return to the end of an immediately invoked
      block; pending are the iterators of the for-each loops it jumped out of, which
      the jump does not take off the stack. Outside marks what this semantics does
      not describe: coroutines, missing slots, operands that are not one value. */
  datatype Out =
    | Done(vs: seq<Value>)
    | Raised(x: Value)
    | Returned(v: Value)
    | Left(target: Label, v: Value, pending: seq<Value>)
    | OutOfFuel
    | Outside

  datatype Res = Res(out: Out, w: World)

  datatype Source = Source(fns: seq<FunctionDecl>, env: Env)

  function Value1(v: Value, w: World): Res { Res(Done([v]), w) }
  function Unit(w: World): Res { Res(Done([]), w) }

  /** An operand must be exactly one value. */
  function One(r: Res): (q: Res)
    ensures q.out.Done? ==> q == r && |q.out.vs| == 1
  {
    if r.out.Done? && |r.out.vs| != 1 then r.(out := Outside) else r
  }

  /** A jump to the end of an immediately invoked block does not cross an expression. */
  function Confine(r: Res): (q: Res)
    ensures !q.out.Left?
  {
    if r.out.Left? then r.(out := Outside) else r
  }

  function PrimOut(u: Source, p: PrimOp, args: seq<Value>, w: World): (r: Res)
    ensures r.out.Done? || r.out.Raised? || r.out.Outside?
    ensures r.out.Done? && Pushes(p) ==> |r.out.vs| == 1
  {
    if |args| != Pops(p) then Res(Outside, w)
    else match Apply(u.env.ops, p, args, w.heap)
      case Ok(v, h) => Res(Done(if Pushes(p) then [v] else []), w.(heap := h))
      case Err(x, h) => Res(Raised(x), w.(heap := h))
  }

  /** The first pool entry with this name. */
  function FindFn(fns: seq<Context>, l: Label): Option<nat> {
    if fns == [] then None
    else if fns[0].name == l then Some(0)
    else match FindFn(fns[1..], l)
      case Some(i) => Some(i + 1)
      case None => None
  }

  function EvalLit(u: Source, l: Literal, w: World): (r: Res)
    ensures !r.out.Left?
  {
    match l
    case NullLit => Value1(Null, w)
    case BoolLit(b) => Value1(Bool(b), w)
    case CharLit(c) => Value1(Char(Signed8(c)), w)
    case IntLit(i) => Value1(Int(i), w)
    case FloatLit(bits) => PrimOut(u, NewF(bits), [], w)
    case StrLit(s) => Value1(Str(s), w)
    case TypeLit(code) => PrimOut(u, NewType(code), [], w)
  }

  /** Evaluation of an expression, one function for each composite node. */
  function EvalExpr(u: Source, e: Expr, w: World, fuel: nat): (r: Res)
    ensures !r.out.Left?
    decreases fuel, e, 1
  {
    match e
    case Lit(l) => EvalLit(u, l, w)
    case Var(a) => if a < |w.locals| then Value1(w.locals[a], w) else Res(Outside, w)
    case GlobalVar(a) => if a < |w.globals| then Value1(w.globals[a], w) else Res(Outside, w)
    case Strict(_, _) => EvalStrict(u, e, w, fuel)
    case NullTest(_) => EvalNullTest(u, e, w, fuel)
    case Logic(_, _, _) => EvalLogic(u, e, w, fuel)
    case Ternary(_, _, _) => EvalTernary(u, e, w, fuel)
    case Conditional(cs) => Confine(EvalCascade(u, cs, w, fuel))
    case Switch(x, cs) =>
      var rx := One(EvalExpr(u, x, w, fuel));
      if !rx.out.Done? then rx else Confine(EvalArms(u, rx.out.vs[0], cs, rx.w, fuel))
    case StructLit(_) => EvalStruct(u, e, w, fuel)
    case MapLit(_) => EvalMap(u, e, w, fuel)
    case CallExpr(_, _) => EvalCallExpr(u, e, w, fuel)
    case InvokeExpr(_, _) => EvalInvokeExpr(u, e, w, fuel)
    case InvokeMember(_, _, _) => EvalInvokeMember(u, e, w, fuel)
    case FxPointer(_, _) => EvalFxPointer(u, e, w, fuel)
    case Iife(_, _) => EvalIife(u, e, w, fuel)
  }

  function EvalStrict(u: Source, e: Expr, w: World, fuel: nat): (r: Res)
    requires e.Strict?
    ensures !r.out.Left?
    decreases fuel, e, 0
  {
    var ra := EvalArgs(u, e.args, w, fuel);
    if !ra.out.Done? then ra else PrimOut(u, StrictOp(e.node, Count(e.args)), ra.out.vs, ra.w)
  }

  function EvalNullTest(u: Source, e: Expr, w: World, fuel: nat): (r: Res)
    requires e.NullTest?
    ensures !r.out.Left?
    decreases fuel, e, 0
  {
    var rx := One(EvalExpr(u, e.e, w, fuel));
    if !rx.out.Done? then rx else Value1(Bool(rx.out.vs[0] != Null), rx.w)
  }

  /** The left operand decides whether the right one is evaluated. */
  function KeepsLeft(op: LogicOp, v: Value): bool {
    match op
    case And => !Truthy(v)
    case Or => Truthy(v)
    case Elvis => Truthy(v)
    case NullCo => v != Null
  }

  /** And and or produce truth values, elvis and null coalescing the operand itself. */
  function LogicValue(op: LogicOp, v: Value): Value {
    if op.And? || op.Or? then Bool(Truthy(v)) else v
  }

  function EvalLogic(u: Source, e: Expr, w: World, fuel: nat): (r: Res)
    requires e.Logic?
    ensures !r.out.Left?
    decreases fuel, e, 0
  {
    var rl := One(EvalExpr(u, e.l, w, fuel));
    if !rl.out.Done? then rl
    else if KeepsLeft(e.lop, rl.out.vs[0]) then Value1(LogicValue(e.lop, rl.out.vs[0]), rl.w)
    else
      var rr := One(EvalExpr(u, e.r, rl.w, fuel));
      if !rr.out.Done? then rr else Value1(LogicValue(e.lop, rr.out.vs[0]), rr.w)
  }

  function EvalTernary(u: Source, e: Expr, w: World, fuel: nat): (r: Res)
    requires e.Ternary?
    ensures !r.out.Left?
    decreases fuel, e, 0
  {
    var rc := One(EvalExpr(u, e.cond, w, fuel));
    if !rc.out.Done? then rc
    else if Truthy(rc.out.vs[0]) then EvalExpr(u, e.thn, rc.w, fuel) else EvalExpr(u, e.els, rc.w, fuel)
  }

  function EvalStruct(u: Source, e: Expr, w: World, fuel: nat): (r: Res)
    requires e.StructLit?
    ensures !r.out.Left?
    decreases fuel, e, 0
  {
    var ro := PrimOut(u, Simple(NewStruct), [], w);
    if !ro.out.Done? then ro else EvalMembers(u, ro.out.vs[0], e.members, ro.w, fuel)
  }

  function EvalMap(u: Source, e: Expr, w: World, fuel: nat): (r: Res)
    requires e.MapLit?
    ensures !r.out.Left?
    decreases fuel, e, 0
  {
    var ro := PrimOut(u, Simple(NewMap), [], w);
    if !ro.out.Done? then ro else EvalPairs(u, ro.out.vs[0], e.pairs, ro.w, fuel)
  }

  function EvalCallExpr(u: Source, e: Expr, w: World, fuel: nat): (r: Res)
    requires e.CallExpr?
    ensures !r.out.Left?
    decreases fuel, e, 0
  {
    var ra := EvalArgs(u, e.args, w, fuel);
    if !ra.out.Done? then ra
    else match FindFn(u.env.fns, e.fn)
      case None => Res(Outside, w)
      case Some(f) =>
        if f >= |u.env.fns| || |ra.out.vs| != Arity(u.env.fns[f]) then Res(Outside, w)
        else if fuel == 0 then Res(OutOfFuel, w)
        else EvalCall(u, Target(f, ra.out.vs, ra.w.heap), ra.w, fuel - 1)
  }

  function EvalInvokeExpr(u: Source, e: Expr, w: World, fuel: nat): (r: Res)
    requires e.InvokeExpr?
    ensures !r.out.Left?
    decreases fuel, e, 0
  {
    var ra := EvalArgs(u, e.args, w, fuel);
    if !ra.out.Done? then ra
    else
      var rf := One(EvalExpr(u, e.fnExpr, ra.w, fuel));
      if !rf.out.Done? then rf
      else if fuel == 0 then Res(OutOfFuel, w)
      else EvalCall(u, Resolve(u, rf.out.vs[0], ra.out.vs, rf.w), rf.w, fuel - 1)
  }

  /** The object is the first argument of the member it holds. */
  function EvalInvokeMember(u: Source, e: Expr, w: World, fuel: nat): (r: Res)
    requires e.InvokeMember?
    ensures !r.out.Left?
    decreases fuel, e, 0
  {
    var rx := One(EvalExpr(u, e.e, w, fuel));
    if !rx.out.Done? then rx
    else
      var rf := PrimOut(u, MemberRead(e.id), rx.out.vs, rx.w);
      if !rf.out.Done? then rf
      else
        var ra := EvalArgs(u, e.args, rf.w, fuel);
        if !ra.out.Done? then ra
        else if fuel == 0 then Res(OutOfFuel, w)
        else EvalCall(u, Resolve(u, rf.out.vs[0], rx.out.vs + ra.out.vs, ra.w), ra.w, fuel - 1)
  }

  function EvalFxPointer(u: Source, e: Expr, w: World, fuel: nat): (r: Res)
    requires e.FxPointer?
    ensures !r.out.Left?
    decreases fuel, e, 0
  {
    match FindFn(u.env.fns, e.fn)
    case None => Res(Outside, w)
    case Some(f) =>
      if f >= |u.env.fns| then Res(Outside, w)
      else
        var ra := EvalArgs(u, e.args, w, fuel);
        if !ra.out.Done? then ra else Value1(Fn(f, ra.out.vs), ra.w)
  }

  /** The value an immediately invoked block returns to its end label, null if it
      falls off its end. */
  function EvalIife(u: Source, e: Expr, w: World, fuel: nat): (r: Res)
    requires e.Iife?
    ensures !r.out.Left?
    decreases fuel, e, 0
  {
    var rb := EvalStmt(u, e.body, w, fuel);
    match rb.out
    case Done(vs) => if vs == [] then Value1(Null, rb.w) else Res(Outside, w)
    case Left(l, v, pending) => if l == e.end then Res(Done(pending + [v]), rb.w) else Res(Outside, w)
    case _ => rb
  }

  function EvalArgs(u: Source, es: Exprs, w: World, fuel: nat): (r: Res)
    ensures !r.out.Left? && (r.out.Done? ==> |r.out.vs| == Count(es))
    decreases fuel, es, 0
  {
    match es
    case ENil => Unit(w)
    case ECons(e, tail) =>
      var re := One(EvalExpr(u, e, w, fuel));
      if !re.out.Done? then re
      else
        var rt := EvalArgs(u, tail, re.w, fuel);
        if !rt.out.Done? then rt else rt.(out := Done(re.out.vs + rt.out.vs))
  }

  function EvalMembers(u: Source, o: Value, ms: Members, w: World, fuel: nat): (r: Res)
    ensures !r.out.Left?
    decreases fuel, ms, 0
  {
    match ms
    case MNil => Value1(o, w)
    case MCons(id, e, tail) =>
      var re := One(EvalExpr(u, e, w, fuel));
      if !re.out.Done? then re
      else
        var rw := PrimOut(u, MemberWrite(id), re.out.vs + [o], re.w);
        if !rw.out.Done? then rw else EvalMembers(u, o, tail, rw.w, fuel)
  }

  function EvalPairs(u: Source, o: Value, ps: Pairs, w: World, fuel: nat): (r: Res)
    ensures !r.out.Left?
    decreases fuel, ps, 0
  {
    match ps
    case PNil => Value1(o, w)
    case PCons(k, e, tail) =>
      var re := One(EvalExpr(u, e, w, fuel));
      if !re.out.Done? then re
      else
        var rk := One(EvalExpr(u, k, re.w, fuel));
        if !rk.out.Done? then rk
        else
          var rw := PrimOut(u, Simple(AtWrite), re.out.vs + [o] + rk.out.vs, rk.w);
          if !rw.out.Done? then rw else EvalPairs(u, o, tail, rw.w, fuel)
  }

  function EvalNode(u: Source, n: Node, w: World, fuel: nat): Res
    decreases fuel, n, 0
  {
    match n
    case E(e) => EvalExpr(u, e, w, fuel)
    case S(s) => EvalStmt(u, s, w, fuel)
  }

  function EvalCascade(u: Source, cs: Cases, w: World, fuel: nat): Res
    decreases fuel, cs, 0
  {
    match cs
    case Otherwise(o) => EvalNode(u, o, w, fuel)
    case CCons(c, b, tail) =>
      var rc := One(EvalExpr(u, c, w, fuel));
      if !rc.out.Done? then rc
      else if Truthy(rc.out.vs[0]) then EvalNode(u, b, rc.w, fuel)
      else EvalCascade(u, tail, rc.w, fuel)
  }

  /** The arm of the first case that is not unequal to v, else the default. */
  function EvalArms(u: Source, v: Value, cs: Cases, w: World, fuel: nat): Res
    decreases fuel, cs, 0
  {
    match cs
    case Otherwise(o) => EvalNode(u, o, w, fuel)
    case CCons(c, b, tail) =>
      var rc := One(EvalExpr(u, c, w, fuel));
      if !rc.out.Done? then rc
      else
        var rq := PrimOut(u, Simple(Ueql), [v] + rc.out.vs, rc.w);
        if !rq.out.Done? then rq
        else if Truthy(rq.out.vs[0]) then EvalArms(u, v, tail, rq.w, fuel)
        else EvalNode(u, b, rq.w, fuel)
  }

  datatype Invocation = Target(f: nat, slots: seq<Value>, heap: Heap) | NoTarget(out: Out, heap: Heap)

  /** The function a value denotes and the slots these arguments give it. */
  function Resolve(u: Source, fv: Value, args: seq<Value>, w: World): (i: Invocation)
    ensures i.NoTarget? ==> i.out.Raised? || i.out.Outside?
    ensures i.Target? ==> i.f < |u.env.fns|
  {
    match fv
    case Fn(f, captured) =>
      if f >= |u.env.fns| || |args| >= 256 then NoTarget(Outside, w.heap)
      else (match PrepareArgs(u.env, u.env.fns[f], args, w.heap)
        case None => NoTarget(Raised(InvalidParameters(u.env.fns[f].arity, |args|)), w.heap)
        case Some((fixed, Err(x, h))) => NoTarget(Raised(x), h)
        case Some((fixed, Ok(tuple, h))) =>
          Target(f, (if u.env.fns[f].isVariadic then fixed + [tuple] else fixed) + captured, h))
    case Co(_) => NoTarget(Outside, w.heap)
    case _ => NoTarget(Raised(Str("Invalid argument")), w.heap)
  }

  /** A call; w's locals are the caller's. An exception in the body goes to the
      function's except block, if it has one, in a fresh set of slots. */
  function EvalCall(u: Source, i: Invocation, w: World, fuel: nat): (r: Res)
    requires i.NoTarget? ==> i.out.Raised? || i.out.Outside?
    ensures !r.out.Left?
    decreases fuel
  {
    match i
    case NoTarget(out, h) => Res(out, w.(heap := h))
    case Target(f, slots, h) =>
      if f >= |u.fns| || f >= |u.env.fns| || u.fns[f].isCoroutine then Res(Outside, w.(heap := h))
      else
        var empty := Nulls(u.env.fns[f].frameSize);
        var rb := EvalStmt(u, u.fns[f].body, World(w.globals, slots + empty, h), fuel);
        if rb.out.Raised? && u.fns[f].except.Some? then
          CallResult(EvalStmt(u, u.fns[f].except.value, rb.w.(locals := [rb.out.x] + empty), fuel), w)
        else CallResult(rb, w)
  }

  /** A finished body as seen by the caller, who gets back its own locals. */
  function CallResult(r: Res, caller: World): (q: Res)
    ensures !q.out.Left?
  {
    var w := r.w.(locals := caller.locals);
    match r.out
    case Done(vs) => if vs == [] then Value1(Null, w) else Res(Outside, w)
    case Returned(v) => Value1(v, w)
    case Left(_, _, _) => Res(Outside, w)
    case o => Res(o, w)
  }

  function EvalBind(u: Source, b: Binding, v: Value, w: World, fuel: nat): (r: Res)
    ensures !r.out.Left?
    decreases fuel, b, 1
  {
    match b
    case NewVar(a) => if a < |w.locals| then Unit(w.(locals := w.locals[a := v])) else Res(Outside, w)
    case Local(a) => if a < |w.locals| then Unit(w.(locals := w.locals[a := v])) else Res(Outside, w)
    case Global(a) => if a < |w.globals| then Unit(w.(globals := w.globals[a := v])) else Res(Outside, w)
    case Discard => Unit(w)
    case Group(_) => EvalGroup(u, b, v, w, fuel)
    case Place(_, _) => EvalPlace(u, b, v, w, fuel)
  }

  function EvalGroup(u: Source, b: Binding, v: Value, w: World, fuel: nat): (r: Res)
    requires b.Group?
    ensures !r.out.Left?
    decreases fuel, b, 0
  {
    if CountBindings(b.subs) >= 256 then Res(Outside, w)
    else match u.env.ops.elements(v, w.heap)
    case None => Res(Raised(Str("Not a tuple")), w)
    case Some(vs) =>
      if |vs| < CountBindings(b.subs) then Res(Raised(Str("Cannot unpack tuple")), w)
      else EvalBinds(u, b.subs, vs[..CountBindings(b.subs)], w, fuel)
  }

  function EvalPlace(u: Source, b: Binding, v: Value, w: World, fuel: nat): (r: Res)
    requires b.Place?
    ensures !r.out.Left?
    decreases fuel, b, 0
  {
    var ra := EvalArgs(u, b.args, w, fuel);
    if !ra.out.Done? then ra else PrimOut(u, PlaceOp(b.place), [v] + ra.out.vs, ra.w)
  }

  function EvalBinds(u: Source, bs: Bindings, vs: seq<Value>, w: World, fuel: nat): (r: Res)
    requires |vs| == CountBindings(bs)
    ensures !r.out.Left?
    decreases fuel, bs, 0
  {
    match bs
    case BNil => Unit(w)
    case BCons(b, tail) =>
      var rb := EvalBind(u, b, vs[0], w, fuel);
      if !rb.out.Done? then rb
      else if rb.out.vs != [] then Res(Outside, w)
      else EvalBinds(u, tail, vs[1..], rb.w, fuel)
  }

  function EvalStmt(u: Source, s: Stmt, w: World, fuel: nat): Res
    decreases fuel, s, 1
  {
    match s
    case NoOp => Unit(w)
    case Block(ss) => EvalStmts(u, ss, w, fuel)
    case IfStmt(_, _, _) => EvalIf(u, s, w, fuel)
    case While(_, _) => EvalWhile(u, s, w, fuel)
    case InfiniteLoop(_) => EvalInfinite(u, s, w, fuel)
    case ForEach(_, _, _) => EvalForEach(u, s, w, fuel)
    case SwitchStmt(x, cs) =>
      var rx := One(EvalExpr(u, x, w, fuel));
      if !rx.out.Done? then rx else EvalArms(u, rx.out.vs[0], cs, rx.w, fuel)
    case ConditionalStmt(cs) => EvalCascade(u, cs, w, fuel)
    case Assign(_, _) => EvalAssign(u, s, w, fuel)
    case ReturnStmt(e, target) =>
      var re := One(EvalExpr(u, e, w, fuel));
      if !re.out.Done? then re
      else if target.Some? then Res(Left(target.value, re.out.vs[0], []), re.w)
      else Res(Returned(re.out.vs[0]), re.w)
    case ThrowStmt(e) =>
      var re := One(EvalExpr(u, e, w, fuel));
      if !re.out.Done? then re else Res(Raised(re.out.vs[0]), re.w)
    case YieldStmt(_) => Res(Outside, w)
    case CoReturnStmt(_) => Res(Outside, w)
  }

  /** A statement in a sequence must leave nothing on the stack. */
  function Neutral(r: Res): (q: Res)
    ensures q.out.Done? ==> q == r && q.out.vs == []
  {
    if r.out.Done? && r.out.vs != [] then r.(out := Outside) else r
  }

  function EvalIf(u: Source, s: Stmt, w: World, fuel: nat): Res
    requires s.IfStmt?
    decreases fuel, s, 0
  {
    var rc := One(EvalExpr(u, s.cond, w, fuel));
    if !rc.out.Done? then rc
    else if Truthy(rc.out.vs[0]) then EvalStmt(u, s.thn, rc.w, fuel)
    else if s.els.Some? then EvalStmt(u, s.els.value, rc.w, fuel)
    else Unit(rc.w)
  }

  function EvalWhile(u: Source, s: Stmt, w: World, fuel: nat): Res
    requires s.While?
    decreases fuel, s, 0
  {
    var rc := One(EvalExpr(u, s.cond, w, fuel));
    if !rc.out.Done? then rc
    else if !Truthy(rc.out.vs[0]) then Unit(rc.w)
    else
      var rb := Neutral(EvalStmt(u, s.body, rc.w, fuel));
      if !rb.out.Done? then rb
      else if fuel == 0 then Res(OutOfFuel, w)
      else EvalStmt(u, s, rb.w, fuel - 1)
  }

  function EvalInfinite(u: Source, s: Stmt, w: World, fuel: nat): Res
    requires s.InfiniteLoop?
    decreases fuel, s, 0
  {
    var rb := Neutral(EvalStmt(u, s.body, w, fuel));
    if !rb.out.Done? then rb
    else if fuel == 0 then Res(OutOfFuel, w)
    else EvalStmt(u, s, rb.w, fuel - 1)
  }

  function EvalForEach(u: Source, s: Stmt, w: World, fuel: nat): Res
    requires s.ForEach?
    decreases fuel, s, 0
  {
    var re := One(EvalExpr(u, s.e, w, fuel));
    if !re.out.Done? then re
    else
      var ri := PrimOut(u, Simple(Iter), re.out.vs, re.w);
      if !ri.out.Done? then ri
      else if fuel == 0 then Res(OutOfFuel, w)
      else EvalRounds(u, ri.out.vs[0], s.bind, s.body, ri.w, fuel - 1)
  }

  /** The rounds of a for-each over the iterator it. */
  function EvalRounds(u: Source, it: Value, bind: Binding, b: Stmt, w: World, fuel: nat): Res
    decreases fuel
  {
    match u.env.ops.next(it, w.heap)
    case Err(x, h) => Res(Raised(x), w.(heap := h))
    case Ok(v, h) =>
      if v.Stop? then Unit(w.(heap := h))
      else
        var rv := Neutral(EvalBind(u, bind, v, w.(heap := h), fuel));
        if !rv.out.Done? then rv
        else
          var rb := Neutral(EvalStmt(u, b, rv.w, fuel));
          if !rb.out.Done? then OverIterator(rb, it)
          else if fuel == 0 then Res(OutOfFuel, w)
          else EvalRounds(u, it, bind, b, rb.w, fuel - 1)
  }

  /** A jump out of a for-each leaves its iterator behind. */
  function OverIterator(r: Res, it: Value): Res {
    if r.out.Left? then r.(out := r.out.(pending := [it] + r.out.pending)) else r
  }

  function EvalAssign(u: Source, s: Stmt, w: World, fuel: nat): Res
    requires s.Assign?
    decreases fuel, s, 0
  {
    var re := One(EvalExpr(u, s.e, w, fuel));
    if !re.out.Done? then re else EvalBind(u, s.bind, re.out.vs[0], re.w, fuel)
  }

  function EvalStmts(u: Source, ss: Stmts, w: World, fuel: nat): Res
    decreases fuel, ss, 0
  {
    match ss
    case SNil => Unit(w)
    case SCons(s, tail) =>
      var rs := Neutral(EvalStmt(u, s, w, fuel));
      if !rs.out.Done? then rs else EvalStmts(u, tail, rs.w, fuel)
  }
}
