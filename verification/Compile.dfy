/** Code generation: labelled stack code of expressions, bindings, statements and functions. */
module Compile {
  import opened Values
  import opened Instructions
  import opened Sst

  /** Code and the next free number for jump labels. */
  datatype Cg = Cg(code: seq<Asm>, next: nat)

  function Simply(op: SimpleOp): Asm { Prim(Simple(op)) }
  function Jmp(kind: string, id: nat, part: Part): Label { Jump(kind, id, part) }

  function IntInst(i: int): Asm {
    if i == 0 then Simply(NewIConst0)
    else if i == 1 then Simply(NewIConst1)
    else if i == 2 then Simply(NewIConst2)
    else if -128 <= i < 128 then Prim(NewISmall(i % 256))
    else Prim(NewI(i))
  }

  function LogicName(op: LogicOp): string {
    match op case And => "AND" case Or => "OR" case Elvis => "ELVIS" case NullCo => "NULLCO"
  }

  /** From the left operand on the stack to the test whether it decides. */
  function LogicTest(op: LogicOp, id: nat): seq<Asm> {
    match op
    case And => [IfElse(Jmp("AND", id, False_))]
    case Or => [Simply(Not), IfElse(Jmp("OR", id, True_))]
    case Elvis =>
      [Duplicate, IfElse(Jmp("ELVIS", id, Else)), Goto(Jmp("ELVIS", id, End)), Mark(Jmp("ELVIS", id, Else)), Scrap]
    case NullCo =>
      [Duplicate, Simply(Nvll), Simply(Ueql), IfElse(Jmp("NULLCO", id, Else)), Goto(Jmp("NULLCO", id, End)),
       Mark(Jmp("NULLCO", id, Else)), Scrap]
  }

  /** What follows the right operand. */
  function LogicTail(op: LogicOp, id: nat): seq<Asm> {
    var end := Jmp(LogicName(op), id, End);
    match op
    case And => [Simply(CastBool), Goto(end), Mark(Jmp("AND", id, False_)), Simply(False), Mark(end)]
    case Or => [Simply(CastBool), Goto(end), Mark(Jmp("OR", id, True_)), Simply(True), Mark(end)]
    case _ => [Mark(end)]
  }

  function ElseCode(kind: string, id: nat, c: seq<Asm>, t: seq<Asm>, e: seq<Asm>): seq<Asm> {
    var els := Jmp(kind, id, Else);
    var end := Jmp(kind, id, End);
    c + ([IfElse(els)] + (t + ([Goto(end), Mark(els)] + (e + [Mark(end)]))))
  }

  function ThenCode(kind: string, id: nat, c: seq<Asm>, t: seq<Asm>): seq<Asm> {
    var els := Jmp(kind, id, Else);
    c + ([IfElse(els)] + (t + [Mark(els)]))
  }

  /** The cases of a switch with their code. */
  datatype Arms = Default(body: seq<Asm>) | Arm(test: seq<Asm>, body: seq<Asm>, tail: Arms)

  function SwitchTests(arms: Arms, id: nat, i: nat): seq<Asm> {
    match arms
    case Default(_) => []
    case Arm(test, _, tail) =>
      [Duplicate] + (test + ([Simply(Ueql), IfElse(Jmp("SWITCH", id, Case(i)))] + SwitchTests(tail, id, i + 1)))
  }

  function SwitchBodies(arms: Arms, id: nat, i: nat): seq<Asm> {
    match arms
    case Default(_) => []
    case Arm(_, body, tail) =>
      [Mark(Jmp("SWITCH", id, Case(i))), Scrap]
          + (body + ([Goto(Jmp("SWITCH", id, End))] + SwitchBodies(tail, id, i + 1)))
  }

  function DefaultBody(arms: Arms): seq<Asm> {
    match arms case Default(b) => b case Arm(_, _, tail) => DefaultBody(tail)
  }

  function SwitchCode(subject: seq<Asm>, arms: Arms, id: nat): seq<Asm> {
    subject + (SwitchTests(arms, id, 0) + ([Scrap] + (DefaultBody(arms) +
      ([Goto(Jmp("SWITCH", id, End))] + (SwitchBodies(arms, id, 0) + [Mark(Jmp("SWITCH", id, End))])))))
  }

  function LoopCode(id: nat, c: seq<Asm>, b: seq<Asm>): seq<Asm> {
    var begin := Jmp("WHILE", id, Begin);
    var end := Jmp("WHILE", id, End);
    [Mark(begin)] + (c + ([IfElse(end)] + (b + [Goto(begin), Mark(end)])))
  }

  function ForEachCode(id: nat, e: seq<Asm>, bind: seq<Asm>, b: seq<Asm>): seq<Asm> {
    var end := Jmp("FOREACH_END", id, Whole);
    var top := Jmp("FOREACH_BODY", id + 1, Whole);
    e + ([Simply(Iter), Mark(top), ForNext(end)] + (bind + (b + [Goto(top), Mark(end), Scrap, Scrap])))
  }

  function CompLit(l: Literal): Asm {
    match l
    case NullLit => Simply(Nvll)
    case BoolLit(b) => Simply(if b then True else False)
    case CharLit(c) => Prim(NewC(c % 256))
    case IntLit(i) => IntInst(i)
    case FloatLit(bits) => Prim(NewF(bits))
    case StrLit(s) => Prim(NewStr(s))
    case TypeLit(code) => Prim(NewType(code))
  }

  /** Code of an expression, one function for each composite node. */
  function CompExpr(e: Expr, n: nat): Cg
    decreases e, 1
  {
    match e
    case Lit(l) => Cg([CompLit(l)], n)
    case Var(a) => Cg([LoadX(a)], n)
    case GlobalVar(a) => Cg([GlobalRead(a)], n)
    case Strict(node, es) =>
      var ca := CompArgs(es, n);
      Cg(ca.code + [Prim(StrictOp(node, Count(es)))], ca.next)
    case NullTest(_) => CompNullTest(e, n)
    case Logic(_, _, _) => CompLogic(e, n)
    case Ternary(_, _, _) => CompTernary(e, n)
    case Conditional(cs) => CompCascade(cs, n, 0, n + 1)
    case Switch(x, cs) =>
      var cx := CompExpr(x, n);
      var (arms, next) := CompArms(cs, cx.next);
      Cg(SwitchCode(cx.code, arms, next), next + 1)
    case StructLit(ms) =>
      var cm := CompMembers(ms, n);
      Cg([Simply(NewStruct)] + cm.code, cm.next)
    case MapLit(ps) =>
      var cp := CompPairs(ps, n);
      Cg([Simply(NewMap)] + cp.code, cp.next)
    case CallExpr(l, es) =>
      var ca := CompArgs(es, n);
      Cg(ca.code + [Call(l)], ca.next)
    case InvokeExpr(_, _) => CompInvoke(e, n)
    case InvokeMember(_, _, _) => CompInvokeMember(e, n)
    case FxPointer(l, cs) =>
      var cc := CompCaptures(cs, n);
      Cg([NewFx(l)] + cc.code, cc.next)
    case Iife(l, body) =>
      var cb := CompStmt(body, n);
      Cg(cb.code + [Simply(Nvll), Mark(l)], cb.next)
  }

  /** The operand is compiled twice and the second code is the one that is used. */
  function CompNullTest(e: Expr, n: nat): Cg
    requires e.NullTest?
    decreases e, 0
  {
    var cx := CompExpr(e.e, CompExpr(e.e, n).next);
    Cg(cx.code + [Simply(Nvll), Simply(Ueql)], cx.next)
  }

  function CompLogic(e: Expr, n: nat): Cg
    requires e.Logic?
    decreases e, 0
  {
    var cl := CompExpr(e.l, n);
    var cr := CompExpr(e.r, cl.next);
    Cg(cl.code + (LogicTest(e.lop, cr.next) + (cr.code + LogicTail(e.lop, cr.next))), cr.next + 1)
  }

  function CompTernary(e: Expr, n: nat): Cg
    requires e.Ternary?
    decreases e, 0
  {
    var cc := CompExpr(e.cond, n + 1);
    var ct := CompExpr(e.thn, cc.next);
    var cf := CompExpr(e.els, ct.next);
    Cg(ElseCode("TERNARY", n, cc.code, ct.code, cf.code), cf.next)
  }

  function CompInvoke(e: Expr, n: nat): Cg
    requires e.InvokeExpr?
    decreases e, 0
  {
    var ca := CompArgs(e.args, n);
    var cf := CompExpr(e.fnExpr, ca.next);
    Cg(ca.code + (cf.code + [Invoke(Count(e.args))]), cf.next)
  }

  function CompInvokeMember(e: Expr, n: nat): Cg
    requires e.InvokeMember?
    decreases e, 0
  {
    var cx := CompExpr(e.e, n);
    var ca := CompMemberArgs(e.args, cx.next);
    Cg(cx.code + ([Duplicate, Prim(MemberRead(e.id))] + (ca.code + [Invoke(Count(e.args) + 1)])), ca.next)
  }

  function CompArgs(es: Exprs, n: nat): Cg
    decreases es, 0
  {
    match es
    case ENil => Cg([], n)
    case ECons(e, tail) =>
      var ce := CompExpr(e, n);
      var ct := CompArgs(tail, ce.next);
      Cg(ce.code + ct.code, ct.next)
  }

  /** Arguments of a member call, each swapped below the member. */
  function CompMemberArgs(es: Exprs, n: nat): Cg
    decreases es, 0
  {
    match es
    case ENil => Cg([], n)
    case ECons(e, tail) =>
      var ce := CompExpr(e, n);
      var ct := CompMemberArgs(tail, ce.next);
      Cg(ce.code + ([Swap] + ct.code), ct.next)
  }

  function CompCaptures(es: Exprs, n: nat): Cg
    decreases es, 0
  {
    match es
    case ENil => Cg([], n)
    case ECons(e, tail) =>
      var ce := CompExpr(e, n);
      var ct := CompCaptures(tail, ce.next);
      Cg(ce.code + ([Capture] + ct.code), ct.next)
  }

  function CompMembers(ms: Members, n: nat): Cg {
    match ms
    case MNil => Cg([], n)
    case MCons(id, e, tail) =>
      var ce := CompExpr(e, n);
      var ct := CompMembers(tail, ce.next);
      Cg([Duplicate] + (ce.code + ([Swap, Prim(MemberWrite(id))] + ct.code)), ct.next)
  }

  function CompPairs(ps: Pairs, n: nat): Cg {
    match ps
    case PNil => Cg([], n)
    case PCons(k, e, tail) =>
      var ce := CompExpr(e, n);
      var ck := CompExpr(k, ce.next);
      var ct := CompPairs(tail, ck.next);
      Cg([Duplicate] + (ce.code + ([Swap] + (ck.code + ([Simply(AtWrite)] + ct.code)))), ct.next)
  }

  function CompNode(b: Node, n: nat): Cg {
    match b
    case E(e) => CompExpr(e, n)
    case S(s) => CompStmt(s, n)
  }

  /** The cascade from case i on, for the cascade numbered id. */
  function CompCascade(cs: Cases, id: nat, i: nat, n: nat): Cg {
    var here := Mark(Jmp("CONDTIONAL", id, Cond(i + 1)));
    var end := Jmp("CONDTIONAL", id, End);
    match cs
    case Otherwise(o) =>
      var co := CompNode(o, n);
      Cg([here] + (co.code + [Mark(end)]), co.next)
    case CCons(c, b, tail) =>
      var cc := CompExpr(c, n);
      var cb := CompNode(b, cc.next);
      var ct := CompCascade(tail, id, i + 1, cb.next);
      Cg([here] + (cc.code + ([IfElse(Jmp("CONDTIONAL", id, Cond(i + 2)))] + (cb.code + ([Goto(end)] + ct.code)))),
         ct.next)
  }

  function CompArms(cs: Cases, n: nat): (Arms, nat) {
    match cs
    case Otherwise(o) =>
      var co := CompNode(o, n);
      (Default(co.code), co.next)
    case CCons(c, b, tail) =>
      var cc := CompExpr(c, n);
      var cb := CompNode(b, cc.next);
      var (arms, next) := CompArms(tail, cb.next);
      (Arm(cc.code, cb.code, arms), next)
  }

  function CompBind(b: Binding, n: nat): Cg
    decreases b, 1
  {
    match b
    case NewVar(a) => Cg([StoreX(a)], n)
    case Local(a) => Cg([StoreX(a)], n)
    case Global(a) => Cg([GlobalWrite(a)], n)
    case Discard => Cg([Scrap], n)
    case Group(subs) =>
      var cs := CompBinds(subs, n);
      Cg([Unpack(CountBindings(subs) % 256)] + cs.code, cs.next)
    case Place(place, es) =>
      var ca := CompArgs(es, n);
      Cg(ca.code + [Prim(PlaceOp(place))], ca.next)
  }

  function CompBinds(bs: Bindings, n: nat): Cg {
    match bs
    case BNil => Cg([], n)
    case BCons(b, tail) =>
      var cb := CompBind(b, n);
      var ct := CompBinds(tail, cb.next);
      Cg(cb.code + ct.code, ct.next)
  }

  function CompStmt(s: Stmt, n: nat): Cg
    decreases s, 1
  {
    match s
    case NoOp => Cg([], n)
    case Block(ss) => CompStmts(ss, n)
    case IfStmt(_, _, _) => CompIf(s, n)
    case While(_, _) => CompWhile(s, n)
    case InfiniteLoop(b) =>
      var cb := CompStmt(b, n);
      var top := Jmp("INFINETE_LOOP", cb.next, Whole);
      Cg([Mark(top)] + (cb.code + [Goto(top)]), cb.next + 1)
    case ForEach(_, _, _) => CompForEach(s, n)
    case SwitchStmt(x, cs) =>
      var cx := CompExpr(x, n);
      var (arms, next) := CompArms(cs, cx.next);
      Cg(SwitchCode(cx.code, arms, next), next + 1)
    case ConditionalStmt(cs) => CompCascade(cs, n, 0, n + 1)
    case Assign(bind, e) =>
      var ce := CompExpr(e, n);
      var cb := CompBind(bind, ce.next);
      Cg(ce.code + cb.code, cb.next)
    case ReturnStmt(e, target) =>
      var ce := CompExpr(e, n);
      Cg(ce.code + [if target.Some? then Goto(target.value) else Return], ce.next)
    case ThrowStmt(e) =>
      var ce := CompExpr(e, n);
      Cg(ce.code + [Throw], ce.next)
    case YieldStmt(e) =>
      var ce := CompExpr(e, n);
      Cg(ce.code + [Yield], ce.next)
    case CoReturnStmt(e) =>
      var ce := CompExpr(e, n);
      Cg(ce.code + [CoReturn], ce.next)
  }

  function CompIf(s: Stmt, n: nat): Cg
    requires s.IfStmt?
    decreases s, 0
  {
    var IfStmt(c, t, els) := s;
    var cc := CompExpr(c, n);
    var ct := CompStmt(t, cc.next);
    if els.Some? && !els.value.NoOp? then
      var ce := CompStmt(els.value, ct.next + 1);
      Cg(ElseCode("IF", ct.next, cc.code, ct.code, ce.code), ce.next)
    else Cg(ThenCode("IF", ct.next, cc.code, ct.code), ct.next + 1)
  }

  function CompWhile(s: Stmt, n: nat): Cg
    requires s.While?
    decreases s, 0
  {
    var While(c, b) := s;
    var cc := CompExpr(c, n);
    var cb := CompStmt(b, cc.next);
    Cg(LoopCode(cb.next, cc.code, cb.code), cb.next + 1)
  }

  function CompForEach(s: Stmt, n: nat): Cg
    requires s.ForEach?
    decreases s, 0
  {
    var ForEach(bind, e, b) := s;
    var ce := CompExpr(e, n + 2);
    var ci := CompBind(bind, ce.next);
    var cb := CompStmt(b, ci.next);
    Cg(ForEachCode(n, ce.code, ci.code, cb.code), cb.next)
  }

  function CompStmts(ss: Stmts, n: nat): Cg {
    match ss
    case SNil => Cg([], n)
    case SCons(s, tail) =>
      var cs := CompStmt(s, n);
      var ct := CompStmts(tail, cs.next);
      Cg(cs.code + ct.code, ct.next)
  }

  /** The label of a function's except block. */
  function ExceptLabel(l: Label): Label
    requires l.Function?
  {
    Except(l.name)
  }

  function CompFunction(f: FunctionDecl, n: nat): Cg
    requires f.name.Function?
  {
    var cb := CompStmt(f.body, n);
    var head := [Mark(f.name)] + (if f.except.Some? then [Try(ExceptLabel(f.name))] else [])
                + (if f.isCoroutine then [CoDump] else []);
    var tail := [Simply(Nvll), if f.isCoroutine then CoReturn else Return];
    if f.except.None? then Cg(head + (cb.code + tail), cb.next)
    else
      var ce := CompStmt(f.except.value, cb.next);
      Cg(head + (cb.code + (tail + ([Mark(ExceptLabel(f.name))] + (ce.code + [Simply(Nvll), Return])))), ce.next)
  }

  function CompFunctions(fns: seq<FunctionDecl>, n: nat): Cg
    requires forall i :: 0 <= i < |fns| ==> fns[i].name.Function?
    decreases |fns|
  {
    if fns == [] then Cg([], n)
    else
      var cf := CompFunction(fns[0], n);
      var ct := CompFunctions(fns[1..], cf.next);
      Cg(cf.code + ct.code, ct.next)
  }
}
