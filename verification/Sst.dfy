/** The semantic tree the back end compiles. Nodes whose code is their operands in
    order followed by one instruction share the constructor Strict. */
module Sst {
  import opened Values
  import opened Instructions

  datatype Literal =
    | NullLit
    | BoolLit(b: bool)
    | CharLit(c: nat)
    | IntLit(i: int)
    | FloatLit(bits: nat)
    | StrLit(s: string)
    | TypeLit(code: seq<nat>)

  datatype StrictNode =
    | Unary(op: SimpleOp)
    | Binary(op: SimpleOp)
    | Index
    | Member(id: nat)
    | ArrayLit
    | TupleLit

  datatype LogicOp = And | Or | Elvis | NullCo

  datatype Expr =
    | Lit(lit: Literal)
    | Var(addr: nat)
    | GlobalVar(addr: nat)
    | Strict(node: StrictNode, args: Exprs)
    | NullTest(e: Expr)
    | Logic(lop: LogicOp, l: Expr, r: Expr)
    | Ternary(cond: Expr, thn: Expr, els: Expr)
    | Conditional(cases: Cases)
    | Switch(subject: Expr, cases: Cases)
    | StructLit(members: Members)
    | MapLit(pairs: Pairs)
    | CallExpr(fn: Label, args: Exprs)
    | InvokeExpr(fnExpr: Expr, args: Exprs)
    | InvokeMember(e: Expr, id: nat, args: Exprs)
    | FxPointer(fn: Label, args: Exprs)
    | Iife(end: Label, body: Stmt)

  datatype Exprs = ENil | ECons(head: Expr, tail: Exprs)
  datatype Members = MNil | MCons(id: nat, e: Expr, tail: Members)
  datatype Pairs = PNil | PCons(key: Expr, val: Expr, tail: Pairs)

  /** Cascades and switches have expressions or statements as their arms; the last
      arm has no condition. */
  datatype Node = E(e: Expr) | S(s: Stmt)
  datatype Cases = Otherwise(body: Node) | CCons(cond: Expr, body: Node, tail: Cases)

  datatype Stmt =
    | NoOp
    | Block(stmts: Stmts)
    | IfStmt(cond: Expr, thn: Stmt, els: Option<Stmt>)
    | While(cond: Expr, body: Stmt)
    | InfiniteLoop(body: Stmt)
    | ForEach(bind: Binding, e: Expr, body: Stmt)
    | SwitchStmt(subject: Expr, cases: Cases)
    | ConditionalStmt(cases: Cases)
    | Assign(bind: Binding, e: Expr)
    | ReturnStmt(e: Expr, target: Option<Label>)
    | ThrowStmt(e: Expr)
    | YieldStmt(e: Expr)
    | CoReturnStmt(e: Expr)

  datatype Stmts = SNil | SCons(head: Stmt, tail: Stmts)

  /** The place a write goes to, once its operands are known. */
  datatype PlaceNode = MemberPlace(id: nat) | IndexPlace

  datatype Binding =
    | NewVar(addr: nat)
    | Local(addr: nat)
    | Global(addr: nat)
    | Discard
    | Group(subs: Bindings)
    | Place(place: PlaceNode, args: Exprs)

  datatype Bindings = BNil | BCons(head: Binding, tail: Bindings)

  datatype FunctionDecl = FunctionDecl(
    name: Label, arity: nat, isVariadic: bool, isCoroutine: bool, isExtern: bool,
    body: Stmt, except: Option<Stmt>)

  function Count(es: Exprs): nat {
    if es.ENil? then 0 else 1 + Count(es.tail)
  }

  function CountBindings(bs: Bindings): nat {
    if bs.BNil? then 0 else 1 + CountBindings(bs.tail)
  }

  /** The instruction of a strict node with this many operands. */
  function StrictOp(node: StrictNode, count: nat): PrimOp {
    match node
    case Unary(op) => Simple(op)
    case Binary(op) => Simple(op)
    case Index => Simple(At)
    case Member(id) => MemberRead(id)
    case ArrayLit => NewArr(count)
    case TupleLit => NewTuple(count)
  }

  function PlaceOp(place: PlaceNode): PrimOp {
    match place
    case MemberPlace(id) => MemberWrite(id)
    case IndexPlace => Simple(AtWrite)
  }
}
