/** Run-time values and the primitive operators of the machine.
    Scalars and strings are computed here; operators that touch heap objects or
    floats go through a record of functions, so every theorem about runs holds
    for whatever those operators do. */
module Values {
  datatype Option<+T> = None | Some(value: T)

  /** Ref stands for any heap object (kind is its type code), Co for a suspended
      coroutine by its number. Characters are signed, as in the run time. */
  datatype Value =
    | Null
    | Stop
    | Bool(b: bool)
    | Char(c: int)
    | Int(i: int)
    | Float(f: real)
    | Str(s: string)
    | Fn(index: nat, captured: seq<Value>)
    | Co(id: nat)
    | Type(id: nat)
    | Ref(kind: nat, id: nat)

  type Heap = map<nat, seq<Value>>

  datatype SimpleOp =
    | Add | Sub | Mlt | Div | Mod | Pow
    | Eql | Ueql | Lt | Gt | LtEql | GtEql | Comp
    | ShiftL | ShiftR | BitAnd | BitOr | BitXor | BitNot
    | Neg | Not | Inc | Dec | Deref | CastBool
    | True | False | Nvll | NewIConst0 | NewIConst1 | NewIConst2
    | NewClock | NewStruct | NewStack | NewQueue | NewMap
    | At | AtWrite | Iter

  datatype PrimOp =
    | Simple(op: SimpleOp)
    | NewI(i: int)
    | NewF(bits: nat)
    | NewC(c: nat)
    | NewISmall(b: nat)
    | NewArr(size: nat)
    | NewTuple(size: nat)
    | NewStr(s: string)
    | NewType(code: seq<nat>)
    | MemberRead(id: nat)
    | MemberWrite(id: nat)

  /** Outcome of a primitive: a result and the heap after it, or an exception. */
  datatype PrimResult = Ok(v: Value, heap: Heap) | Err(exc: Value, heap: Heap)

  datatype HeapOps = HeapOps(
    op: (PrimOp, seq<Value>, Heap) -> PrimResult,
    next: (Value, Heap) -> PrimResult,
    elements: (Value, Heap) -> Option<seq<Value>>
  )

  function SimplePops(op: SimpleOp): nat {
    match op
    case Add | Sub | Mlt | Div | Mod | Pow => 2
    case Eql | Ueql | Lt | Gt | LtEql | GtEql | Comp => 2
    case ShiftL | ShiftR | BitAnd | BitOr | BitXor | At => 2
    case BitNot | Neg | Not | Inc | Dec | Deref | CastBool | Iter => 1
    case AtWrite => 3
    case _ => 0
  }

  /** How many operands a primitive takes off the stack. */
  function Pops(p: PrimOp): nat {
    match p
    case Simple(op) => SimplePops(op)
    case NewArr(n) => n
    case NewTuple(n) => n
    case MemberRead(_) => 1
    case MemberWrite(_) => 2
    case _ => 0
  }

  /** Writes into containers and structs push nothing, all others one value. */
  predicate Pushes(p: PrimOp) {
    p != Simple(AtWrite) && !p.MemberWrite?
  }

  /** Implicit conversion to bool of every value but structs with a {bool} member. */
  predicate Truthy(v: Value) {
    match v
    case Null => false
    case Bool(b) => b
    case Char(c) => c != 0
    case Int(i) => i != 0
    case Float(f) => f != 0.0
    case _ => true
  }

  /** The byte read as a signed char. */
  function Signed8(b: int): int {
    var m := b % 256; if m < 128 then m else m - 256
  }

  /** Decimal digits of a number. */
  function Decimal(n: nat): string {
    (if n < 10 then "" else Decimal(n / 10)) + [('0' as int + n % 10) as char]
  }

  function InvalidParameters(expected: nat, got: nat): Value {
    Str("Invalid parameters: Expected " + Decimal(expected) + " got " + Decimal(got))
  }

  predicate Scalar(v: Value) {
    v.Bool? || v.Char? || v.Int?
  }

  /** Promotion of a non-float operand to a 64-bit integer. */
  function AsInt(v: Value): int
    requires Scalar(v)
  {
    match v
    case Bool(b) => if b then 1 else 0
    case Char(c) => c
    case Int(i) => i
  }

  /** Division rounding toward zero. */
  function TruncDiv(a: int, b: int): int
    requires b != 0
  {
    if (a >= 0) == (b > 0) then Abs(a) / Abs(b) else -(Abs(a) / Abs(b))
  }

  function TruncMod(a: int, b: int): int
    requires b != 0
  {
    a - TruncDiv(a, b) * b
  }

  function Abs(a: int): nat { if a < 0 then -a else a }

  /** Arithmetic on two non-float numbers; None where the operator is not arithmetic. */
  function ScalarArith(op: SimpleOp, a: int, b: int, h: Heap): Option<PrimResult> {
    match op
    case Add => Some(Ok(Int(a + b), h))
    case Sub => Some(Ok(Int(a - b), h))
    case Mlt => Some(Ok(Int(a * b), h))
    case Div => Some(if b == 0 then Err(Str("Division by 0"), h) else Ok(Int(TruncDiv(a, b)), h))
    case Mod => Some(if b == 0 then Err(Str("Division by 0"), h) else Ok(Int(TruncMod(a, b)), h))
    case _ => None
  }

  function StepByOne(v: Value, delta: int, h: Heap): Option<PrimResult> {
    match v
    case Char(c) => Some(Ok(Int(Signed8(c + delta)), h))
    case Int(i) => Some(Ok(Int(i + delta), h))
    case Float(_) => None
    case Ref(_, _) => None
    case _ => Some(Err(Str("Invalid argument"), h))
  }

  function KnownArith(op: SimpleOp, l: Value, r: Value, h: Heap): Option<PrimResult> {
    if Scalar(l) && Scalar(r) then ScalarArith(op, AsInt(l), AsInt(r), h) else None
  }

  /** The operators whose result does not depend on the heap. */
  function Known(p: PrimOp, args: seq<Value>, h: Heap): Option<PrimResult>
    requires |args| == Pops(p)
  {
    match p
    case NewI(i) => Some(Ok(Int(i), h))
    case NewC(c) => Some(Ok(Char(Signed8(c)), h))
    case NewISmall(b) => Some(Ok(Int(Signed8(b)), h))
    case NewStr(s) => Some(Ok(Str(s), h))
    case Simple(op) => KnownSimple(op, args, h)
    case _ => None
  }

  function KnownSimple(op: SimpleOp, args: seq<Value>, h: Heap): Option<PrimResult>
    requires |args| == SimplePops(op)
  {
    match op
    case True => Some(Ok(Bool(true), h))
    case False => Some(Ok(Bool(false), h))
    case Nvll => Some(Ok(Null, h))
    case NewIConst0 => Some(Ok(Int(0), h))
    case NewIConst1 => Some(Ok(Int(1), h))
    case NewIConst2 => Some(Ok(Int(2), h))
    case Not => Some(Ok(Bool(!Truthy(args[0])), h))
    case CastBool => Some(Ok(Bool(Truthy(args[0])), h))
    case Neg => if Scalar(args[0]) then Some(Ok(Int(-AsInt(args[0])), h)) else None
    case Inc => StepByOne(args[0], 1, h)
    case Dec => StepByOne(args[0], -1, h)
    case Deref => Some(if args[0].Null? then Err(Str("Cannot dereference null"), h) else Ok(args[0], h))
    case Ueql => if args[0].Null? || args[1].Null? then Some(Ok(Bool(args[0] != args[1]), h)) else None
    case Eql => if args[0].Null? || args[1].Null? then Some(Ok(Bool(args[0] == args[1]), h)) else None
    case Add =>
      if args[0].Str? && args[1].Str? then Some(Ok(Str(args[0].s + args[1].s), h))
      else KnownArith(op, args[0], args[1], h)
    case Sub | Mlt | Div | Mod => KnownArith(op, args[0], args[1], h)
    case _ => None
  }

  /** A primitive operator applied to the operands it popped, first pushed first. */
  function Apply(ops: HeapOps, p: PrimOp, args: seq<Value>, h: Heap): PrimResult
    requires |args| == Pops(p)
  {
    match Known(p, args, h)
    case Some(r) => r
    case None => ops.op(p, args, h)
  }
}
