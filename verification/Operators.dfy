/** What the nodes with operands stand for: how each is evaluated, operands first and in
    order, and the instruction its code ends with. */
module Operators {
  import opened Values
  import opened Instructions
  import opened Machine
  import opened Sst
  import opened BigStep
  import opened Compile

  /** What an operator on heap objects returned, as the outcome of an expression. */
  function Outcome(r: PrimResult, w: World): Res {
    match r
    case Ok(v, h) => Res(Done([v]), w.(heap := h))
    case Err(x, h) => Res(Raised(x), w.(heap := h))
  }

  /** What a write returned, as the outcome of a binding. */
  function Written(r: PrimResult, w: World): Res {
    match r
    case Ok(_, h) => Res(Done([]), w.(heap := h))
    case Err(x, h) => Res(Raised(x), w.(heap := h))
  }

  lemma OneArgument(u: Source, e: Expr, w: World, fuel: nat)
    ensures EvalArgs(u, ECons(e, ENil), w, fuel) == BigStep.One(EvalExpr(u, e, w, fuel))
    ensures Count(ECons(e, ENil)) == 1
  {
    hide EvalExpr;
    var r := BigStep.One(EvalExpr(u, e, w, fuel));
    if r.out.Done? {
      assert EvalArgs(u, ENil, r.w, fuel) == Unit(r.w);
      assert r.out.vs + [] == r.out.vs;
    }
  }

  lemma TwoArguments(u: Source, a: Expr, b: Expr, w: World, fuel: nat)
    ensures EvalArgs(u, ECons(a, ECons(b, ENil)), w, fuel) ==
      var ra := BigStep.One(EvalExpr(u, a, w, fuel));
      if !ra.out.Done? then ra
      else
        var rb := BigStep.One(EvalExpr(u, b, ra.w, fuel));
        if !rb.out.Done? then rb else Res(Done([ra.out.vs[0], rb.out.vs[0]]), rb.w)
    ensures Count(ECons(a, ECons(b, ENil))) == 2
  {
    hide EvalExpr;
    var ra := BigStep.One(EvalExpr(u, a, w, fuel));
    OneArgument(u, b, ra.w, fuel);
    if ra.out.Done? {
      var rb := BigStep.One(EvalExpr(u, b, ra.w, fuel));
      if rb.out.Done? { assert ra.out.vs + rb.out.vs == [ra.out.vs[0], rb.out.vs[0]]; }
    }
  }

  lemma OneOperandCode(e: Expr, n: nat)
    ensures CompArgs(ECons(e, ENil), n) == CompExpr(e, n)
  {
    hide CompExpr;
    var ce := CompExpr(e, n);
    assert CompArgs(ENil, ce.next) == Cg([], ce.next);
    assert ce.code + [] == ce.code;
  }

  lemma TwoOperandsCode(a: Expr, b: Expr, n: nat)
    ensures var ca := CompExpr(a, n); var cb := CompExpr(b, ca.next);
      CompArgs(ECons(a, ECons(b, ENil)), n) == Cg(ca.code + cb.code, cb.next)
  {
    hide CompExpr;
    OneOperandCode(b, CompExpr(a, n).next);
  }

  /** A node with operands evaluates them and applies its operator. */
  lemma NodeEvaluates(u: Source, node: StrictNode, es: Exprs, w: World, fuel: nat)
    ensures EvalExpr(u, Strict(node, es), w, fuel) ==
      var r := EvalArgs(u, es, w, fuel);
      if r.out.Done? then PrimOut(u, StrictOp(node, Count(es)), r.out.vs, r.w) else r
  {
    hide EvalArgs, PrimOut, StrictOp;
  }

  predicate OnHeap(op: SimpleOp) {
    match op
    case Pow | Lt | Gt | LtEql | GtEql | Comp | ShiftL | ShiftR | BitAnd | BitOr | BitXor => true
    case _ => false
  }

  /** These operators are left to the heap and the floats. */
  lemma HeapDecides(u: Source, op: SimpleOp, x: Value, y: Value, w: World)
    requires op.At? || OnHeap(op)
    ensures PrimOut(u, Simple(op), [x, y], w) == Outcome(u.env.ops.op(Simple(op), [x, y], w.heap), w)
  {
  }

  /** An index expression: the container, then the index, then the element is read. */
  lemma IndexReads(u: Source, a: Expr, i: Expr, w: World, fuel: nat)
    ensures EvalExpr(u, Strict(Index, ECons(a, ECons(i, ENil))), w, fuel) ==
      var ra := BigStep.One(EvalExpr(u, a, w, fuel));
      if !ra.out.Done? then ra
      else
        var ri := BigStep.One(EvalExpr(u, i, ra.w, fuel));
        if !ri.out.Done? then ri
        else Outcome(u.env.ops.op(Simple(At), [ra.out.vs[0], ri.out.vs[0]], ri.w.heap), ri.w)
  {
    NodeEvaluates(u, Index, ECons(a, ECons(i, ENil)), w, fuel);
    hide EvalExpr, EvalArgs, PrimOut;
    TwoArguments(u, a, i, w, fuel);
    var r := EvalArgs(u, ECons(a, ECons(i, ENil)), w, fuel);
    if r.out.Done? { HeapDecides(u, At, r.out.vs[0], r.out.vs[1], r.w); }
  }

  lemma IndexCode(a: Expr, i: Expr, n: nat)
    ensures var ca := CompExpr(a, n); var ci := CompExpr(i, ca.next);
      CompExpr(Strict(Index, ECons(a, ECons(i, ENil))), n) == Cg(ca.code + ci.code + [Prim(Simple(At))], ci.next)
  {
    TwoOperandsCode(a, i, n);
  }

  /** A member: the object, then the member is read. */
  lemma MemberReads(u: Source, e: Expr, id: nat, w: World, fuel: nat)
    ensures EvalExpr(u, Strict(Member(id), ECons(e, ENil)), w, fuel) ==
      var r := BigStep.One(EvalExpr(u, e, w, fuel));
      if !r.out.Done? then r else Outcome(u.env.ops.op(MemberRead(id), [r.out.vs[0]], r.w.heap), r.w)
  {
    OneArgument(u, e, w, fuel);
    var r := BigStep.One(EvalExpr(u, e, w, fuel));
    if r.out.Done? { assert r.out.vs == [r.out.vs[0]]; }
  }

  lemma MemberCode(e: Expr, id: nat, n: nat)
    ensures var ce := CompExpr(e, n);
      CompExpr(Strict(Member(id), ECons(e, ENil)), n) == Cg(ce.code + [Prim(MemberRead(id))], ce.next)
  {
    OneOperandCode(e, n);
  }

  /** An array or a tuple: the elements in order, then it is made of as many values. */
  lemma SequencesMade(u: Source, es: Exprs, w: World, fuel: nat)
    ensures var ra := EvalArgs(u, es, w, fuel);
      && EvalExpr(u, Strict(ArrayLit, es), w, fuel) ==
         (if !ra.out.Done? then ra else Outcome(u.env.ops.op(NewArr(|ra.out.vs|), ra.out.vs, ra.w.heap), ra.w))
      && EvalExpr(u, Strict(TupleLit, es), w, fuel) ==
         (if !ra.out.Done? then ra else Outcome(u.env.ops.op(NewTuple(|ra.out.vs|), ra.out.vs, ra.w.heap), ra.w))
  {
  }

  lemma SequencesCode(es: Exprs, n: nat)
    ensures var ca := CompArgs(es, n);
      && CompExpr(Strict(ArrayLit, es), n) == Cg(ca.code + [Prim(NewArr(Count(es)))], ca.next)
      && CompExpr(Strict(TupleLit, es), n) == Cg(ca.code + [Prim(NewTuple(Count(es)))], ca.next)
  {
  }

  /** Unary and binary operators that look into the heap or at floats: the operands in order,
      then the operator, whatever it does. */
  lemma OperatorsApply(u: Source, op: SimpleOp, a: Expr, b: Expr, w: World, fuel: nat)
    requires OnHeap(op)
    ensures EvalExpr(u, Strict(Binary(op), ECons(a, ECons(b, ENil))), w, fuel) ==
      var ra := BigStep.One(EvalExpr(u, a, w, fuel));
      if !ra.out.Done? then ra
      else
        var rb := BigStep.One(EvalExpr(u, b, ra.w, fuel));
        if !rb.out.Done? then rb
        else Outcome(u.env.ops.op(Simple(op), [ra.out.vs[0], rb.out.vs[0]], rb.w.heap), rb.w)
  {
    NodeEvaluates(u, Binary(op), ECons(a, ECons(b, ENil)), w, fuel);
    hide EvalExpr, EvalArgs, PrimOut;
    TwoArguments(u, a, b, w, fuel);
    var r := EvalArgs(u, ECons(a, ECons(b, ENil)), w, fuel);
    if r.out.Done? { HeapDecides(u, op, r.out.vs[0], r.out.vs[1], r.w); }
  }

  lemma BinaryCode(op: SimpleOp, a: Expr, b: Expr, n: nat)
    ensures var ca := CompExpr(a, n); var cb := CompExpr(b, ca.next);
      CompExpr(Strict(Binary(op), ECons(a, ECons(b, ENil))), n) == Cg(ca.code + cb.code + [Prim(Simple(op))], cb.next)
  {
    TwoOperandsCode(a, b, n);
  }

  lemma UnaryCode(op: SimpleOp, e: Expr, n: nat)
    ensures var ce := CompExpr(e, n);
      CompExpr(Strict(Unary(op), ECons(e, ENil)), n) == Cg(ce.code + [Prim(Simple(op))], ce.next)
  {
    OneOperandCode(e, n);
  }

  /** Assignment to an element: the container, the index, then the value is written there. */
  lemma IndexWrites(u: Source, a: Expr, i: Expr, v: Value, w: World, fuel: nat)
    ensures EvalBind(u, Place(IndexPlace, ECons(a, ECons(i, ENil))), v, w, fuel) ==
      var ra := BigStep.One(EvalExpr(u, a, w, fuel));
      if !ra.out.Done? then ra
      else
        var ri := BigStep.One(EvalExpr(u, i, ra.w, fuel));
        if !ri.out.Done? then ri
        else Written(u.env.ops.op(Simple(AtWrite), [v, ra.out.vs[0], ri.out.vs[0]], ri.w.heap), ri.w)
  {
    hide EvalExpr, EvalArgs;
    TwoArguments(u, a, i, w, fuel);
    var r := EvalArgs(u, ECons(a, ECons(i, ENil)), w, fuel);
    if r.out.Done? { assert [v] + r.out.vs == [v, r.out.vs[0], r.out.vs[1]]; }
  }

  lemma IndexPlaceCode(a: Expr, i: Expr, n: nat)
    ensures var ca := CompExpr(a, n); var ci := CompExpr(i, ca.next);
      CompBind(Place(IndexPlace, ECons(a, ECons(i, ENil))), n)
          == Cg(ca.code + ci.code + [Prim(Simple(AtWrite))], ci.next)
  {
    TwoOperandsCode(a, i, n);
  }

  /** Assignment to a member: the object, then the value is written. */
  lemma MemberWrites(u: Source, e: Expr, id: nat, v: Value, w: World, fuel: nat)
    ensures EvalBind(u, Place(MemberPlace(id), ECons(e, ENil)), v, w, fuel) ==
      var r := BigStep.One(EvalExpr(u, e, w, fuel));
      if !r.out.Done? then r else Written(u.env.ops.op(MemberWrite(id), [v, r.out.vs[0]], r.w.heap), r.w)
  {
    OneArgument(u, e, w, fuel);
    var r := BigStep.One(EvalExpr(u, e, w, fuel));
    if r.out.Done? { assert [v] + r.out.vs == [v, r.out.vs[0]]; }
  }

  lemma MemberPlaceCode(e: Expr, id: nat, n: nat)
    ensures var ce := CompExpr(e, n);
      CompBind(Place(MemberPlace(id), ECons(e, ENil)), n) == Cg(ce.code + [Prim(MemberWrite(id))], ce.next)
  {
    OneOperandCode(e, n);
  }

  /** q is a divided by b and r what remains: rounded towards zero, so the remainder has the
      sign of a. */
  predicate Divides(a: int, b: int, q: int, r: int) {
    a == q * b + r && (a >= 0 ==> 0 <= r) && (a <= 0 ==> r <= 0) && Abs(r) < Abs(b)
  }

  /** Arithmetic on integers. */
  lemma IntegersCompute(u: Source, a: int, b: int, w: World)
    ensures PrimOut(u, Simple(Add), [Int(a), Int(b)], w) == Value1(Int(a + b), w)
    ensures PrimOut(u, Simple(Sub), [Int(a), Int(b)], w) == Value1(Int(a - b), w)
    ensures PrimOut(u, Simple(Mlt), [Int(a), Int(b)], w) == Value1(Int(a * b), w)
    ensures PrimOut(u, Simple(Neg), [Int(a)], w) == Value1(Int(0 - a), w)
  {
  }

  lemma NothingDivides(u: Source, a: int, w: World)
    ensures PrimOut(u, Simple(Div), [Int(a), Int(0)], w) == Res(Raised(Str("Division by 0")), w)
    ensures PrimOut(u, Simple(Mod), [Int(a), Int(0)], w) == Res(Raised(Str("Division by 0")), w)
  {
  }

  lemma IntegersDivide(u: Source, a: int, b: int, w: World) returns (q: int, r: int)
    requires b != 0
    ensures Divides(a, b, q, r)
    ensures PrimOut(u, Simple(Div), [Int(a), Int(b)], w) == Value1(Int(q), w)
    ensures PrimOut(u, Simple(Mod), [Int(a), Int(b)], w) == Value1(Int(r), w)
  {
    hide Divides, TruncDiv, TruncMod;
    q, r := TruncDiv(a, b), TruncMod(a, b);
    Rounds(a, b);
  }

  lemma Rounds(a: int, b: int)
    requires b != 0
    ensures Divides(a, b, TruncDiv(a, b), TruncMod(a, b))
  {
    hide TruncDiv;
    QuotientTimes(a, b);
  }

  lemma QuotientTimes(a: int, b: int)
    requires b != 0
    ensures var m := Abs(a) % Abs(b);
      TruncDiv(a, b) * b == (if a >= 0 then a - m else a + m) && m < Abs(b) && m <= Abs(a)
  {
    Remains(Abs(a), Abs(b));
    var k := Abs(a) / Abs(b);
    SignedProduct(k, b);
    assert TruncDiv(a, b) == if (a >= 0) == (b > 0) then k else -k;
  }

  lemma Remains(x: nat, y: nat)
    requires y > 0
    ensures (x / y) * y == x - x % y && x % y <= x && x % y < y
  {
    assert x == (x / y) * y + x % y;
    assert (x / y) * y >= 0;
  }

  lemma SignedProduct(k: int, b: int)
    ensures k * b == (if b > 0 then k * Abs(b) else -(k * Abs(b))) && (-k) * b == -(k * b)
  {
  }

  /** Quotient and remainder are unique. */
  lemma DividesOnce(a: int, b: int, q: int, r: int, q': int, r': int)
    requires b != 0 && Divides(a, b, q, r) && Divides(a, b, q', r')
    ensures q == q' && r == r'
  {
    var d := q - q';
    assert d * b == r' - r;
    if d != 0 { assert Abs(d * b) >= Abs(b) by { ProductSize(d, b); } }
  }

  lemma ProductSize(d: int, b: int)
    requires d != 0
    ensures Abs(d * b) >= Abs(b)
  {
    assert Abs(d * b) == Abs(d) * Abs(b);
    assert (Abs(d) - 1) * Abs(b) >= 0;
  }

  /** Booleans count as 0 and 1, characters as their codes. */
  lemma ScalarsCompute(u: Source, op: SimpleOp, b: bool, c: int, j: int, w: World)
    requires op.Add? || op.Sub? || op.Mlt? || op.Div? || op.Mod?
    ensures PrimOut(u, Simple(op), [Char(c), Int(j)], w) == PrimOut(u, Simple(op), [Int(c), Int(j)], w)
    ensures PrimOut(u, Simple(op), [Int(j), Char(c)], w) == PrimOut(u, Simple(op), [Int(j), Int(c)], w)
    ensures PrimOut(u, Simple(op), [Bool(b), Int(j)], w)
         == PrimOut(u, Simple(op), [Int(if b then 1 else 0), Int(j)], w)
    ensures PrimOut(u, Simple(op), [Int(j), Bool(b)], w)
         == PrimOut(u, Simple(op), [Int(j), Int(if b then 1 else 0)], w)
  {
  }

  /** Strings are put together. */
  lemma StringsAdd(u: Source, s: string, t: string, w: World)
    ensures PrimOut(u, Simple(Add), [Str(s), Str(t)], w) == Value1(Str(s + t), w)
  {
  }

  /** Null equals null only, dereferencing it raises an exception, and other values are
      themselves. */
  lemma NullsCompare(u: Source, v: Value, w: World)
    ensures PrimOut(u, Simple(Eql), [Null, v], w) == Value1(Bool(v == Null), w)
    ensures PrimOut(u, Simple(Eql), [v, Null], w) == Value1(Bool(v == Null), w)
    ensures PrimOut(u, Simple(Ueql), [Null, v], w) == Value1(Bool(v != Null), w)
    ensures PrimOut(u, Simple(Ueql), [v, Null], w) == Value1(Bool(v != Null), w)
    ensures PrimOut(u, Simple(Deref), [v], w)
         == if v == Null then Res(Raised(Str("Cannot dereference null")), w) else Value1(v, w)
  {
  }

  /** What is false: null, false and zero; anything else is true. */
  lemma FalseValues(u: Source, v: Value, w: World)
    ensures PrimOut(u, Simple(Not), [v], w)
         == Value1(Bool(v == Null || v == Bool(false) || v == Char(0) || v == Int(0) || v == Float(0.0)), w)
  {
  }

  /** Invoking a function with a number of arguments it does not take raises an exception
      that says how many it takes and how many there were. */
  lemma WrongCountRaises(u: Source, f: nat, captured: seq<Value>, args: seq<Value>, w: World)
    requires f < |u.env.fns| && |args| < 256
    requires var c := u.env.fns[f]; if c.isVariadic then |args| < c.arity else |args| != c.arity
    ensures Resolve(u, Fn(f, captured), args, w) == NoTarget(Raised(Str(
      "Invalid parameters: Expected " + Decimal(u.env.fns[f].arity) + " got " + Decimal(|args|))), w.heap)
  {
    hide Decimal, Apply, InvalidParameters;
    CountMessage(u.env.fns[f].arity, |args|);
  }

  lemma CountMessage(expected: nat, got: nat)
    ensures InvalidParameters(expected, got)
         == Str("Invalid parameters: Expected " + Decimal(expected) + " got " + Decimal(got))
  {
  }

  /** A call by name is a call of the first function with that name. */
  lemma {:induction false} NamesFind(fns: seq<Context>, l: Label)
    ensures match FindFn(fns, l)
      case Some(f) => f < |fns| && fns[f].name == l && forall i :: 0 <= i < f ==> fns[i].name != l
      case None => forall i :: 0 <= i < |fns| ==> fns[i].name != l
  {
    if fns != [] && fns[0].name != l {
      NamesFind(fns[1..], l);
      assert forall i :: 1 <= i < |fns| ==> fns[i] == fns[1..][i - 1];
    }
  }

  /** A function starts with its arguments in its first slots and null in the others. */
  lemma FrameStarts(env: Env, s: State, f: nat, slots: seq<Value>, ret: nat)
    requires f < |env.fns|
    ensures var top := PushFrame(env, s, f, slots, ret).top;
      && |top.locals| == |slots| + env.fns[f].frameSize && top.temps == [] && top.ret == ret
      && forall i :: 0 <= i < |top.locals| ==> top.locals[i] == if i < |slots| then slots[i] else Null
  {
  }

  /** So does it when it is evaluated. */
  lemma FrameEvaluated(u: Source, f: nat, slots: seq<Value>, h: Heap, w: World, fuel: nat)
    requires f < |u.fns| && f < |u.env.fns| && !u.fns[f].isCoroutine && u.fns[f].except.None?
    ensures exists empty: seq<Value> ::
      && |empty| == u.env.fns[f].frameSize && (forall i :: 0 <= i < |empty| ==> empty[i] == Null)
      && EvalCall(u, Target(f, slots, h), w, fuel)
         == CallResult(EvalStmt(u, u.fns[f].body, World(w.globals, slots + empty, h), fuel), w)
  {
    hide EvalStmt, CallResult;
    var empty := Nulls(u.env.fns[f].frameSize);
    assert forall i :: 0 <= i < |empty| ==> empty[i] == Null;
  }
}
