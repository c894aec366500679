/** The virtual machine with its stack split into activations: the locals and the
    operands of a frame are separate sequences, so that reaching below one's own
    operands is an error here. FlatStack relates it to the single value vector. */
module Machine {
  import opened Values
  import opened Instructions

  /** One call: its slots, its operands, where it returns to, the handler its try
      installed and its function. */
  datatype Act = Act(locals: seq<Value>, temps: seq<Value>, ret: nat, handler: Option<nat>, ctx: nat)

  /** The callers, innermost first. The last one is the bottom of the stack, which is no call. */
  datatype Acts = Bottom | Under(act: Act, below: Acts)

  datatype CoData = CoData(resume: nat, locals: seq<Value>, temps: seq<Value>, ctx: nat)

  datatype State = State(
    pc: nat, globals: seq<Value>, top: Act, below: Acts, heap: Heap, cos: seq<CoData>)

  datatype Fault = Underflow | BadSlot | BadFunction | BadAddress | NoFrame

  datatype Result =
    | Next(s: State)
    | Halt(v: Value)
    | Unhandled(msg: string)
    | Wrong(why: Fault)

  datatype Env = Env(fns: seq<Context>, ops: HeapOps)

  function Last<T>(s: seq<T>): T requires s != [] { s[|s| - 1] }
  function Front<T>(s: seq<T>): seq<T> requires s != [] { s[..|s| - 1] }
  function Take<T>(s: seq<T>, n: nat): seq<T> requires n <= |s| { s[|s| - n..] }
  function Drop<T>(s: seq<T>, n: nat): seq<T> requires n <= |s| { s[..|s| - n] }
  function Nulls(n: nat): seq<Value> { seq(n, _ => Null) }
  function Reverse<T>(s: seq<T>): seq<T> { seq(|s|, i requires 0 <= i < |s| => s[|s| - 1 - i]) }

  /** Continues at next with these operands. */
  function Go(s: State, next: nat, temps: seq<Value>): State {
    s.(pc := next, top := s.top.(temps := temps))
  }

  function MessageOf(x: Value): string {
    if x.Str? then x.s else "Invalid cast to String"
  }

  /** Leaves activations until one has a handler, rebuilds that one around the
      exception and continues at the handler. */
  function Unwind(env: Env, s: State, x: Value): Result
    decreases s.below
  {
    if s.below.Bottom? then Unhandled(MessageOf(x))
    else if s.top.handler.Some? then
      if s.top.ctx < |env.fns| then
        Next(s.(pc := s.top.handler.value,
                top := Act([x] + Nulls(env.fns[s.top.ctx].frameSize), [], s.top.ret, None, s.top.ctx)))
      else Wrong(BadFunction)
    else Unwind(env, s.(top := s.below.act, below := s.below.below), x)
  }

  /** Leaves the current activation with a result. */
  function PopFrame(s: State, v: Value): Result {
    if s.below.Bottom? then Wrong(NoFrame)
    else
      var caller := s.below.act;
      Next(State(s.top.ret, s.globals, caller.(temps := caller.temps + [v]), s.below.below, s.heap, s.cos))
  }

  /** Enters function f: its slots are the given values followed by empty ones. */
  function PushFrame(env: Env, s: State, f: nat, slots: seq<Value>, ret: nat): State
    requires f < |env.fns|
  {
    State(env.fns[f].address, s.globals,
          Act(slots + Nulls(env.fns[f].frameSize), [], ret, None, f),
          Under(s.top, s.below), s.heap, s.cos)
  }

  function Arity(c: Context): nat { c.arity + if c.isVariadic then 1 else 0 }

  function ExecPrim(env: Env, p: PrimOp, next: nat, s: State): Result {
    var t := s.top.temps;
    if |t| < Pops(p) then Wrong(Underflow)
    else match Apply(env.ops, p, Take(t, Pops(p)), s.heap)
      case Err(x, h) => Unwind(env, s.(heap := h), x)
      case Ok(v, h) =>
        Next(Go(s, next, Drop(t, Pops(p)) + if Pushes(p) then [v] else []).(heap := h))
  }

  function ExecCall(env: Env, f: nat, next: nat, s: State): Result {
    if f >= |env.fns| then Wrong(BadFunction)
    else
      var n := Arity(env.fns[f]);
      var t := s.top.temps;
      if |t| < n then Wrong(Underflow)
      else Next(PushFrame(env, Go(s, s.pc, Drop(t, n)), f, Take(t, n), next))
  }

  /** The arguments a function receives when invoked with these values: the surplus
      of a variadic call becomes a tuple; None when the count does not fit. */
  function PrepareArgs(env: Env, c: Context, args: seq<Value>, h: Heap): Option<(seq<Value>, PrimResult)> {
    if c.isVariadic && |args| >= c.arity then
      var r := Apply(env.ops, NewTuple(|args| - c.arity), args[c.arity..], h);
      Some((args[..c.arity], r))
    else if !c.isVariadic && |args| == c.arity then Some((args, Ok(Null, h)))
    else None
  }

  /** The values on the stack below s's operands are the arguments of an invocation of fn. */
  function InvokeFn(env: Env, f: nat, captured: seq<Value>, args: seq<Value>, next: nat, s: State): Result {
    if f >= |env.fns| then Wrong(BadFunction)
    else match PrepareArgs(env, env.fns[f], args, s.heap)
      case None => Unwind(env, s, InvalidParameters(env.fns[f].arity, |args|))
      case Some((fixed, Err(x, h))) => Unwind(env, s.(heap := h), x)
      case Some((fixed, Ok(tuple, h))) =>
        var slots := if env.fns[f].isVariadic then fixed + [tuple] else fixed;
        Next(PushFrame(env, s.(heap := h), f, slots + captured, next))
  }

  function ExecInvoke(env: Env, arity: nat, next: nat, s: State): Result {
    var t := s.top.temps;
    if t == [] then Wrong(Underflow)
    else match Last(t)
      case Fn(f, captured) =>
        if |t| - 1 < arity then Wrong(Underflow)
        else InvokeFn(env, f, captured, Take(Front(t), arity), next, Go(s, s.pc, Drop(Front(t), arity)))
      case Co(id) =>
        if arity != 0 then Unwind(env, s, InvalidParameters(0, arity))
        else if id >= |s.cos| then Wrong(BadFunction)
        else
          var c := s.cos[id];
          Next(State(c.resume, s.globals, Act(c.locals, c.temps, next, None, c.ctx),
                     Under(s.top.(temps := Front(t)), s.below), s.heap, s.cos))
      case _ => Unwind(env, s, Str("Invalid argument"))
  }

  /** Suspends or ends a coroutine with a pair of the coroutine (or null) and a value. */
  function ReturnPair(env: Env, co: Value, v: Value, s: State): Result {
    match Apply(env.ops, NewTuple(2), [co, v], s.heap)
    case Ok(pair, h) => PopFrame(s.(heap := h), pair)
    case Err(x, h) => Unwind(env, s.(heap := h), x)
  }

  function Suspend(s: State, next: nat): State {
    s.(cos := s.cos + [CoData(next, s.top.locals, s.top.temps, s.top.ctx)])
  }

  function ExecForNext(env: Env, end: nat, next: nat, s: State): Result {
    var t := s.top.temps;
    if t == [] then Wrong(Underflow)
    else match env.ops.next(Last(t), s.heap)
      case Err(x, h) => Unwind(env, s.(heap := h), x)
      case Ok(v, h) => Next(Go(s, if v.Stop? then end else next, t + [v]).(heap := h))
  }

  function ExecUnpack(env: Env, size: nat, next: nat, s: State): Result {
    var t := s.top.temps;
    if t == [] then Wrong(Underflow)
    else match env.ops.elements(Last(t), s.heap)
      case None => Unwind(env, s, Str("Not a tuple"))
      case Some(vs) =>
        if |vs| < size then Unwind(env, s, Str("Cannot unpack tuple"))
        else Next(Go(s, next, Front(t) + Reverse(vs[..size])))
  }

  function ExecLoad(addr: nat, next: nat, s: State): Result {
    if addr < |s.top.locals| then Next(Go(s, next, s.top.temps + [s.top.locals[addr]])) else Wrong(BadSlot)
  }

  function ExecStore(addr: nat, next: nat, s: State): Result {
    var t := s.top.temps;
    if t == [] then Wrong(Underflow)
    else if addr >= |s.top.locals| then Wrong(BadSlot)
    else Next(s.(pc := next, top := s.top.(temps := Front(t), locals := s.top.locals[addr := Last(t)])))
  }

  /** One instruction; next is the address after it. */
  function Exec(env: Env, inst: Op, next: nat, s: State): Result {
    var t := s.top.temps;
    match inst
    case Mark(_) => Next(s.(pc := next))
    case Goto(l) => Next(s.(pc := l))
    case IfElse(l) =>
      if t == [] then Wrong(Underflow)
      else Next(Go(s, if Truthy(Last(t)) then next else l, Front(t)))
    case ForNext(l) => ExecForNext(env, l, next, s)
    case Try(l) =>
      if s.below.Bottom? then Wrong(NoFrame)
      else Next(s.(pc := next, top := s.top.(handler := Some(l))))
    case Call(f) => ExecCall(env, f, next, s)
    case NewFx(f) =>
      if f < |env.fns| then Next(Go(s, next, t + [Fn(f, [])])) else Wrong(BadFunction)
    case Capture =>
      if |t| < 2 then Wrong(Underflow)
      else if !t[|t| - 2].Fn? then Unwind(env, s, Str("Invalid argument"))
      else Next(Go(s, next, Drop(t, 2) + [Fn(t[|t| - 2].index, t[|t| - 2].captured + [Last(t)])]))
    case Invoke(n) => ExecInvoke(env, n, next, s)
    case Return => if t == [] then Wrong(Underflow) else PopFrame(s, Last(t))
    case ReturnNull => PopFrame(s, Null)
    case Throw => if t == [] then Wrong(Underflow) else Unwind(env, s, Last(t))
    case Yield =>
      if t == [] then Wrong(Underflow)
      else if s.below.Bottom? then Wrong(NoFrame)
      else ReturnPair(env, Co(|s.cos|), Last(t), Suspend(Go(s, s.pc, Front(t)), next))
    case CoReturn =>
      if t == [] then Wrong(Underflow)
      else if s.below.Bottom? then Wrong(NoFrame)
      else ReturnPair(env, Null, Last(t), s)
    case CoDump => PopFrame(Suspend(s, next), Co(|s.cos|))
    case Exit => if t == [] then Wrong(Underflow) else Halt(Last(t))
    case Scrap => if t == [] then Wrong(Underflow) else Next(Go(s, next, Front(t)))
    case Duplicate => if t == [] then Wrong(Underflow) else Next(Go(s, next, t + [Last(t)]))
    case Swap =>
      if |t| < 2 then Wrong(Underflow)
      else Next(Go(s, next, Drop(t, 2) + [Last(t), t[|t| - 2]]))
    case Unpack(n) => ExecUnpack(env, n, next, s)
    case LoadX(a) => ExecLoad(a, next, s)
    case StoreX(a) => ExecStore(a, next, s)
    case LoadK(a) => ExecLoad(a, next, s)
    case StoreK(a) => ExecStore(a, next, s)
    case GlobalRead(i) =>
      if i < |s.globals| then Next(Go(s, next, t + [s.globals[i]])) else Wrong(BadSlot)
    case GlobalWrite(i) =>
      if t == [] then Wrong(Underflow)
      else if i >= |s.globals| then Wrong(BadSlot)
      else Next(Go(s, next, Front(t)).(globals := s.globals[i := Last(t)]))
    case Prim(p) => ExecPrim(env, p, next, s)
  }

  /** Code whose jump targets are positions in it. */
  datatype Program = Program(code: seq<Op>, env: Env)

  function Step(p: Program, s: State): Result {
    if s.pc < |p.code| then Exec(p.env, p.code[s.pc], s.pc + 1, s) else Wrong(BadAddress)
  }

  function Run(p: Program, s: State, n: nat): Result
    decreases n
  {
    if n == 0 then Next(s)
    else match Step(p, s)
      case Next(t) => Run(p, t, n - 1)
      case r => r
  }

  lemma {:induction false} RunAdd(p: Program, s: State, a: nat, b: nat)
    ensures Run(p, s, a + b) ==
            match Run(p, s, a) case Next(t) => Run(p, t, b) case r => r
    decreases a
  {
    if a > 0 && Step(p, s).Next? {
      RunAdd(p, Step(p, s).s, a - 1, b);
    }
  }
}
