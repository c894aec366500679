/** The machine as it is: locals and operands of all calls share one vector of values,
    and frames remember where each call's part begins. */
module FlatMachine {
  import opened Values
  import opened Instructions
  import opened Machine

  datatype Frame = Frame(ret: nat, prevFp: nat, handler: Option<nat>, ctx: nat)

  datatype FlatCo = FlatCo(resume: nat, vars: seq<Value>, ctx: nat)

  datatype Flat = Flat(
    pc: nat, values: seq<Value>, frames: seq<Frame>, fp: nat, heap: Heap, cos: seq<FlatCo>)

  datatype FlatResult = FNext(f: Flat) | FHalt(v: Value) | FUnhandled(msg: string) | FWrong

  function Push(f: Flat, v: Value): Flat { f.(values := f.values + [v]) }

  /** Continues at next without the last n values and with these. */
  function Replace(f: Flat, next: nat, n: nat, vs: seq<Value>): Flat
    requires n <= |f.values|
  {
    f.(pc := next, values := Drop(f.values, n) + vs)
  }

  /** pop_frame: everything from the frame pointer on goes. */
  function PopTop(f: Flat): Flat
    requires f.frames != [] && f.fp <= |f.values|
  {
    f.(values := f.values[..f.fp], fp := Last(f.frames).prevFp, frames := Front(f.frames))
  }

  /** push_frame: the last n values become the first slots of the new frame. */
  function PushTop(f: Flat, ret: nat, n: nat, ctx: nat, frameSize: nat): Flat
    requires n <= |f.values|
  {
    f.(values := f.values + Nulls(frameSize), fp := |f.values| - n, frames := f.frames + [Frame(ret, f.fp, None, ctx)])
  }

  /** unwind: frames without a handler are popped. */
  function UnwindFrames(f: Flat): (g: Flat)
    ensures |g.frames| <= |f.frames|
    decreases |f.frames|
  {
    if f.frames == [] || f.fp > |f.values| || Last(f.frames).handler.Some? then f else UnwindFrames(PopTop(f))
  }

  /** thr0w: the frame with the handler is rebuilt around the exception. */
  function FlatThrow(env: Env, f: Flat, x: Value): FlatResult {
    var g := UnwindFrames(f);
    if g.frames == [] then FUnhandled(MessageOf(x))
    else
      var top := Last(g.frames);
      if g.fp > |g.values| || top.handler.None? || top.ctx >= |env.fns| then FWrong
      else
        var h := Push(PopTop(g), x);
        FNext(PushTop(h, top.ret, 1, top.ctx, env.fns[top.ctx].frameSize).(pc := top.handler.value))
  }

  function FlatReturn(f: Flat, v: Value): FlatResult {
    if f.frames == [] || f.fp > |f.values| then FWrong
    else FNext(Push(PopTop(f), v).(pc := Last(f.frames).ret))
  }

  function FlatPair(env: Env, f: Flat, co: Value, v: Value): FlatResult {
    match Apply(env.ops, NewTuple(2), [co, v], f.heap)
    case Ok(pair, h) => FlatReturn(f.(heap := h), pair)
    case Err(x, h) => FlatThrow(env, f.(heap := h), x)
  }

  /** copy_locals: everything from the frame pointer on. */
  function FlatSuspend(f: Flat, next: nat): Flat
    requires f.frames != [] && f.fp <= |f.values|
  {
    f.(cos := f.cos + [FlatCo(next, f.values[f.fp..], Last(f.frames).ctx)])
  }

  function FlatPrim(env: Env, p: PrimOp, next: nat, f: Flat): FlatResult {
    if |f.values| < Pops(p) then FWrong
    else match Apply(env.ops, p, Take(f.values, Pops(p)), f.heap)
      case Err(x, h) => FlatThrow(env, f.(heap := h, values := Drop(f.values, Pops(p))), x)
      case Ok(v, h) => FNext(Replace(f, next, Pops(p), if Pushes(p) then [v] else []).(heap := h))
  }

  function FlatCall(env: Env, i: nat, next: nat, f: Flat): FlatResult {
    if i >= |env.fns| || |f.values| < Arity(env.fns[i]) then FWrong
    else FNext(PushTop(f, next, Arity(env.fns[i]), i, env.fns[i].frameSize).(pc := env.fns[i].address))
  }

  /** The last n values are the arguments of an invocation of function i. */
  function FlatInvokeFn(env: Env, i: nat, captured: seq<Value>, n: nat, next: nat, f: Flat): FlatResult {
    if i >= |env.fns| || |f.values| < n then FWrong
    else
      var c := env.fns[i];
      match PrepareArgs(env, c, Take(f.values, n), f.heap)
      case None => FlatThrow(env, f, InvalidParameters(c.arity, n))
      case Some((fixed, Err(x, h))) => FlatThrow(env, f.(heap := h, values := Drop(f.values, n) + fixed), x)
      case Some((fixed, Ok(tuple, h))) =>
        var slots := (if c.isVariadic then fixed + [tuple] else fixed) + captured;
        FNext(PushTop(Replace(f, c.address, n, slots).(heap := h), next, |slots|, i, c.frameSize))
  }

  /** A coroutine gets a frame of its saved size and its saved values in it. */
  function FlatResume(env: Env, c: FlatCo, next: nat, f: Flat): FlatResult {
    if c.ctx >= |env.fns| || |c.vars| < env.fns[c.ctx].frameSize then FWrong
    else
      FNext(f.(pc := c.resume, values := f.values + c.vars, fp := |f.values|,
               frames := f.frames + [Frame(next, f.fp, None, c.ctx)]))
  }

  function FlatInvoke(env: Env, n: nat, next: nat, f: Flat): FlatResult {
    if f.values == [] then FWrong
    else
      var g := f.(values := Front(f.values));
      match Last(f.values)
      case Fn(i, captured) => FlatInvokeFn(env, i, captured, n, next, g)
      case Co(id) =>
        if n != 0 then FlatThrow(env, g, InvalidParameters(0, n))
        else if id >= |f.cos| then FWrong
        else FlatResume(env, f.cos[id], next, g)
      case _ => FlatThrow(env, g, Str("Invalid argument"))
  }

  function FlatForNext(env: Env, end: nat, next: nat, f: Flat): FlatResult {
    if f.values == [] then FWrong
    else match env.ops.next(Last(f.values), f.heap)
      case Err(x, h) => FlatThrow(env, f.(heap := h), x)
      case Ok(v, h) => FNext(Replace(f, if v.Stop? then end else next, 0, [v]).(heap := h))
  }

  function FlatUnpack(env: Env, size: nat, next: nat, f: Flat): FlatResult {
    if f.values == [] then FWrong
    else match env.ops.elements(Last(f.values), f.heap)
      case None => FlatThrow(env, f.(values := Front(f.values)), Str("Not a tuple"))
      case Some(vs) =>
        if |vs| < size then FlatThrow(env, f.(values := Front(f.values)), Str("Cannot unpack tuple"))
        else FNext(Replace(f, next, 1, Reverse(vs[..size])))
  }

  function FlatLoad(a: nat, next: nat, f: Flat): FlatResult {
    if f.fp + a < |f.values| then FNext(Replace(f, next, 0, [f.values[f.fp + a]])) else FWrong
  }

  function FlatStore(a: nat, next: nat, f: Flat): FlatResult {
    if f.values == [] || f.fp + a >= |f.values| - 1 then FWrong
    else FNext(f.(pc := next, values := Front(f.values)[f.fp + a := Last(f.values)]))
  }

  /** One instruction on the vector of values; next is the address after it. */
  function FlatExec(env: Env, inst: Op, next: nat, f: Flat): FlatResult {
    var n := |f.values|;
    match inst
    case Mark(_) => FNext(f.(pc := next))
    case Goto(l) => FNext(f.(pc := l))
    case IfElse(l) =>
      if n == 0 then FWrong else FNext(Replace(f, if Truthy(Last(f.values)) then next else l, 1, []))
    case ForNext(l) => FlatForNext(env, l, next, f)
    case Try(l) =>
      if f.frames == [] then FWrong
      else FNext(f.(pc := next, frames := Front(f.frames) + [Last(f.frames).(handler := Some(l))]))
    case Call(i) => FlatCall(env, i, next, f)
    case NewFx(i) => if i < |env.fns| then FNext(Replace(f, next, 0, [Fn(i, [])])) else FWrong
    case Capture =>
      if n < 2 then FWrong
      else if !f.values[n - 2].Fn? then FlatThrow(env, f.(values := Front(f.values)), Str("Invalid argument"))
      else FNext(Replace(f, next, 2, [Fn(f.values[n - 2].index, f.values[n - 2].captured + [Last(f.values)])]))
    case Invoke(k) => FlatInvoke(env, k, next, f)
    case Return => if n == 0 then FWrong else FlatReturn(f.(values := Front(f.values)), Last(f.values))
    case ReturnNull => FlatReturn(f, Null)
    case Throw => if n == 0 then FWrong else FlatThrow(env, f.(values := Front(f.values)), Last(f.values))
    case Yield =>
      if n == 0 || f.frames == [] || f.fp > n - 1 then FWrong
      else FlatPair(env, FlatSuspend(f.(values := Front(f.values)), next), Co(|f.cos|), Last(f.values))
    case CoReturn => if n == 0 then FWrong else FlatPair(env, f.(values := Front(f.values)), Null, Last(f.values))
    case CoDump =>
      if f.frames == [] || f.fp > n then FWrong else FlatReturn(FlatSuspend(f, next), Co(|f.cos|))
    case Exit => if n == 0 then FWrong else FHalt(Last(f.values))
    case Scrap => if n == 0 then FWrong else FNext(Replace(f, next, 1, []))
    case Duplicate => if n == 0 then FWrong else FNext(Replace(f, next, 0, [Last(f.values)]))
    case Swap => if n < 2 then FWrong else FNext(Replace(f, next, 2, [Last(f.values), f.values[n - 2]]))
    case Unpack(k) => FlatUnpack(env, k, next, f)
    case LoadX(a) => FlatLoad(a, next, f)
    case StoreX(a) => FlatStore(a, next, f)
    case LoadK(a) => FlatLoad(a, next, f)
    case StoreK(a) => FlatStore(a, next, f)
    case GlobalRead(i) => if i < n then FNext(Replace(f, next, 0, [f.values[i]])) else FWrong
    case GlobalWrite(i) =>
      if n == 0 || i >= n - 1 then FWrong
      else FNext(f.(pc := next, values := Front(f.values)[i := Last(f.values)]))
    case Prim(p) => FlatPrim(env, p, next, f)
  }
}
