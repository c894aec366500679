/** The shared vector of values refines the machine whose calls keep their locals and
    operands apart. */
module FlatProof {
  import opened Values
  import opened Instructions
  import opened Machine
  import opened FlatMachine

  /** The part of the vector that belongs to a call and its callers, without the globals. */
  function StackOf(top: Act, below: Acts): seq<Value>
    decreases below, 1
  {
    Beneath(below) + top.locals + top.temps
  }

  function Beneath(below: Acts): seq<Value>
    decreases below, 0
  {
    match below case Bottom => [] case Under(a, rest) => StackOf(a, rest)
  }

  function Fp(below: Acts, base: nat): nat {
    match below case Bottom => 0 case Under(_, _) => base + |Beneath(below)|
  }

  function FramesOf(top: Act, below: Acts, base: nat): seq<Frame>
    decreases below
  {
    match below
    case Bottom => []
    case Under(a, rest) => FramesOf(a, rest, base) + [Frame(top.ret, Fp(rest, base), top.handler, top.ctx)]
  }

  function FlatCoOf(c: CoData): FlatCo { FlatCo(c.resume, c.locals + c.temps, c.ctx) }

  function FlatCos(cos: seq<CoData>): (r: seq<FlatCo>)
    ensures |r| == |cos|
  {
    seq(|cos|, i requires 0 <= i < |cos| => FlatCoOf(cos[i]))
  }

  /** The state as the machine holds it. */
  function Flatten(s: State): Flat {
    Flat(s.pc, s.globals + StackOf(s.top, s.below), FramesOf(s.top, s.below, |s.globals|), Fp(s.below, |s.globals|),
         s.heap, FlatCos(s.cos))
  }

  function FlattenResult(r: Result): FlatResult {
    match r
    case Next(s) => FNext(Flatten(s))
    case Halt(v) => FHalt(v)
    case Unhandled(m) => FUnhandled(m)
    case Wrong(_) => FWrong
  }

  /** Outside calls there are no locals, and saved coroutines have their frame's slots. */
  predicate Framed(env: Env, s: State) {
    && BottomBare(s.top, s.below)
    && ActsFramed(env, s.top, s.below)
    && forall i :: 0 <= i < |s.cos| ==> Roomy(env, s.cos[i].ctx, s.cos[i].locals)
  }

  predicate Roomy(env: Env, ctx: nat, locals: seq<Value>) {
    ctx < |env.fns| && env.fns[ctx].frameSize <= |locals|
  }

  predicate ActsFramed(env: Env, top: Act, below: Acts)
    decreases below
  {
    below.Under? ==> Roomy(env, top.ctx, top.locals) && ActsFramed(env, below.act, below.below)
  }

  predicate BottomBare(top: Act, below: Acts)
    decreases below
  {
    match below case Bottom => top.locals == [] case Under(a, rest) => BottomBare(a, rest)
  }

  /** What lies below the operands of the running call. */
  function Base(s: State): seq<Value> { s.globals + Beneath(s.below) + s.top.locals }

  lemma ValuesSplit(s: State)
    ensures Flatten(s).values == Base(s) + s.top.temps
  {
  }

  lemma GoFlat(s: State, pc: nat, temps: seq<Value>)
    ensures Flatten(Go(s, pc, temps)) == Flatten(s).(pc := pc, values := Base(s) + temps)
    ensures Base(Go(s, pc, temps)) == Base(s)
  {
    ValuesSplit(Go(s, pc, temps));
    SameFrames(s.top, Go(s, pc, temps).top, s.below, |s.globals|);
  }

  lemma SameFrames(a: Act, b: Act, below: Acts, base: nat)
    requires a.ret == b.ret && a.handler == b.handler && a.ctx == b.ctx
    ensures FramesOf(a, below, base) == FramesOf(b, below, base)
  {
  }

  /** Taking operands off the end of the vector takes them off the operands of the call. */
  lemma TakeFlat(s: State, n: nat)
    requires n <= |s.top.temps|
    ensures n <= |Flatten(s).values|
    ensures Take(Flatten(s).values, n) == Take(s.top.temps, n)
    ensures Drop(Flatten(s).values, n) == Base(s) + Drop(s.top.temps, n)
  {
    ValuesSplit(s);
  }

  lemma ReplaceFlat(s: State, next: nat, n: nat, vs: seq<Value>)
    requires n <= |s.top.temps|
    ensures n <= |Flatten(s).values|
    ensures Replace(Flatten(s), next, n, vs) == Flatten(Go(s, next, Drop(s.top.temps, n) + vs))
  {
    TakeFlat(s, n);
    GoFlat(s, next, Drop(s.top.temps, n) + vs);
    assert Base(s) + Drop(s.top.temps, n) + vs == Base(s) + (Drop(s.top.temps, n) + vs);
  }

  lemma TopFlat(s: State)
    requires s.top.temps != []
    ensures Flatten(s).values != [] && Last(Flatten(s).values) == Last(s.top.temps)
    ensures Flatten(s).(values := Front(Flatten(s).values)) == Flatten(Go(s, s.pc, Front(s.top.temps)))
  {
    ValuesSplit(s);
    GoFlat(s, s.pc, Front(s.top.temps));
    assert Front(Flatten(s).values) == Base(s) + Front(s.top.temps);
  }

  /** Popping the frame of a call leaves what its callers have. */
  lemma PopTopFlat(s: State)
    requires s.below.Under?
    ensures var f := Flatten(s);
      && f.frames != [] && f.fp <= |f.values| && Last(f.frames)
          == Frame(s.top.ret, Fp(s.below.below, |s.globals|), s.top.handler, s.top.ctx)
      && PopTop(f) == Flatten(s.(top := s.below.act, below := s.below.below))
  {
    ValuesSplit(s);
    assert Flatten(s).values[..Flatten(s).fp] == s.globals + Beneath(s.below);
    assert Front(FramesOf(s.top, s.below, |s.globals|)) == FramesOf(s.below.act, s.below.below, |s.globals|);
  }

  lemma FlatReturnAgrees(s: State, v: Value)
    requires !PopFrame(s, v).Wrong?
    ensures FlatReturn(Flatten(s), v) == FlattenResult(PopFrame(s, v))
  {
    PopTopFlat(s);
    var t := s.(top := s.below.act, below := s.below.below);
    GoFlat(t, s.top.ret, t.top.temps + [v]);
    ValuesSplit(t);
    assert Base(t) + t.top.temps + [v] == Base(t) + (t.top.temps + [v]);
  }

  /** The new frame starts with the slots at the end of the caller's operands. */
  lemma PushTopFlat(env: Env, s: State, i: nat, slots: seq<Value>, ret: nat)
    requires i < |env.fns|
    ensures var f := Flatten(s).(values := Flatten(s).values + slots);
      PushTop(f, ret, |slots|, i, env.fns[i].frameSize).(pc := env.fns[i].address) ==
      Flatten(PushFrame(env, s, i, slots, ret))
  {
    var t := PushFrame(env, s, i, slots, ret);
    ValuesSplit(t);
    assert Flatten(t).values == Flatten(s).values + slots + Nulls(env.fns[i].frameSize);
    assert FramesOf(t.top, t.below, |s.globals|) ==
      FramesOf(s.top, s.below, |s.globals|) + [Frame(ret, Fp(s.below, |s.globals|), None, i)];
  }

  /** Unwinding pops the same calls in both machines, and rebuilds the same one. */
  lemma {:induction false} FlatThrowAgrees(env: Env, s: State, f: Flat, x: Value)
    requires SameBelow(s, f) && !Unwind(env, s, x).Wrong?
    ensures FlatThrow(env, f, x) == FlattenResult(Unwind(env, s, x))
    decreases s.below
  {
    if s.below.Under? {
      if s.top.handler.Some? {
        Rebuilt(env, s, f, x);
      } else {
        var t := s.(top := s.below.act, below := s.below.below);
        PopTopBelow(s, f);
        FlatThrowAgrees(env, t, PopTop(f), x);
      }
    }
  }

  /** f is s but for the operands and the locals of the running call, and the program counter. */
  predicate SameBelow(s: State, f: Flat) {
    && f.frames == Flatten(s).frames && f.fp == Flatten(s).fp && f.heap == s.heap && f.cos == FlatCos(s.cos)
    && (s.below.Under? ==> f.fp <= |f.values| && f.values[..f.fp] == s.globals + Beneath(s.below))
    && (s.below.Bottom? ==> f.fp == 0)
  }

  lemma PopTopBelow(s: State, f: Flat)
    requires SameBelow(s, f) && s.below.Under?
    ensures f.frames != [] && f.fp <= |f.values|
    ensures var t := s.(top := s.below.act, below := s.below.below);
      SameBelow(t, PopTop(f)) && PopTop(f).values == Flatten(t).values
  {
    PopTopFlat(s);
    var t := s.(top := s.below.act, below := s.below.below);
    ValuesSplit(t);
    assert PopTop(f).values == Flatten(t).values;
    SameBelowSelf(t);
  }

  lemma SameBelowSelf(s: State)
    ensures SameBelow(s, Flatten(s))
  {
    if s.below.Under? { assert Flatten(s).values[..Flatten(s).fp] == s.globals + Beneath(s.below); }
  }

  lemma Rebuilt(env: Env, s: State, f: Flat, x: Value)
    requires SameBelow(s, f) && s.below.Under? && s.top.handler.Some? && s.top.ctx < |env.fns|
    ensures FlatThrow(env, f, x) == FlattenResult(Unwind(env, s, x))
  {
    PopTopFlat(s);
    PopTopBelow(s, f);
    var t := s.(top := s.below.act, below := s.below.below);
    assert UnwindFrames(f) == f;
    var h := Push(PopTop(f), x);
    assert h == Flatten(t).(pc := f.pc, values := Flatten(t).values + [x]);
    PushTopFlat(env, t, s.top.ctx, [x], s.top.ret);
    var u := PushFrame(env, t, s.top.ctx, [x], s.top.ret);
    assert FlattenResult(Unwind(env, s, x)) == FNext(Flatten(u).(pc := s.top.handler.value));
  }

  /** After operands were popped, the exception is thrown from what is left. */
  lemma ThrowFrom(env: Env, s: State, f: Flat, x: Value)
    requires !Unwind(env, s, x).Wrong?
    requires f == Flatten(s).(pc := f.pc, values := f.values) && Base(s) <= f.values
    ensures FlatThrow(env, f, x) == FlattenResult(Unwind(env, s, x))
  {
    if s.below.Under? {
      assert Base(s)[..f.fp] == s.globals + Beneath(s.below);
      assert f.values[..f.fp] == Base(s)[..f.fp];
    }
    FlatThrowAgrees(env, s, f, x);
  }

  lemma BaseFirst(s: State)
    ensures Base(s) <= Flatten(s).values
  {
    ValuesSplit(s);
  }

  lemma PrimAgrees(env: Env, p: PrimOp, next: nat, s: State)
    requires !ExecPrim(env, p, next, s).Wrong?
    ensures FlatPrim(env, p, next, Flatten(s)) == FlattenResult(ExecPrim(env, p, next, s))
  {
    hide Unwind, FlatThrow, Apply, Flatten, Replace;
    var t := s.top.temps;
    TakeFlat(s, Pops(p));
    match Apply(env.ops, p, Take(t, Pops(p)), s.heap)
    case Err(x, h) =>
      HeapFlat(s, h);
      ThrowFrom(env, s.(heap := h), Flatten(s.(heap := h)).(values := Base(s) + Drop(t, Pops(p))), x);
    case Ok(v, h) =>
      HeapFlat(s, h);
      ReplaceFlat(s, next, Pops(p), if Pushes(p) then [v] else []);
      HeapFlat(Go(s, next, Drop(t, Pops(p)) + if Pushes(p) then [v] else []), h);
  }

  lemma HeapFlat(s: State, h: Heap)
    ensures Flatten(s.(heap := h)) == Flatten(s).(heap := h) && Base(s.(heap := h)) == Base(s)
    ensures Flatten(s).heap == s.heap && Base(s) <= Flatten(s).values
  {
    BaseFirst(s);
  }

  lemma ForNextAgrees(env: Env, end: nat, next: nat, s: State)
    requires !ExecForNext(env, end, next, s).Wrong?
    ensures FlatForNext(env, end, next, Flatten(s)) == FlattenResult(ExecForNext(env, end, next, s))
  {
    hide Unwind, FlatThrow, Flatten, Replace;
    var t := s.top.temps;
    TopFlat(s);
    HeapFlat(s, s.heap);
    match env.ops.next(Last(t), s.heap)
    case Err(x, h) =>
      HeapFlat(s, h);
      ThrowFrom(env, s.(heap := h), Flatten(s.(heap := h)), x);
    case Ok(v, h) =>
      var to := if v.Stop? then end else next;
      assert Drop(t, 0) + [v] == t + [v];
      ReplaceFlat(s, to, 0, [v]);
      HeapFlat(Go(s, to, t + [v]), h);
  }

  lemma UnpackAgrees(env: Env, size: nat, next: nat, s: State)
    requires !ExecUnpack(env, size, next, s).Wrong?
    ensures FlatUnpack(env, size, next, Flatten(s)) == FlattenResult(ExecUnpack(env, size, next, s))
  {
    hide Unwind, FlatThrow, Flatten, Replace, Reverse;
    var t := s.top.temps;
    TopFlat(s);
    HeapFlat(s, s.heap);
    var f := Flatten(Go(s, s.pc, Front(t)));
    GoFlat(s, s.pc, Front(t));
    match env.ops.elements(Last(t), s.heap)
    case None => ThrowFrom(env, s, f, Str("Not a tuple"));
    case Some(vs) =>
      if |vs| < size {
        ThrowFrom(env, s, f, Str("Cannot unpack tuple"));
      } else {
        assert Drop(t, 1) == Front(t);
        ReplaceFlat(s, next, 1, Reverse(vs[..size]));
      }
  }

  lemma CallAgrees(env: Env, i: nat, next: nat, s: State)
    requires !ExecCall(env, i, next, s).Wrong?
    ensures FlatCall(env, i, next, Flatten(s)) == FlattenResult(ExecCall(env, i, next, s))
  {
    hide Flatten, PushTop;
    var n, t := Arity(env.fns[i]), s.top.temps;
    TakeFlat(s, n);
    var u := Go(s, s.pc, Drop(t, n));
    GoFlat(s, s.pc, Drop(t, n));
    ValuesSplit(u);
    assert Flatten(u).values + Take(t, n) == Flatten(s).values by {
      ValuesSplit(s);
      assert Drop(t, n) + Take(t, n) == t;
      assert Base(s) + Drop(t, n) + Take(t, n) == Base(s) + (Drop(t, n) + Take(t, n));
    }
    HeapFlat(s, s.heap);
    PushTopFlat(env, u, i, Take(t, n), next);
    PcFlat(s, s.pc);
  }

  lemma PcFlat(s: State, pc: nat)
    ensures Flatten(s).pc == s.pc && Flatten(s.(pc := pc)) == Flatten(s).(pc := pc)
  {
  }

  /** u is the caller without the arguments, which are the last n values of f. */
  lemma InvokeFnAgrees(env: Env, i: nat, captured: seq<Value>, args: seq<Value>, next: nat, u: State, f: Flat)
    requires !InvokeFn(env, i, captured, args, next, u).Wrong?
    requires f == Flatten(u).(values := Flatten(u).values + args)
    ensures FlatInvokeFn(env, i, captured, |args|, next, f) == FlattenResult(InvokeFn(env, i, captured, args, next, u))
  {
    hide Unwind, FlatThrow, Flatten, PushTop, Replace, PrepareArgs;
    assert Take(f.values, |args|) == args && Drop(f.values, |args|) == Flatten(u).values;
    HeapFlat(u, u.heap);
    PcFlat(u, u.pc);
    BaseBelow(u, args);
    var c := env.fns[i];
    match PrepareArgs(env, c, args, u.heap)
    case None => ThrowFrom(env, u, f, InvalidParameters(c.arity, |args|));
    case Some((fixed, Err(x, h))) =>
      HeapFlat(u, h);
      BaseBelow(u, fixed);
      ThrowFrom(env, u.(heap := h), f.(heap := h, values := Flatten(u).values + fixed), x);
    case Some((fixed, Ok(tuple, h))) =>
      var slots := (if c.isVariadic then fixed + [tuple] else fixed) + captured;
      HeapFlat(u, h);
      PushTopFlat(env, u.(heap := h), i, slots, next);
      ReplacedArgs(u, h, f, c.address, args, slots);
      PushTopPc(Flatten(u.(heap := h)).(values := Flatten(u.(heap := h)).values + slots), next, |slots|, i,
        c.frameSize, c.address);
  }

  lemma BaseBelow(u: State, args: seq<Value>)
    ensures Base(u) <= Flatten(u).values + args
  {
    ValuesSplit(u);
  }

  lemma ReplacedArgs(u: State, h: Heap, f: Flat, pc: nat, args: seq<Value>, slots: seq<Value>)
    requires f == Flatten(u).(values := Flatten(u).values + args)
    ensures |args| <= |f.values|
    ensures Replace(f, pc, |args|, slots).(heap := h) ==
            Flatten(u.(heap := h)).(pc := pc, values := Flatten(u.(heap := h)).values + slots)
  {
    assert Drop(f.values, |args|) == Flatten(u).values;
  }

  lemma PushTopPc(f: Flat, ret: nat, n: nat, ctx: nat, frameSize: nat, pc: nat)
    requires n <= |f.values|
    ensures PushTop(f.(pc := pc), ret, n, ctx, frameSize) == PushTop(f, ret, n, ctx, frameSize).(pc := pc)
  {
  }

  lemma ResumeAgrees(env: Env, s: State, c: CoData, next: nat)
    requires Roomy(env, c.ctx, c.locals)
    ensures FlatResume(env, FlatCoOf(c), next, Flatten(s)) ==
      FNext(Flatten(State(c.resume, s.globals, Act(c.locals, c.temps, next, None, c.ctx), Under(s.top, s.below),
        s.heap, s.cos)))
  {
    var t := State(c.resume, s.globals, Act(c.locals, c.temps, next, None, c.ctx), Under(s.top, s.below), s.heap,
      s.cos);
    ValuesSplit(t);
    assert Flatten(t).values == Flatten(s).values + (c.locals + c.temps);
    assert FramesOf(t.top, t.below, |s.globals|) ==
      FramesOf(s.top, s.below, |s.globals|) + [Frame(next, Fp(s.below, |s.globals|), None, c.ctx)];
  }

  lemma InvokeAgrees(env: Env, n: nat, next: nat, s: State)
    requires Framed(env, s) && !ExecInvoke(env, n, next, s).Wrong?
    ensures FlatInvoke(env, n, next, Flatten(s)) == FlattenResult(ExecInvoke(env, n, next, s))
  {
    hide Unwind, FlatThrow, Flatten, InvokeFn, FlatInvokeFn, FlatResume, ActsFramed, BottomBare;
    var t := s.top.temps;
    var u := Go(s, s.pc, Front(t));
    TopFlat(s);
    CosFlat(s);
    GoFlat(s, s.pc, Front(t));
    var g := Flatten(u);
    match Last(t)
    case Fn(i, captured) =>
      var args, rest := Take(Front(t), n), Drop(Front(t), n);
      var w := Go(s, s.pc, rest);
      GoFlat(s, s.pc, rest);
      ValuesSplit(w);
      ValuesSplit(u);
      assert Base(s) + rest + args == Base(s) + (rest + args) && rest + args == Front(t);
      InvokeFnAgrees(env, i, captured, args, next, w, g);
    case Co(id) =>
      if n != 0 {
        ThrowFrom(env, s, g, InvalidParameters(0, n));
      } else {
        ResumeAgrees(env, u, s.cos[id], next);
      }
    case _ => ThrowFrom(env, s, g, Str("Invalid argument"));
  }

  lemma CosFlat(s: State)
    ensures |Flatten(s).cos| == |s.cos| && forall i :: 0 <= i < |s.cos| ==> Flatten(s).cos[i] == FlatCoOf(s.cos[i])
  {
  }

  lemma SuspendFlat(s: State, next: nat)
    requires s.below.Under?
    ensures var f := Flatten(s);
      f.frames != [] && f.fp <= |f.values| && FlatSuspend(f, next) == Flatten(Suspend(s, next))
  {
    PopTopFlat(s);
    ValuesSplit(s);
    var f := Flatten(s);
    assert f.values[f.fp..] == s.top.locals + s.top.temps;
    assert FlatSuspend(f, next).cos == Flatten(Suspend(s, next)).cos;
  }

  lemma PairAgrees(env: Env, co: Value, v: Value, s: State)
    requires !ReturnPair(env, co, v, s).Wrong?
    ensures FlatPair(env, Flatten(s), co, v) == FlattenResult(ReturnPair(env, co, v, s))
  {
    hide Unwind, FlatThrow, Flatten, Apply, PopFrame, FlatReturn;
    HeapFlat(s, s.heap);
    match Apply(env.ops, NewTuple(2), [co, v], s.heap)
    case Ok(pair, h) =>
      HeapFlat(s, h);
      FlatReturnAgrees(s.(heap := h), pair);
    case Err(x, h) =>
      HeapFlat(s, h);
      ThrowFrom(env, s.(heap := h), Flatten(s.(heap := h)), x);
  }

  predicate OfCoroutines(i: Op) { i.Yield? || i.CoReturn? || i.CoDump? }

  lemma CoroutineAgrees(env: Env, i: Op, next: nat, s: State)
    requires OfCoroutines(i) && !Exec(env, i, next, s).Wrong?
    ensures FlatExec(env, i, next, Flatten(s)) == FlattenResult(Exec(env, i, next, s))
  {
    hide Flatten, ReturnPair, FlatPair, FlatSuspend, FlatReturn;
    CosFlat(s);
    var t := s.top.temps;
    match i
    case Yield =>
      TopFlat(s);
      var u := Go(s, s.pc, Front(t));
      SuspendFlat(u, next);
      PairAgrees(env, Co(|s.cos|), Last(t), Suspend(u, next));
      FpFlat(s);
    case CoReturn =>
      TopFlat(s);
      var u := Go(s, s.pc, Front(t));
      PairOperands(env, Null, Last(t), s);
      PairAgrees(env, Null, Last(t), u);
    case CoDump =>
      SuspendFlat(s, next);
      FlatReturnAgrees(Suspend(s, next), Co(|s.cos|));
  }

  lemma FpFlat(s: State)
    requires s.below.Under? && s.top.temps != []
    ensures Flatten(s).frames != [] && Flatten(s).fp <= |Flatten(s).values| - 1
  {
    PopTopFlat(s);
  }

  /** What the running call has on the stack does not matter when it ends. */
  lemma PairOperands(env: Env, co: Value, v: Value, s: State)
    requires s.top.temps != []
    ensures ReturnPair(env, co, v, Go(s, s.pc, Front(s.top.temps))) == ReturnPair(env, co, v, s)
  {
    match Apply(env.ops, NewTuple(2), [co, v], s.heap)
    case Ok(pair, h) =>
    case Err(x, h) => UnwindOperands(env, s.(heap := h), Front(s.top.temps), x);
  }

  lemma UnwindOperands(env: Env, s: State, temps: seq<Value>, x: Value)
    ensures Unwind(env, Go(s, s.pc, temps), x) == Unwind(env, s, x)
  {
  }

  lemma LoadAgrees(a: nat, next: nat, s: State)
    requires s.below.Under? && !ExecLoad(a, next, s).Wrong?
    ensures FlatLoad(a, next, Flatten(s)) == FlattenResult(ExecLoad(a, next, s))
  {
    ValuesSplit(s);
    assert Flatten(s).values[Flatten(s).fp + a] == s.top.locals[a];
    ReplaceFlat(s, next, 0, [s.top.locals[a]]);
    assert Drop(s.top.temps, 0) == s.top.temps;
  }

  lemma StoreAgrees(a: nat, next: nat, s: State)
    requires s.below.Under? && !ExecStore(a, next, s).Wrong?
    ensures FlatStore(a, next, Flatten(s)) == FlattenResult(ExecStore(a, next, s))
  {
    var t := s.top.temps;
    TopFlat(s);
    ValuesSplit(s);
    var u := s.(pc := next, top := s.top.(temps := Front(t), locals := s.top.locals[a := Last(t)]));
    ValuesSplit(u);
    assert Front(Flatten(s).values) == Base(s) + Front(t);
    assert Flatten(u).values == Front(Flatten(s).values)[Flatten(s).fp + a := Last(t)];
    SameFrames(s.top, u.top, s.below, |s.globals|);
  }

  lemma GlobalAgrees(env: Env, i: Op, next: nat, s: State)
    requires (i.GlobalRead? || i.GlobalWrite?) && !Exec(env, i, next, s).Wrong?
    ensures FlatExec(env, i, next, Flatten(s)) == FlattenResult(Exec(env, i, next, s))
  {
    var t := s.top.temps;
    ValuesSplit(s);
    if i.GlobalRead? {
      assert Flatten(s).values[i.id] == s.globals[i.id];
      ReplaceFlat(s, next, 0, [s.globals[i.id]]);
      assert Drop(t, 0) == t;
    } else {
      TopFlat(s);
      var u := Go(s, next, Front(t)).(globals := s.globals[i.id := Last(t)]);
      ValuesSplit(u);
      assert Front(Flatten(s).values) == Base(s) + Front(t);
      assert Flatten(u).values == Front(Flatten(s).values)[i.id := Last(t)];
      SameFrames(s.top, u.top, s.below, |s.globals|);
    }
  }

  predicate OfOperands(i: Op) { i.IfElse? || i.NewFx? || i.Scrap? || i.Duplicate? || i.Swap? || i.Capture? }

  lemma OperandsAgree(env: Env, i: Op, next: nat, s: State)
    requires OfOperands(i) && !Exec(env, i, next, s).Wrong?
    ensures FlatExec(env, i, next, Flatten(s)) == FlattenResult(Exec(env, i, next, s))
  {
    hide Flatten, Replace, Unwind, FlatThrow;
    var t := s.top.temps;
    assert Drop(t, 0) == t;
    match i
    case IfElse(l) =>
      TopFlat(s);
      assert Drop(t, 1) + [] == Front(t);
      ReplaceFlat(s, if Truthy(Last(t)) then next else l, 1, []);
    case NewFx(f) => ReplaceFlat(s, next, 0, [Fn(f, [])]);
    case Scrap =>
      TopFlat(s);
      assert Drop(t, 1) + [] == Front(t);
      ReplaceFlat(s, next, 1, []);
    case Duplicate =>
      TopFlat(s);
      ReplaceFlat(s, next, 0, [Last(t)]);
    case Swap =>
      TopFlat(s);
      SecondFlat(s);
      ReplaceFlat(s, next, 2, [Last(t), t[|t| - 2]]);
    case Capture =>
      TopFlat(s);
      SecondFlat(s);
      if t[|t| - 2].Fn? {
        ReplaceFlat(s, next, 2, [Fn(t[|t| - 2].index, t[|t| - 2].captured + [Last(t)])]);
      } else {
        HeapFlat(s, s.heap);
        GoFlat(s, s.pc, Front(t));
        ThrowFrom(env, s, Flatten(s).(values := Front(Flatten(s).values)), Str("Invalid argument"));
      }
  }

  lemma SecondFlat(s: State)
    requires |s.top.temps| >= 2
    ensures |Flatten(s).values| >= 2 && Flatten(s).values[|Flatten(s).values| - 2] == s.top.temps[|s.top.temps| - 2]
  {
    ValuesSplit(s);
  }

  predicate OfJumps(i: Op) { i.Mark? || i.Goto? || i.Try? || i.Return? || i.ReturnNull? || i.Throw? || i.Exit? }

  lemma JumpsAgree(env: Env, i: Op, next: nat, s: State)
    requires OfJumps(i) && !Exec(env, i, next, s).Wrong?
    ensures FlatExec(env, i, next, Flatten(s)) == FlattenResult(Exec(env, i, next, s))
  {
    hide Replace, Unwind, FlatThrow, PopFrame, FlatReturn;
    var t := s.top.temps;
    match i
    case Mark(_) =>
    case Goto(_) =>
    case Try(l) => PopTopFlat(s);
    case Return =>
      TopFlat(s);
      ReturnOperands(s, Last(t));
      FlatReturnAgrees(Go(s, s.pc, Front(t)), Last(t));
    case ReturnNull => FlatReturnAgrees(s, Null);
    case Throw =>
      TopFlat(s);
      UnwindOperands(env, s, Front(t), Last(t));
      BaseFirst(Go(s, s.pc, Front(t)));
      ThrowFrom(env, Go(s, s.pc, Front(t)), Flatten(Go(s, s.pc, Front(t))), Last(t));
    case Exit => TopFlat(s);
  }

  lemma ReturnOperands(s: State, v: Value)
    requires s.top.temps != []
    ensures PopFrame(Go(s, s.pc, Front(s.top.temps)), v) == PopFrame(s, v)
  {
  }

  /** Whatever goes well on split stacks goes the same way on the shared vector. */
  lemma FlatExecAgrees(env: Env, i: Op, next: nat, s: State)
    requires Framed(env, s) && !Exec(env, i, next, s).Wrong?
    ensures FlatExec(env, i, next, Flatten(s)) == FlattenResult(Exec(env, i, next, s))
  {
    BareBelow(env, i, next, s);
    hide Flatten, Framed, FlattenResult, ExecLoad, FlatLoad, ExecStore, FlatStore, ExecPrim, FlatPrim, ExecCall,
      FlatCall, ExecInvoke, FlatInvoke, ExecForNext, FlatForNext, ExecUnpack, FlatUnpack;
    match i
    case ForNext(l) => ForNextAgrees(env, l, next, s);
    case Call(f) => CallAgrees(env, f, next, s);
    case Invoke(n) => InvokeAgrees(env, n, next, s);
    case Unpack(n) => UnpackAgrees(env, n, next, s);
    case LoadX(a) => LoadAgrees(a, next, s);
    case StoreX(a) => StoreAgrees(a, next, s);
    case LoadK(a) => LoadAgrees(a, next, s);
    case StoreK(a) => StoreAgrees(a, next, s);
    case GlobalRead(_) => GlobalAgrees(env, i, next, s);
    case GlobalWrite(_) => GlobalAgrees(env, i, next, s);
    case Prim(p) => PrimAgrees(env, p, next, s);
    case _ =>
      if OfCoroutines(i) { CoroutineAgrees(env, i, next, s); }
      else if OfOperands(i) { OperandsAgree(env, i, next, s); }
      else { JumpsAgree(env, i, next, s); }
  }

  /** Outside calls there are no slots. */
  lemma BareBelow(env: Env, i: Op, next: nat, s: State)
    requires Framed(env, s) && !Exec(env, i, next, s).Wrong?
    ensures i.LoadX? || i.StoreX? || i.LoadK? || i.StoreK? ==> s.below.Under?
  {
  }

  predicate ResultFramed(env: Env, r: Result) { r.Next? ==> Framed(env, r.s) }

  lemma {:induction false} UnwindFramed(env: Env, s: State, x: Value)
    requires Framed(env, s)
    ensures ResultFramed(env, Unwind(env, s, x))
    decreases s.below
  {
    if s.below.Under? && s.top.handler.None? {
      UnwindFramed(env, s.(top := s.below.act, below := s.below.below), x);
    }
  }

  lemma PopFramed(env: Env, s: State, v: Value)
    requires Framed(env, s)
    ensures ResultFramed(env, PopFrame(s, v))
  {
    if s.below.Under? {
      var a := s.below.act;
      TempsFramed(env, a, a.(temps := a.temps + [v]), s.below.below);
    }
  }

  /** Operands do not matter for the shape of frames. */
  lemma TempsFramed(env: Env, a: Act, b: Act, below: Acts)
    requires BottomBare(a, below) && ActsFramed(env, a, below) && b.locals == a.locals && b.ctx == a.ctx
    ensures BottomBare(b, below) && ActsFramed(env, b, below)
  {
  }

  lemma PushFramed(env: Env, s: State, i: nat, slots: seq<Value>, ret: nat)
    requires Framed(env, s) && i < |env.fns|
    ensures Framed(env, PushFrame(env, s, i, slots, ret))
  {
  }

  lemma SuspendFramed(env: Env, s: State, next: nat)
    requires Framed(env, s) && s.below.Under?
    ensures Framed(env, Suspend(s, next))
  {
  }

  lemma GoFramed(env: Env, s: State, pc: nat, temps: seq<Value>)
    requires Framed(env, s)
    ensures Framed(env, Go(s, pc, temps))
  {
    TempsFramed(env, s.top, Go(s, pc, temps).top, s.below);
  }

  lemma InvokeFramed(env: Env, n: nat, next: nat, s: State)
    requires Framed(env, s)
    ensures ResultFramed(env, ExecInvoke(env, n, next, s))
  {
    hide Unwind, Framed, PushFrame;
    var t := s.top.temps;
    if t != [] {
      match Last(t)
      case Fn(f, captured) =>
        if |t| - 1 >= n && f < |env.fns| {
          var args, u := Take(Front(t), n), Go(s, s.pc, Drop(Front(t), n));
          GoFramed(env, s, s.pc, Drop(Front(t), n));
          match PrepareArgs(env, env.fns[f], args, s.heap)
          case None => UnwindFramed(env, u, InvalidParameters(env.fns[f].arity, |args|));
          case Some((fixed, Err(x, h))) =>
            HeapFramed(env, u, h);
            UnwindFramed(env, u.(heap := h), x);
          case Some((fixed, Ok(tuple, h))) =>
            HeapFramed(env, u, h);
            PushFramed(env, u.(heap := h), f, (if env.fns[f].isVariadic then fixed + [tuple] else fixed) + captured,
              next);
        }
      case Co(id) =>
        if n != 0 { UnwindFramed(env, s, InvalidParameters(0, n)); } else { ResumeFramed(env, s, id, next); }
      case _ => UnwindFramed(env, s, Str("Invalid argument"));
    }
  }

  lemma HeapFramed(env: Env, s: State, h: Heap)
    requires Framed(env, s)
    ensures Framed(env, s.(heap := h))
  {
  }

  lemma ResumeFramed(env: Env, s: State, id: nat, next: nat)
    requires Framed(env, s) && s.top.temps != [] && Last(s.top.temps) == Co(id)
    ensures ResultFramed(env, ExecInvoke(env, 0, next, s))
  {
    TempsFramed(env, s.top, s.top.(temps := Front(s.top.temps)), s.below);
  }

  lemma PairFramed(env: Env, co: Value, v: Value, s: State)
    requires Framed(env, s)
    ensures ResultFramed(env, ReturnPair(env, co, v, s))
  {
    hide Framed, PopFrame, Unwind;
    match Apply(env.ops, NewTuple(2), [co, v], s.heap)
    case Ok(pair, h) =>
      HeapFramed(env, s, h);
      PopFramed(env, s.(heap := h), pair);
    case Err(x, h) =>
      HeapFramed(env, s, h);
      UnwindFramed(env, s.(heap := h), x);
  }

  lemma PrimFramed(env: Env, p: PrimOp, next: nat, s: State)
    requires Framed(env, s)
    ensures ResultFramed(env, ExecPrim(env, p, next, s))
  {
    hide Unwind, Apply;
    if |s.top.temps| >= Pops(p) {
      var r := Apply(env.ops, p, Take(s.top.temps, Pops(p)), s.heap);
      if r.Err? { UnwindFramed(env, s.(heap := r.heap), r.exc); }
    }
  }

  /** The machine keeps its frames well formed. */
  lemma ExecKeepsFramed(env: Env, i: Op, next: nat, s: State)
    requires Framed(env, s)
    ensures ResultFramed(env, Exec(env, i, next, s))
  {
    hide Unwind, ExecPrim, ExecInvoke, ReturnPair, PopFrame, PushFrame, Suspend;
    var t := s.top.temps;
    match i
    case ForNext(l) =>
      if t != [] && env.ops.next(Last(t), s.heap).Err? {
        var r := env.ops.next(Last(t), s.heap);
        UnwindFramed(env, s.(heap := r.heap), r.exc);
      }
    case Call(f) =>
      if f < |env.fns| && |t| >= Arity(env.fns[f]) {
        var n := Arity(env.fns[f]);
        GoFramed(env, s, s.pc, Drop(t, n));
        PushFramed(env, Go(s, s.pc, Drop(t, n)), f, Take(t, n), next);
      }
    case Capture => UnwindFramed(env, s, Str("Invalid argument"));
    case Invoke(n) => InvokeFramed(env, n, next, s);
    case Return => if t != [] { PopFramed(env, s, Last(t)); }
    case ReturnNull => PopFramed(env, s, Null);
    case Throw => if t != [] { UnwindFramed(env, s, Last(t)); }
    case Yield =>
      if t != [] && s.below.Under? {
        var u := Go(s, s.pc, Front(t));
        GoFramed(env, s, s.pc, Front(t));
        SuspendFramed(env, u, next);
        PairFramed(env, Co(|s.cos|), Last(t), Suspend(u, next));
      }
    case CoReturn => if t != [] { PairFramed(env, Null, Last(t), s); }
    case CoDump => DumpFramed(env, next, s);
    case Unpack(n) =>
      UnwindFramed(env, s, Str("Not a tuple"));
      UnwindFramed(env, s, Str("Cannot unpack tuple"));
    case Prim(p) => PrimFramed(env, p, next, s);
    case _ =>
  }

  lemma DumpFramed(env: Env, next: nat, s: State)
    requires Framed(env, s)
    ensures ResultFramed(env, PopFrame(Suspend(s, next), Co(|s.cos|)))
  {
    if s.below.Under? {
      SuspendFramed(env, s, next);
      PopFramed(env, Suspend(s, next), Co(|s.cos|));
    }
  }
}
