/** How a machine run matches an evaluation, and how such runs are chained. */
module Simulation {
  import opened Values
  import opened Instructions
  import opened Machine
  import opened BigStep
  import opened Compile
  import opened Labelled

  function WorldOf(s: State): World { World(s.globals, s.top.locals, s.heap) }

  /** s at pc with the variables of w and these operands; callers, handler and function stay. */
  function Put(s: State, w: World, pc: nat, temps: seq<Value>): State {
    s.(pc := pc, globals := w.globals, heap := w.heap, top := s.top.(locals := w.locals, temps := temps))
  }

  predicate SameFrame(s: State, t: State) {
    t == Put(s, WorldOf(t), t.pc, t.top.temps)
  }

  /** k steps lead from s to t. */
  ghost predicate Moves(c: Image, s: State, k: nat, t: State) {
    Run(Prog(c), s, k) == Next(t)
  }

  /** Where the machine is after code that evaluates to r. base are the operands below. */
  function After(c: Image, s: State, base: seq<Value>, r: Res, end: nat): Result
    requires !r.out.OutOfFuel? && !r.out.Outside?
  {
    match r.out
    case Done(vs) => Next(Put(s, r.w, end, base + vs))
    case Raised(x) => Unwind(c.u.env, Put(s, r.w, 0, []), x)
    case Returned(v) => PopFrame(Put(s, r.w, 0, []), v)
    case Left(l, v, pending) => Next(Put(s, r.w, Find(c.code, l), base + pending + [v]))
  }

  /** k machine steps from start do what evaluation says of code run in frame s; an
      evaluation that runs out of fuel corresponds to a machine that makes at least
      that many steps. */
  ghost predicate SimFrom(c: Image, start: State, s: State, base: seq<Value>, r: Res, end: nat, fuel: nat, k: nat) {
    match r.out
    case Outside => true
    case OutOfFuel => k >= fuel && Run(Prog(c), start, k).Next?
    case _ => Run(Prog(c), start, k) == After(c, s, base, r, end)
  }

  ghost predicate Sim(c: Image, s: State, base: seq<Value>, r: Res, end: nat, fuel: nat, k: nat) {
    SimFrom(c, s, s, base, r, end, fuel, k)
  }

  /** After a run from s0 to s, an operand: its one value on top of what was there,
      or an early stop of the whole. */
  ghost predicate OperandDone(
    c: Image, s0: State, s: State, base: seq<Value>, r: Res, here: nat, end: nat, fuel: nat, k: nat, t: State)
  {
    if r.out.Done? then
      && |r.out.vs| == 1 && t == Put(s, r.w, here, s.top.temps + r.out.vs)
      && Moves(c, s0, k, t) && SameFrame(s0, t)
    else !r.out.Left? && Sim(c, s0, base, r, end, fuel, k)
  }

  lemma Start(c: Image, s: State)
    ensures Moves(c, s, 0, s) && SameFrame(s, s)
  {
  }

  lemma Reached(c: Image, s: State, base: seq<Value>, r: Res, end: nat, fuel: nat, k: nat)
    requires Sim(c, s, base, r, end, fuel, k) && r.out.Done?
    ensures Moves(c, s, k, Put(s, r.w, end, base + r.out.vs))
  {
  }

  lemma Finish(c: Image, s: State, base: seq<Value>, r: Res, end: nat, fuel: nat, k: nat)
    requires r.out.Done? && Moves(c, s, k, Put(s, r.w, end, base + r.out.vs))
    ensures Sim(c, s, base, r, end, fuel, k)
  {
  }

  /** No code, no steps. */
  lemma Standstill(c: Image, s: State, base: seq<Value>, r: Res, fuel: nat)
    requires r.out.Done? && s == Put(s, r.w, s.pc, base + r.out.vs)
    ensures Sim(c, s, base, r, s.pc, fuel, 0)
  {
  }

  lemma Then(c: Image, s: State, k: nat, t: State, m: nat, t2: State)
    requires Moves(c, s, k, t) && Moves(c, t, m, t2)
    ensures Moves(c, s, k + m, t2)
  {
    RunAdd(Prog(c), s, k, m);
  }

  /** A run to t followed by a simulating run from t. */
  lemma Chain(c: Image, s: State, t: State, base: seq<Value>, r: Res, end: nat, fuel: nat, k: nat, m: nat)
    requires Moves(c, s, k, t) && SameFrame(s, t)
    requires Sim(c, t, base, r, end, fuel, m)
    ensures Sim(c, s, base, r, end, fuel, k + m)
  {
    RunAdd(Prog(c), s, k, m);
  }

  /** The same into a callee, whose run is described in terms of the caller t. */
  lemma Enter(c: Image, s: State, start: State, t: State, base: seq<Value>, r: Res, end: nat, fuel: nat, k: nat, m: nat)
    requires Moves(c, s, k, start) && SameFrame(s, t)
    requires SimFrom(c, start, t, base, r, end, fuel, m)
    ensures Sim(c, s, base, r, end, fuel, k + m)
  {
    RunAdd(Prog(c), s, k, m);
  }

  /** An early stop does not depend on the operands or on where the code ends. */
  lemma Leave(c: Image, s: State, b: seq<Value>, base: seq<Value>, r: Res, e: nat, end: nat, fuel: nat, k: nat)
    requires !r.out.Done? && (r.out.Left? ==> b == base)
    requires Sim(c, s, b, r, e, fuel, k)
    ensures Sim(c, s, base, r, end, fuel, k)
  {
  }

  /** An early stop after a run to t. */
  lemma Abort(
    c: Image, s: State, t: State, b: seq<Value>, base: seq<Value>, r: Res, e: nat, end: nat, fuel: nat, k: nat, m: nat)
    requires Moves(c, s, k, t) && SameFrame(s, t)
    requires !r.out.Done? && (r.out.Left? ==> b == base)
    requires Sim(c, t, b, r, e, fuel, m)
    ensures Sim(c, s, base, r, end, fuel, k + m)
  {
    Chain(c, s, t, b, r, e, fuel, k, m);
  }

  /** A part that ran on one less fuel, after at least one step. */
  lemma MoreFuel(c: Image, s: State, base: seq<Value>, r: Res, end: nat, fuel: nat, m: nat, k: nat)
    requires Sim(c, s, base, r, end, fuel, k) && (r.out.OutOfFuel? ==> fuel <= m < k)
    ensures Sim(c, s, base, r, end, fuel + 1, k)
  {
  }

  /** Steps from the end of a part to the end of the whole. */
  lemma Extend(
    c: Image, s: State, base: seq<Value>, r: Res, e: nat, end: nat, fuel: nat, k: nat, m: nat) returns (n: nat)
    requires Sim(c, s, base, r, e, fuel, k)
    requires r.out.Done? ==> Moves(c, Put(s, r.w, e, base + r.out.vs), m, Put(s, r.w, end, base + r.out.vs))
    ensures Sim(c, s, base, r, end, fuel, n)
  {
    n := if r.out.Done? then k + m else k;
    RunAdd(Prog(c), s, k, m);
  }

  /** A part run after reaching t, and the steps from its end to the end of the whole. */
  lemma Join(
    c: Image, s: State, k: nat, t: State, base: seq<Value>, r: Res, e: nat, end: nat, fuel: nat, m: nat, j: nat)
    returns (n: nat)
    requires Moves(c, s, k, t) && SameFrame(s, t)
    requires Sim(c, t, base, r, e, fuel, m)
    requires r.out.Done? ==> Moves(c, Put(t, r.w, e, base + r.out.vs), j, Put(t, r.w, end, base + r.out.vs))
    ensures Sim(c, s, base, r, end, fuel, n)
  {
    n := Extend(c, t, base, r, e, end, fuel, m, j);
    Chain(c, s, t, base, r, end, fuel, k, n);
    n := k + n;
  }

  lemma {:induction false} UnwindSame(env: Env, s: State, t: State, x: Value)
    requires s.globals == t.globals && s.heap == t.heap && s.cos == t.cos && s.below == t.below
    requires s.top.handler == t.top.handler && s.top.ret == t.top.ret && s.top.ctx == t.top.ctx
    ensures Unwind(env, s, x) == Unwind(env, t, x)
    decreases s.below
  {
    if s.below.Under? && s.top.handler.None? {
      UnwindSame(env, s.(top := s.below.act, below := s.below.below), t.(top := t.below.act, below := t.below.below),
        x);
    }
  }

  lemma OneStep(c: Image, s: State)
    ensures Run(Prog(c), s, 1) == Step(Prog(c), s)
  {
    if Step(Prog(c), s).Next? {
      assert Run(Prog(c), Step(Prog(c), s).s, 0) == Next(Step(Prog(c), s).s);
    }
  }

  /** The instruction at position j of a fragment is executed next. */
  ghost predicate Fetched(c: Image, pc: nat, frag: seq<Asm>, j: nat, s: State) {
    CodeAt(c.code, pc, frag) && j < |frag| && s.pc == pc + j
  }

  lemma StepAt(c: Image, pc: nat, frag: seq<Asm>, j: nat, s: State)
    requires Fetched(c, pc, frag, j, s)
    ensures Run(Prog(c), s, 1) == Exec(c.u.env, ResolveInst(c.code, c.u.env.fns, frag[j]), s.pc + 1, s)
  {
    hide Exec, ResolveInst, Run;
    OneStep(c, s);
  }

  /** A primitive applied to the operands above base. */
  lemma PrimStep(c: Image, pc: nat, frag: seq<Asm>, j: nat, s: State, base: seq<Value>, args: seq<Value>, fuel: nat)
    requires Fetched(c, pc, frag, j, s) && frag[j].Prim? && s.top.temps == base + args
    ensures Sim(c, s, base, PrimOut(c.u, frag[j].p, args, WorldOf(s)), s.pc + 1, fuel, 1)
  {
    if |args| == Pops(frag[j].p) {
      StepAt(c, pc, frag, j, s);
      assert Take(base + args, |args|) == args;
      assert Drop(base + args, |args|) == base;
      match Apply(c.u.env.ops, frag[j].p, args, s.heap) {
        case Ok(v, h) =>
        case Err(x, h) =>
          UnwindSame(c.u.env, s.(heap := h), Put(s, WorldOf(s).(heap := h), 0, []), x);
      }
    }
  }

  /** A primitive known to succeed with value v. */
  lemma KnownStep(c: Image, pc: nat, frag: seq<Asm>, j: nat, s: State, base: seq<Value>, args: seq<Value>, v: Value)
    requires Fetched(c, pc, frag, j, s)
    requires frag[j].Prim? && |args| == Pops(frag[j].p) && s.top.temps == base + args && Pushes(frag[j].p)
    requires Known(frag[j].p, args, s.heap) == Some(Ok(v, s.heap))
    ensures Moves(c, s, 1, Go(s, s.pc + 1, base + [v]))
  {
    PrimStep(c, pc, frag, j, s, base, args, 0);
  }

  lemma MarkStep(c: Image, pc: nat, frag: seq<Asm>, j: nat, s: State)
    requires Fetched(c, pc, frag, j, s) && frag[j].Mark?
    ensures Moves(c, s, 1, s.(pc := s.pc + 1))
  {
    StepAt(c, pc, frag, j, s);
  }

  /** A jump to the label at position j2 of another fragment. */
  lemma GotoStep(c: Image, pc: nat, frag: seq<Asm>, j: nat, s: State, pc2: nat, frag2: seq<Asm>, j2: nat)
    requires Fetched(c, pc, frag, j, s) && frag[j].Goto?
    requires UniqueMarks(c.code) && CodeAt(c.code, pc2, frag2) && j2 < |frag2| && frag2[j2] == Mark(frag[j].l)
    ensures Moves(c, s, 1, s.(pc := pc2 + j2))
  {
    StepAt(c, pc, frag, j, s);
    FindAt(c, pc2, frag2, j2);
  }

  /** A conditional jump: on if the value above base is true, else to the label at position j2 of another fragment. */
  lemma BranchStep(
    c: Image, pc: nat, frag: seq<Asm>, j: nat, s: State, base: seq<Value>, v: Value, pc2: nat, frag2: seq<Asm>,
    j2: nat)
    requires Fetched(c, pc, frag, j, s) && frag[j].IfElse? && s.top.temps == base + [v]
    requires UniqueMarks(c.code) && CodeAt(c.code, pc2, frag2) && j2 < |frag2| && frag2[j2] == Mark(frag[j].l)
    ensures Moves(c, s, 1, Go(s, if Truthy(v) then s.pc + 1 else pc2 + j2, base))
  {
    StepAt(c, pc, frag, j, s);
    FindAt(c, pc2, frag2, j2);
    assert Front(base + [v]) == base;
  }

  lemma ScrapStep(c: Image, pc: nat, frag: seq<Asm>, j: nat, s: State, base: seq<Value>, v: Value)
    requires Fetched(c, pc, frag, j, s) && frag[j].Scrap? && s.top.temps == base + [v]
    ensures Moves(c, s, 1, Go(s, s.pc + 1, base))
  {
    StepAt(c, pc, frag, j, s);
    assert Front(base + [v]) == base;
  }

  lemma DuplicateStep(c: Image, pc: nat, frag: seq<Asm>, j: nat, s: State, base: seq<Value>, v: Value)
    requires Fetched(c, pc, frag, j, s) && frag[j].Duplicate? && s.top.temps == base + [v]
    ensures Moves(c, s, 1, Go(s, s.pc + 1, base + [v, v]))
  {
    StepAt(c, pc, frag, j, s);
    assert base + [v] + [v] == base + [v, v];
  }

  lemma SwapStep(c: Image, pc: nat, frag: seq<Asm>, j: nat, s: State, base: seq<Value>, x: Value, y: Value)
    requires Fetched(c, pc, frag, j, s) && frag[j].Swap? && s.top.temps == base + [x, y]
    ensures Moves(c, s, 1, Go(s, s.pc + 1, base + [y, x]))
  {
    StepAt(c, pc, frag, j, s);
    assert Drop(base + [x, y], 2) == base;
  }

  lemma PushNull(c: Image, pc: nat, frag: seq<Asm>, j: nat, s: State)
    requires Fetched(c, pc, frag, j, s) && frag[j] == Simply(Nvll)
    ensures Moves(c, s, 1, Go(s, s.pc + 1, s.top.temps + [Null]))
  {
    KnownStep(c, pc, frag, j, s, s.top.temps, [], Null);
  }

  lemma PushBool(c: Image, pc: nat, frag: seq<Asm>, j: nat, s: State, b: bool)
    requires Fetched(c, pc, frag, j, s) && frag[j] == Simply(if b then True else False)
    ensures Moves(c, s, 1, Go(s, s.pc + 1, s.top.temps + [Bool(b)]))
  {
    KnownStep(c, pc, frag, j, s, s.top.temps, [], Bool(b));
  }

  lemma NotNullStep(c: Image, pc: nat, frag: seq<Asm>, j: nat, s: State, base: seq<Value>, v: Value)
    requires Fetched(c, pc, frag, j, s) && frag[j] == Simply(Ueql) && s.top.temps == base + [v, Null]
    ensures Moves(c, s, 1, Go(s, s.pc + 1, base + [Bool(v != Null)]))
  {
    KnownStep(c, pc, frag, j, s, base, [v, Null], Bool(v != Null));
  }

  lemma NotStep(c: Image, pc: nat, frag: seq<Asm>, j: nat, s: State, base: seq<Value>, v: Value)
    requires Fetched(c, pc, frag, j, s) && frag[j] == Simply(Not) && s.top.temps == base + [v]
    ensures Moves(c, s, 1, Go(s, s.pc + 1, base + [Bool(!Truthy(v))]))
  {
    KnownStep(c, pc, frag, j, s, base, [v], Bool(!Truthy(v)));
  }

  lemma CastStep(c: Image, pc: nat, frag: seq<Asm>, j: nat, s: State, base: seq<Value>, v: Value)
    requires Fetched(c, pc, frag, j, s) && frag[j] == Simply(CastBool) && s.top.temps == base + [v]
    ensures Moves(c, s, 1, Go(s, s.pc + 1, base + [Bool(Truthy(v))]))
  {
    KnownStep(c, pc, frag, j, s, base, [v], Bool(Truthy(v)));
  }

  lemma LoadStep(c: Image, pc: nat, frag: seq<Asm>, j: nat, s: State)
    requires Fetched(c, pc, frag, j, s) && frag[j].LoadX? && frag[j].addr < |s.top.locals|
    ensures Moves(c, s, 1, Go(s, s.pc + 1, s.top.temps + [s.top.locals[frag[j].addr]]))
  {
    StepAt(c, pc, frag, j, s);
  }

  lemma GlobalReadStep(c: Image, pc: nat, frag: seq<Asm>, j: nat, s: State)
    requires Fetched(c, pc, frag, j, s) && frag[j].GlobalRead? && frag[j].id < |s.globals|
    ensures Moves(c, s, 1, Go(s, s.pc + 1, s.top.temps + [s.globals[frag[j].id]]))
  {
    StepAt(c, pc, frag, j, s);
  }

  lemma StoreStep(c: Image, pc: nat, frag: seq<Asm>, j: nat, s: State, base: seq<Value>, v: Value)
    requires Fetched(c, pc, frag, j, s) && s.top.temps == base + [v]
    requires frag[j].StoreX? && frag[j].addr < |s.top.locals|
    ensures Moves(c, s, 1, Put(s, WorldOf(s).(locals := s.top.locals[frag[j].addr := v]), s.pc + 1, base))
  {
    StepAt(c, pc, frag, j, s);
    assert Front(base + [v]) == base;
  }

  lemma GlobalWriteStep(c: Image, pc: nat, frag: seq<Asm>, j: nat, s: State, base: seq<Value>, v: Value)
    requires Fetched(c, pc, frag, j, s) && s.top.temps == base + [v]
    requires frag[j].GlobalWrite? && frag[j].id < |s.globals|
    ensures Moves(c, s, 1, Put(s, WorldOf(s).(globals := s.globals[frag[j].id := v]), s.pc + 1, base))
  {
    StepAt(c, pc, frag, j, s);
    assert Front(base + [v]) == base;
  }

  lemma ReturnStep(c: Image, pc: nat, frag: seq<Asm>, j: nat, s: State, base: seq<Value>, v: Value)
    requires Fetched(c, pc, frag, j, s) && frag[j].Return? && s.top.temps == base + [v]
    ensures Run(Prog(c), s, 1) == PopFrame(s, v)
  {
    StepAt(c, pc, frag, j, s);
  }

  lemma ThrowStep(c: Image, pc: nat, frag: seq<Asm>, j: nat, s: State, base: seq<Value>, v: Value)
    requires Fetched(c, pc, frag, j, s) && frag[j].Throw? && s.top.temps == base + [v]
    ensures Run(Prog(c), s, 1) == Unwind(c.u.env, s, v)
  {
    StepAt(c, pc, frag, j, s);
  }

  lemma TryStep(c: Image, pc: nat, frag: seq<Asm>, j: nat, s: State, pc2: nat, frag2: seq<Asm>, j2: nat)
    requires Fetched(c, pc, frag, j, s) && frag[j].Try? && s.below.Under?
    requires UniqueMarks(c.code) && CodeAt(c.code, pc2, frag2) && j2 < |frag2| && frag2[j2] == Mark(frag[j].l)
    ensures Moves(c, s, 1, s.(pc := s.pc + 1, top := s.top.(handler := Some(pc2 + j2))))
  {
    StepAt(c, pc, frag, j, s);
    FindAt(c, pc2, frag2, j2);
  }

  lemma CallStep(c: Image, pc: nat, frag: seq<Asm>, j: nat, s: State, base: seq<Value>, args: seq<Value>, f: nat)
    requires Fetched(c, pc, frag, j, s) && frag[j].Call? && s.top.temps == base + args
    requires FindFn(c.u.env.fns, frag[j].f) == Some(f) && f < |c.u.env.fns| && |args| == Arity(c.u.env.fns[f])
    ensures Moves(c, s, 1, PushFrame(c.u.env, Go(s, s.pc, base), f, args, s.pc + 1))
  {
    StepAt(c, pc, frag, j, s);
    assert Take(base + args, |args|) == args;
    assert Drop(base + args, |args|) == base;
  }

  lemma NewFxStep(c: Image, pc: nat, frag: seq<Asm>, j: nat, s: State, f: nat)
    requires Fetched(c, pc, frag, j, s) && frag[j].NewFx?
    requires FindFn(c.u.env.fns, frag[j].f) == Some(f) && f < |c.u.env.fns|
    ensures Moves(c, s, 1, Go(s, s.pc + 1, s.top.temps + [Fn(f, [])]))
  {
    StepAt(c, pc, frag, j, s);
  }

  lemma CaptureStep(
    c: Image, pc: nat, frag: seq<Asm>, j: nat, s: State, base: seq<Value>, f: nat, got: seq<Value>, v: Value)
    requires Fetched(c, pc, frag, j, s) && frag[j].Capture? && s.top.temps == base + [Fn(f, got), v]
    ensures Moves(c, s, 1, Go(s, s.pc + 1, base + [Fn(f, got + [v])]))
  {
    StepAt(c, pc, frag, j, s);
    assert Drop(base + [Fn(f, got), v], 2) == base;
  }

  /** An invocation enters the function the value resolves to, or raises. */
  lemma InvokeStep(c: Image, pc: nat, frag: seq<Asm>, j: nat, s: State, base: seq<Value>, args: seq<Value>, fv: Value)
    requires Fetched(c, pc, frag, j, s) && frag[j] == Invoke(|args|) && s.top.temps == base + args + [fv]
    ensures match Resolve(c.u, fv, args, WorldOf(s))
      case Target(f, slots, h) => Moves(c, s, 1, PushFrame(c.u.env, Go(s, s.pc, base).(heap := h), f, slots, s.pc + 1))
      case NoTarget(Raised(x), h) => Run(Prog(c), s, 1) == Unwind(c.u.env, Put(s, WorldOf(s).(heap := h), 0, []), x)
      case _ => true
  {
    StepAt(c, pc, frag, j, s);
    var t := s.top.temps;
    assert Front(t) == base + args;
    assert Take(base + args, |args|) == args;
    assert Drop(base + args, |args|) == base;
    forall q: State, x | SameFrame(s, q) && q.globals == s.globals && q.top.locals == s.top.locals
      ensures Unwind(c.u.env, q, x) == Unwind(c.u.env, Put(s, WorldOf(s).(heap := q.heap), 0, []), x)
    {
      UnwindSame(c.u.env, q, Put(s, WorldOf(s).(heap := q.heap), 0, []), x);
    }
  }

  lemma ForNextStep(
    c: Image, pc: nat, frag: seq<Asm>, j: nat, s: State, base: seq<Value>, it: Value, pc2: nat, frag2: seq<Asm>,
    j2: nat)
    requires Fetched(c, pc, frag, j, s) && frag[j].ForNext? && s.top.temps == base + [it]
    requires UniqueMarks(c.code) && CodeAt(c.code, pc2, frag2) && j2 < |frag2| && frag2[j2] == Mark(frag[j].l)
    ensures match c.u.env.ops.next(it, s.heap)
      case Ok(v, h) =>
        Moves(c, s, 1, Put(s, WorldOf(s).(heap := h), if v.Stop? then pc2 + j2 else s.pc + 1, base + [it, v]))
      case Err(x, h) => Run(Prog(c), s, 1) == Unwind(c.u.env, Put(s, WorldOf(s).(heap := h), 0, []), x)
  {
    StepAt(c, pc, frag, j, s);
    FindAt(c, pc2, frag2, j2);
    match c.u.env.ops.next(it, s.heap) {
      case Ok(v, h) => assert base + [it] + [v] == base + [it, v];
      case Err(x, h) => UnwindSame(c.u.env, s.(heap := h), Put(s, WorldOf(s).(heap := h), 0, []), x);
    }
  }

  lemma UnpackStep(c: Image, pc: nat, frag: seq<Asm>, j: nat, s: State, base: seq<Value>, v: Value)
    requires Fetched(c, pc, frag, j, s) && frag[j].Unpack? && s.top.temps == base + [v]
    ensures match c.u.env.ops.elements(v, s.heap)
      case None => Run(Prog(c), s, 1) == Unwind(c.u.env, Put(s, WorldOf(s), 0, []), Str("Not a tuple"))
      case Some(vs) =>
        if |vs| < frag[j].size then
          Run(Prog(c), s, 1) == Unwind(c.u.env, Put(s, WorldOf(s), 0, []), Str("Cannot unpack tuple"))
        else Moves(c, s, 1, Go(s, s.pc + 1, base + Reverse(vs[..frag[j].size])))
  {
    StepAt(c, pc, frag, j, s);
    assert Front(base + [v]) == base;
    UnwindSame(c.u.env, s, Put(s, WorldOf(s), 0, []), Str("Not a tuple"));
    UnwindSame(c.u.env, s, Put(s, WorldOf(s), 0, []), Str("Cannot unpack tuple"));
  }
}
