/** Moving code: the machine does the same wherever its code is placed. */
module Relocation {
  import opened Values
  import opened Instructions
  import opened Machine
  import opened Labelled

  type Move = nat -> nat

  function MapHandler(h: Option<nat>, g: Move): Option<nat> {
    match h case None => None case Some(a) => Some(g(a))
  }

  function MapAct(a: Act, g: Move): Act { a.(ret := g(a.ret), handler := MapHandler(a.handler, g)) }

  function MapActs(rest: Acts, g: Move): Acts {
    match rest case Bottom => Bottom case Under(a, below) => Under(MapAct(a, g), MapActs(below, g))
  }

  function MapCo(c: CoData, g: Move): CoData { c.(resume := g(c.resume)) }

  function MapCos(cos: seq<CoData>, g: Move): seq<CoData> {
    seq(|cos|, i requires 0 <= i < |cos| => MapCo(cos[i], g))
  }

  function MapState(s: State, g: Move): State {
    State(g(s.pc), s.globals, MapAct(s.top, g), MapActs(s.below, g), s.heap, MapCos(s.cos, g))
  }

  function MapResult(r: Result, g: Move): Result {
    match r case Next(s) => Next(MapState(s, g)) case _ => r
  }

  function MapFns(fns: seq<Context>, g: Move): (r: seq<Context>)
    ensures |r| == |fns|
  {
    seq(|fns|, i requires 0 <= i < |fns| => fns[i].(address := g(fns[i].address)))
  }

  function MapEnv(env: Env, g: Move): Env { env.(fns := MapFns(env.fns, g)) }

  function MapOp(i: Op, g: Move): Op { MapInst(i, g, (f: nat) => f) }

  lemma {:induction false} UnwindMap(env: Env, s: State, x: Value, g: Move)
    ensures Unwind(MapEnv(env, g), MapState(s, g), x) == MapResult(Unwind(env, s, x), g)
    decreases s.below
  {
    if s.below.Under? && s.top.handler.None? {
      var t := s.(top := s.below.act, below := s.below.below);
      UnwindMap(env, t, x, g);
      var m := MapState(s, g);
      UnwindSameRun(MapEnv(env, g), m.(top := m.below.act, below := m.below.below), MapState(t, g), x);
    }
  }

  /** Unwinding does not look at the program counter. */
  lemma {:induction false} UnwindSameRun(env: Env, s: State, t: State, x: Value)
    requires s.(pc := t.pc) == t
    ensures Unwind(env, s, x) == Unwind(env, t, x)
    decreases s.below
  {
    if s.below.Under? && s.top.handler.None? {
      UnwindSameRun(env, s.(top := s.below.act, below := s.below.below),
        t.(top := t.below.act, below := t.below.below), x);
    }
  }

  lemma PushFrameMap(env: Env, s: State, f: nat, slots: seq<Value>, ret: nat, g: Move)
    requires f < |env.fns|
    ensures PushFrame(MapEnv(env, g), MapState(s, g), f, slots, g(ret)) == MapState(PushFrame(env, s, f, slots, ret), g)
  {
  }

  lemma InvokeFnMap(env: Env, f: nat, captured: seq<Value>, args: seq<Value>, next: nat, s: State, g: Move)
    ensures InvokeFn(MapEnv(env, g), f, captured, args, g(next), MapState(s, g)) ==
            MapResult(InvokeFn(env, f, captured, args, next, s), g)
  {
    if f < |env.fns| {
      var m := MapEnv(env, g);
      assert PrepareArgs(m, m.fns[f], args, s.heap) == PrepareArgs(env, env.fns[f], args, s.heap);
      match PrepareArgs(env, env.fns[f], args, s.heap)
      case None => UnwindMap(env, s, InvalidParameters(env.fns[f].arity, |args|), g);
      case Some((fixed, Err(x, h))) => UnwindMap(env, s.(heap := h), x, g);
      case Some((fixed, Ok(tuple, h))) =>
        PushFrameMap(env, s.(heap := h), f, (if env.fns[f].isVariadic then fixed + [tuple] else fixed) + captured,
          next, g);
    }
  }

  lemma ExecInvokeMap(env: Env, arity: nat, next: nat, s: State, g: Move)
    ensures ExecInvoke(MapEnv(env, g), arity, g(next), MapState(s, g)) == MapResult(ExecInvoke(env, arity, next, s), g)
  {
    hide Unwind, InvokeFn, PushFrame, MapFns;
    var t := s.top.temps;
    if t != [] {
      match Last(t)
      case Fn(f, captured) =>
        if |t| - 1 >= arity {
          InvokeFnMap(env, f, captured, Take(Front(t), arity), next, Go(s, s.pc, Drop(Front(t), arity)), g);
          assert Go(MapState(s, g), g(s.pc), Drop(Front(t), arity)) == MapState(Go(s, s.pc, Drop(Front(t), arity)), g);
        }
      case Co(id) =>
        if arity != 0 { UnwindMap(env, s, InvalidParameters(0, arity), g); }
      case _ => UnwindMap(env, s, Str("Invalid argument"), g);
    }
  }

  lemma ReturnPairMap(env: Env, co: Value, v: Value, s: State, g: Move)
    ensures ReturnPair(MapEnv(env, g), co, v, MapState(s, g)) == MapResult(ReturnPair(env, co, v, s), g)
  {
    match Apply(env.ops, NewTuple(2), [co, v], s.heap)
    case Ok(pair, h) =>
    case Err(x, h) => UnwindMap(env, s.(heap := h), x, g);
  }

  lemma SuspendMap(s: State, next: nat, g: Move)
    ensures Suspend(MapState(s, g), g(next)) == MapState(Suspend(s, next), g)
  {
    assert Suspend(MapState(s, g), g(next)).cos == MapState(Suspend(s, next), g).cos;
  }

  predicate OfControl(i: Op) {
    i.Mark? || i.Goto? || i.IfElse? || i.Try? || i.NewFx? || i.Return? || i.ReturnNull? || i.Exit?
  }

  lemma ExecControlMap(env: Env, i: Op, next: nat, s: State, g: Move)
    requires OfControl(i)
    ensures Exec(MapEnv(env, g), MapOp(i, g), g(next), MapState(s, g)) == MapResult(Exec(env, i, next, s), g)
  {
    hide Unwind, MapCos;
  }

  predicate OfMemory(i: Op) {
    i.Scrap? || i.Duplicate? || i.Swap? || i.LoadX? || i.StoreX? || i.LoadK? || i.StoreK? || i.GlobalRead?
        || i.GlobalWrite?
  }

  lemma ExecMemoryMap(env: Env, i: Op, next: nat, s: State, g: Move)
    requires OfMemory(i)
    ensures Exec(MapEnv(env, g), MapOp(i, g), g(next), MapState(s, g)) == MapResult(Exec(env, i, next, s), g)
  {
    hide Unwind, MapCos;
  }

  predicate OfFrames(i: Op) { i.Call? || i.Invoke? || i.Yield? || i.CoReturn? || i.CoDump? }

  lemma ExecFramesMap(env: Env, i: Op, next: nat, s: State, g: Move)
    requires OfFrames(i)
    ensures Exec(MapEnv(env, g), MapOp(i, g), g(next), MapState(s, g)) == MapResult(Exec(env, i, next, s), g)
  {
    hide Unwind, InvokeFn, ExecInvoke, ReturnPair, Suspend, Apply, MapCos;
    var t := s.top.temps;
    match i
    case Call(f) =>
      if f < |env.fns| && |t| >= Arity(env.fns[f]) {
        var n := Arity(env.fns[f]);
        PushFrameMap(env, Go(s, s.pc, Drop(t, n)), f, Take(t, n), next, g);
      }
    case Invoke(n) => ExecInvokeMap(env, n, next, s, g);
    case Yield =>
      if t != [] {
        SuspendMap(Go(s, s.pc, Front(t)), next, g);
        ReturnPairMap(env, Co(|s.cos|), Last(t), Suspend(Go(s, s.pc, Front(t)), next), g);
        MapCosLength(s.cos, g);
      }
    case CoReturn => if t != [] { ReturnPairMap(env, Null, Last(t), s, g); }
    case CoDump =>
      SuspendMap(s, next, g);
      MapCosLength(s.cos, g);
  }

  predicate MayRaise(i: Op) { i.ForNext? || i.Capture? || i.Throw? || i.Unpack? || i.Prim? }

  lemma ExecPrimMap(env: Env, p: PrimOp, next: nat, s: State, g: Move)
    ensures ExecPrim(MapEnv(env, g), p, g(next), MapState(s, g)) == MapResult(ExecPrim(env, p, next, s), g)
  {
    hide Unwind, Apply, MapCos;
    var t := s.top.temps;
    if |t| >= Pops(p) {
      var r := Apply(env.ops, p, Take(t, Pops(p)), s.heap);
      if r.Err? { UnwindMap(env, s.(heap := r.heap), r.exc, g); }
    }
  }

  lemma ExecUnpackMap(env: Env, n: nat, next: nat, s: State, g: Move)
    ensures ExecUnpack(MapEnv(env, g), n, g(next), MapState(s, g)) == MapResult(ExecUnpack(env, n, next, s), g)
  {
    hide Unwind, MapCos, Reverse;
    UnwindMap(env, s, Str("Not a tuple"), g);
    UnwindMap(env, s, Str("Cannot unpack tuple"), g);
  }

  lemma ExecForNextMap(env: Env, end: nat, next: nat, s: State, g: Move)
    ensures ExecForNext(MapEnv(env, g), g(end), g(next), MapState(s, g)) == MapResult(ExecForNext(env, end, next, s), g)
  {
    hide Unwind, MapCos;
    var t := s.top.temps;
    if t != [] && env.ops.next(Last(t), s.heap).Err? {
      var r := env.ops.next(Last(t), s.heap);
      UnwindMap(env, s.(heap := r.heap), r.exc, g);
    }
  }

  lemma ExecRaisingMap(env: Env, i: Op, next: nat, s: State, g: Move)
    requires MayRaise(i)
    ensures Exec(MapEnv(env, g), MapOp(i, g), g(next), MapState(s, g)) == MapResult(Exec(env, i, next, s), g)
  {
    hide Unwind, MapCos, ExecPrim, ExecUnpack, ExecForNext;
    var t := s.top.temps;
    match i
    case ForNext(l) => ExecForNextMap(env, l, next, s, g);
    case Capture => if |t| >= 2 { UnwindMap(env, s, Str("Invalid argument"), g); }
    case Throw => if t != [] { UnwindMap(env, s, Last(t), g); }
    case Unpack(n) => ExecUnpackMap(env, n, next, s, g);
    case Prim(p) => ExecPrimMap(env, p, next, s, g);
  }

  /** An instruction, moved, does to a moved state what it did before, moved. */
  lemma ExecMap(env: Env, i: Op, next: nat, s: State, g: Move)
    ensures Exec(MapEnv(env, g), MapOp(i, g), g(next), MapState(s, g)) == MapResult(Exec(env, i, next, s), g)
  {
    hide Exec, MapEnv, MapOp, MapState, MapResult;
    if OfControl(i) {
      ExecControlMap(env, i, next, s, g);
    } else if OfMemory(i) {
      ExecMemoryMap(env, i, next, s, g);
    } else if OfFrames(i) {
      ExecFramesMap(env, i, next, s, g);
    } else {
      ExecRaisingMap(env, i, next, s, g);
    }
  }

  lemma MapCosLength(cos: seq<CoData>, g: Move)
    ensures |MapCos(cos, g)| == |cos|
  {
  }

  /** Every code address in a state. */
  ghost predicate ActWithin(a: Act, A: iset<nat>) { a.ret in A && (a.handler.Some? ==> a.handler.value in A) }

  ghost predicate ActsWithin(rest: Acts, A: iset<nat>) {
    rest.Under? ==> ActWithin(rest.act, A) && ActsWithin(rest.below, A)
  }

  ghost predicate Within(s: State, A: iset<nat>) {
    && s.pc in A && ActWithin(s.top, A) && ActsWithin(s.below, A)
    && forall i :: 0 <= i < |s.cos| ==> s.cos[i].resume in A
  }

  ghost predicate FnsWithin(env: Env, A: iset<nat>) {
    forall f :: 0 <= f < |env.fns| ==> env.fns[f].address in A
  }

  ghost predicate TargetsWithin(i: Op, A: iset<nat>) {
    match i
    case Goto(l) => l in A
    case IfElse(l) => l in A
    case ForNext(l) => l in A
    case Try(l) => l in A
    case _ => true
  }

  ghost predicate ResultWithin(r: Result, A: iset<nat>) { r.Next? ==> Within(r.s, A) }

  lemma {:induction false} UnwindWithin(env: Env, s: State, x: Value, A: iset<nat>)
    requires Within(s, A)
    ensures ResultWithin(Unwind(env, s, x), A)
    decreases s.below
  {
    if s.below.Under? && s.top.handler.None? {
      UnwindWithin(env, s.(top := s.below.act, below := s.below.below), x, A);
    }
  }

  lemma InvokeFnWithin(env: Env, f: nat, captured: seq<Value>, args: seq<Value>, next: nat, s: State, A: iset<nat>)
    requires Within(s, A) && next in A && FnsWithin(env, A)
    ensures ResultWithin(InvokeFn(env, f, captured, args, next, s), A)
  {
    hide Unwind;
    if f < |env.fns| {
      match PrepareArgs(env, env.fns[f], args, s.heap)
      case None => UnwindWithin(env, s, InvalidParameters(env.fns[f].arity, |args|), A);
      case Some((fixed, Err(x, h))) => UnwindWithin(env, s.(heap := h), x, A);
      case Some((fixed, Ok(tuple, h))) =>
    }
  }

  lemma ExecInvokeWithin(env: Env, arity: nat, next: nat, s: State, A: iset<nat>)
    requires Within(s, A) && next in A && FnsWithin(env, A)
    ensures ResultWithin(ExecInvoke(env, arity, next, s), A)
  {
    hide Unwind, InvokeFn;
    var t := s.top.temps;
    if t != [] {
      match Last(t)
      case Fn(f, captured) =>
        if |t| - 1 >= arity {
          InvokeFnWithin(env, f, captured, Take(Front(t), arity), next, Go(s, s.pc, Drop(Front(t), arity)), A);
        }
      case Co(id) => if arity != 0 { UnwindWithin(env, s, InvalidParameters(0, arity), A); }
      case _ => UnwindWithin(env, s, Str("Invalid argument"), A);
    }
  }

  lemma ReturnPairWithin(env: Env, co: Value, v: Value, s: State, A: iset<nat>)
    requires Within(s, A)
    ensures ResultWithin(ReturnPair(env, co, v, s), A)
  {
    match Apply(env.ops, NewTuple(2), [co, v], s.heap)
    case Ok(pair, h) =>
    case Err(x, h) => UnwindWithin(env, s.(heap := h), x, A);
  }

  /** Addresses only come from the state, the instruction, the function pool and next. */
  lemma ExecWithin(env: Env, i: Op, next: nat, s: State, A: iset<nat>)
    requires Within(s, A) && next in A && FnsWithin(env, A) && TargetsWithin(i, A)
    ensures ResultWithin(Exec(env, i, next, s), A)
  {
    hide Unwind, InvokeFn, ExecInvoke, ReturnPair, Apply;
    var t := s.top.temps;
    match i
    case ForNext(l) =>
      if t != [] && env.ops.next(Last(t), s.heap).Err? {
        var r := env.ops.next(Last(t), s.heap);
        UnwindWithin(env, s.(heap := r.heap), r.exc, A);
      }
    case Capture => if |t| >= 2 { UnwindWithin(env, s, Str("Invalid argument"), A); }
    case Invoke(n) => ExecInvokeWithin(env, n, next, s, A);
    case Throw => if t != [] { UnwindWithin(env, s, Last(t), A); }
    case Yield =>
      if t != [] { ReturnPairWithin(env, Co(|s.cos|), Last(t), Suspend(Go(s, s.pc, Front(t)), next), A); }
    case CoReturn => if t != [] { ReturnPairWithin(env, Null, Last(t), s, A); }
    case Unpack(n) =>
      UnwindWithin(env, s, Str("Not a tuple"), A);
      UnwindWithin(env, s, Str("Cannot unpack tuple"), A);
    case Prim(p) =>
      if |t| >= Pops(p) {
        var r := Apply(env.ops, p, Take(t, Pops(p)), s.heap);
        if r.Err? { UnwindWithin(env, s.(heap := r.heap), r.exc, A); }
      }
    case _ =>
  }
}
