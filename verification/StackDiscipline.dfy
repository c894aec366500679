/** Runs keep to the heights: before every instruction the current call has exactly the
    operands the pass has found, so nothing is taken from below them. */
module StackDiscipline {
  import opened Values
  import opened Instructions
  import opened Machine
  import opened Labelled
  import opened Sst
  import opened BigStep
  import opened WellFormed
  import opened Programs
  import opened ClosedCode
  import opened Heights
  import opened ProgramHeights
  import Compile
  import Correctness

  type HeightsOf = seq<Option<nat>>

  predicate At(hs: HeightsOf, pc: nat, h: nat) { pc < |hs| && hs[pc] == Some(h) }

  /** From height h this instruction goes on to instructions of the right heights. */
  predicate Sound(fns: seq<Context>, code: seq<Asm>, hs: HeightsOf, pc: nat, h: nat)
    requires pc < |code|
  {
    var i := code[pc];
    if i.Mark? then At(hs, pc + 1, h)
    else if i.Goto? then At(hs, Find(code, i.l), h)
    else if i.IfElse? then h > 0 && At(hs, pc + 1, h - 1) && At(hs, Find(code, i.l), h - 1)
    else if i.ForNext? then h > 0 && At(hs, pc + 1, h + 1) && At(hs, Find(code, i.l), h + 1)
    else if i.Try? then At(hs, pc + 1, h) && At(hs, Find(code, i.l), 0)
    else if Heights.Ends(i) then h > 0 || i.ReturnNull?
    else
      && Moves(fns, i).Some? && h >= Moves(fns, i).value.0
      && At(hs, pc + 1, h - Moves(fns, i).value.0 + Moves(fns, i).value.1)
  }

  /** Heights for all of the code; calls start functions with no operands. */
  ghost predicate Verified(c: Image, hs: HeightsOf) {
    && |hs| == |c.code|
    && (forall pc :: 0 <= pc < |c.code| && hs[pc].Some? ==> Sound(c.u.env.fns, c.code, hs, pc, hs[pc].value))
    && (forall f :: 0 <= f < |c.u.env.fns| ==> At(hs, c.u.env.fns[f].address, 0))
  }

  /** The callers have one operand less than where the calls return to expects. */
  ghost predicate Stacked(hs: HeightsOf, top: Act, below: Acts)
    decreases below
  {
    && (top.handler.Some? ==> At(hs, top.handler.value, 0))
    && (below.Under? ==> At(hs, top.ret, |below.act.temps| + 1) && Stacked(hs, below.act, below.below))
  }

  ghost predicate InStep(hs: HeightsOf, s: State) {
    && At(hs, s.pc, |s.top.temps|) && Stacked(hs, s.top, s.below)
    && forall i :: 0 <= i < |s.cos| ==> At(hs, s.cos[i].resume, |s.cos[i].temps|)
  }

  ghost predicate Kept(hs: HeightsOf, r: Result) {
    match r
    case Next(s) => InStep(hs, s)
    case Wrong(why) => why != Underflow && why != BadAddress
    case _ => true
  }

  lemma {:induction false} UnwindKept(c: Image, hs: HeightsOf, s: State, x: Value)
    requires Stacked(hs, s.top, s.below) && forall i :: 0 <= i < |s.cos| ==> At(hs, s.cos[i].resume, |s.cos[i].temps|)
    ensures Kept(hs, Unwind(c.u.env, s, x))
    decreases s.below
  {
    if s.below.Under? && s.top.handler.None? {
      UnwindKept(c, hs, s.(top := s.below.act, below := s.below.below), x);
    }
  }

  lemma PopKept(hs: HeightsOf, s: State, v: Value)
    requires Stacked(hs, s.top, s.below) && forall i :: 0 <= i < |s.cos| ==> At(hs, s.cos[i].resume, |s.cos[i].temps|)
    ensures Kept(hs, PopFrame(s, v))
  {
  }

  /** A call that has taken k operands and returns to next. */
  lemma PushKept(c: Image, hs: HeightsOf, s: State, k: nat, f: nat, slots: seq<Value>, next: nat)
    requires Verified(c, hs) && Stacked(hs, s.top, s.below) && f < |c.u.env.fns| && k <= |s.top.temps|
    requires forall i :: 0 <= i < |s.cos| ==> At(hs, s.cos[i].resume, |s.cos[i].temps|)
    requires At(hs, next, |s.top.temps| - k + 1)
    ensures InStep(hs, PushFrame(c.u.env, Go(s, s.pc, Drop(s.top.temps, k)), f, slots, next))
  {
  }

  lemma PrimKept(c: Image, hs: HeightsOf, p: PrimOp, next: nat, s: State)
    requires InStep(hs, s) && |s.top.temps| >= Pops(p)
    requires At(hs, next, |s.top.temps| - Pops(p) + if Pushes(p) then 1 else 0)
    ensures Kept(hs, ExecPrim(c.u.env, p, next, s))
  {
    hide Apply, Pops, Pushes;
    var t := s.top.temps;
    match Apply(c.u.env.ops, p, Take(t, Pops(p)), s.heap)
    case Err(x, h) => UnwindKept(c, hs, s.(heap := h), x);
    case Ok(v, h) =>
  }

  lemma CallKept(c: Image, hs: HeightsOf, f: nat, next: nat, s: State)
    requires Verified(c, hs) && InStep(hs, s) && f < |c.u.env.fns| && |s.top.temps| >= Arity(c.u.env.fns[f])
    requires At(hs, next, |s.top.temps| - Arity(c.u.env.fns[f]) + 1)
    ensures Kept(hs, ExecCall(c.u.env, f, next, s))
  {
    var n := Arity(c.u.env.fns[f]);
    PushKept(c, hs, s, n, f, Take(s.top.temps, n), next);
  }

  lemma InvokeFnKept(
    c: Image, hs: HeightsOf, f: nat, captured: seq<Value>, args: seq<Value>, next: nat, s: State)
    requires Verified(c, hs) && Stacked(hs, s.top, s.below) && At(hs, next, |s.top.temps| + 1)
    requires forall i :: 0 <= i < |s.cos| ==> At(hs, s.cos[i].resume, |s.cos[i].temps|)
    ensures Kept(hs, InvokeFn(c.u.env, f, captured, args, next, s))
  {
    hide Verified, PrepareArgs, Unwind;
    var env := c.u.env;
    if f >= |env.fns| { return; }
    match PrepareArgs(env, env.fns[f], args, s.heap)
    case None => UnwindKept(c, hs, s, InvalidParameters(env.fns[f].arity, |args|));
    case Some((fixed, Err(x, h))) => UnwindKept(c, hs, s.(heap := h), x);
    case Some((fixed, Ok(tuple, h))) =>
      var slots := (if env.fns[f].isVariadic then fixed + [tuple] else fixed) + captured;
      var t := s.(heap := h);
      PushKept(c, hs, t, 0, f, slots, next);
      assert Go(t, t.pc, Drop(t.top.temps, 0)) == t;
  }

  lemma InvokeKept(c: Image, hs: HeightsOf, n: nat, next: nat, s: State)
    requires Verified(c, hs) && InStep(hs, s) && |s.top.temps| >= n + 1 && At(hs, next, |s.top.temps| - n)
    ensures Kept(hs, ExecInvoke(c.u.env, n, next, s))
  {
    hide Verified, InvokeFn, Unwind;
    var t := s.top.temps;
    match Last(t)
    case Fn(f, captured) =>
      InvokeFnKept(c, hs, f, captured, Take(Front(t), n), next, Go(s, s.pc, Drop(Front(t), n)));
    case Co(id) =>
      if n != 0 {
        UnwindKept(c, hs, s, InvalidParameters(0, n));
      } else {
        assert Stacked(hs, s.top.(temps := Front(t)), s.below);
      }
    case _ => UnwindKept(c, hs, s, Str("Invalid argument"));
  }

  lemma PairKept(c: Image, hs: HeightsOf, co: Value, v: Value, s: State)
    requires Stacked(hs, s.top, s.below) && forall i :: 0 <= i < |s.cos| ==> At(hs, s.cos[i].resume, |s.cos[i].temps|)
    ensures Kept(hs, ReturnPair(c.u.env, co, v, s))
  {
    hide Apply, Unwind, PopFrame;
    match Apply(c.u.env.ops, NewTuple(2), [co, v], s.heap)
    case Ok(pair, h) => PopKept(hs, s.(heap := h), pair);
    case Err(x, h) => UnwindKept(c, hs, s.(heap := h), x);
  }

  lemma SuspendKept(hs: HeightsOf, s: State, next: nat)
    requires forall i :: 0 <= i < |s.cos| ==> At(hs, s.cos[i].resume, |s.cos[i].temps|)
    requires At(hs, next, |s.top.temps|)
    ensures var t := Suspend(s, next);
      t.top == s.top && t.below == s.below && forall i :: 0 <= i < |t.cos| ==> At(hs, t.cos[i].resume, |t.cos[i].temps|)
  {
  }

  lemma LeaveKept(c: Image, hs: HeightsOf, i: Op, next: nat, s: State)
    requires InStep(hs, s) && (i.Return? || i.ReturnNull? || i.Throw? || i.CoReturn?)
    requires |s.top.temps| > 0 || i.ReturnNull?
    ensures Kept(hs, Exec(c.u.env, i, next, s))
  {
    hide Unwind, PopFrame, ReturnPair;
    if i.ReturnNull? {
      PopKept(hs, s, Null);
    } else if i.Return? {
      PopKept(hs, s, Last(s.top.temps));
    } else if i.Throw? {
      UnwindKept(c, hs, s, Last(s.top.temps));
    } else {
      PairKept(c, hs, Null, Last(s.top.temps), s);
    }
  }

  lemma YieldKept(c: Image, hs: HeightsOf, next: nat, s: State)
    requires InStep(hs, s) && |s.top.temps| > 0 && At(hs, next, |s.top.temps| - 1)
    ensures Kept(hs, Exec(c.u.env, Yield, next, s))
  {
    hide ReturnPair;
    var t := Go(s, s.pc, Front(s.top.temps));
    SuspendKept(hs, t, next);
    PairKept(c, hs, Co(|s.cos|), Last(s.top.temps), Suspend(t, next));
  }

  lemma DumpKept(c: Image, hs: HeightsOf, next: nat, s: State)
    requires InStep(hs, s) && At(hs, next, |s.top.temps|)
    ensures Kept(hs, Exec(c.u.env, CoDump, next, s))
  {
    hide PopFrame;
    SuspendKept(hs, s, next);
    PopKept(hs, Suspend(s, next), Co(|s.cos|));
  }

  /** Instructions that raise an exception or move operands of the current call. */
  lemma MoveKept(c: Image, hs: HeightsOf, i: Asm, next: nat, s: State)
    requires InStep(hs, s) && Moves(c.u.env.fns, i).Some? && |s.top.temps| >= Moves(c.u.env.fns, i).value.0
    requires At(hs, next, |s.top.temps| - Moves(c.u.env.fns, i).value.0 + Moves(c.u.env.fns, i).value.1)
    requires !i.Call? && !i.Invoke? && !i.Yield? && !i.CoDump? && !i.Prim?
    ensures Kept(hs, Exec(c.u.env, ResolveInst(c.code, c.u.env.fns, i), next, s))
  {
    hide Unwind;
    forall x ensures Kept(hs, Unwind(c.u.env, s, x)) { UnwindKept(c, hs, s, x); }
  }

  /** An instruction where it stands in the code, in step. */
  ghost predicate Here(c: Image, hs: HeightsOf, s: State) {
    && Verified(c, hs) && InStep(hs, s) && s.pc < |c.code|
    && Sound(c.u.env.fns, c.code, hs, s.pc, |s.top.temps|)
  }

  function Executed(c: Image, s: State): Result
    requires s.pc < |c.code|
  {
    Exec(c.u.env, ResolveInst(c.code, c.u.env.fns, c.code[s.pc]), s.pc + 1, s)
  }

  lemma JumpStep(c: Image, hs: HeightsOf, s: State)
    requires Here(c, hs, s)
    requires var i := c.code[s.pc]; i.Mark? || i.Goto? || i.IfElse? || i.ForNext? || i.Try?
    ensures Kept(hs, Executed(c, s))
  {
    hide Unwind, Verified;
    forall x, h ensures Kept(hs, Unwind(c.u.env, s.(heap := h), x)) { UnwindKept(c, hs, s.(heap := h), x); }
  }

  lemma LeaveStep(c: Image, hs: HeightsOf, s: State)
    requires Here(c, hs, s) && Heights.Ends(c.code[s.pc])
    ensures Kept(hs, Executed(c, s))
  {
    hide Verified, Unwind, PopFrame, ReturnPair;
    if !c.code[s.pc].Exit? { LeaveKept(c, hs, ResolveInst(c.code, c.u.env.fns, c.code[s.pc]), s.pc + 1, s); }
  }

  lemma PrimStep(c: Image, hs: HeightsOf, s: State)
    requires Here(c, hs, s) && c.code[s.pc].Prim?
    ensures Kept(hs, Executed(c, s))
  {
    hide Verified, ExecPrim, Pops;
    PrimKept(c, hs, c.code[s.pc].p, s.pc + 1, s);
  }

  lemma CallStep(c: Image, hs: HeightsOf, s: State)
    requires Here(c, hs, s) && c.code[s.pc].Call?
    ensures Kept(hs, Executed(c, s))
  {
    hide Verified, ExecCall;
    CallKept(c, hs, FindFn(c.u.env.fns, c.code[s.pc].f).value, s.pc + 1, s);
  }

  lemma InvokeStep(c: Image, hs: HeightsOf, s: State)
    requires Here(c, hs, s) && c.code[s.pc].Invoke?
    ensures Kept(hs, Executed(c, s))
  {
    hide Verified, ExecInvoke;
    InvokeKept(c, hs, c.code[s.pc].arity, s.pc + 1, s);
  }

  lemma SuspendStep(c: Image, hs: HeightsOf, s: State)
    requires Here(c, hs, s) && (c.code[s.pc].Yield? || c.code[s.pc].CoDump?)
    ensures Kept(hs, Executed(c, s))
  {
    hide Verified, Suspend, ReturnPair, PopFrame;
    if c.code[s.pc].Yield? { YieldKept(c, hs, s.pc + 1, s); } else { DumpKept(c, hs, s.pc + 1, s); }
  }

  predicate Transfers(i: Asm) { i.Mark? || i.Goto? || i.IfElse? || i.ForNext? || i.Try? }

  lemma MoveStep(c: Image, hs: HeightsOf, s: State)
    requires Here(c, hs, s)
    requires !Transfers(c.code[s.pc]) && !Heights.Ends(c.code[s.pc])
    requires var i := c.code[s.pc]; !i.Call? && !i.Invoke? && !i.Yield? && !i.CoDump? && !i.Prim?
    ensures Kept(hs, Executed(c, s))
  {
    hide Verified, Exec, Moves;
    MoveKept(c, hs, c.code[s.pc], s.pc + 1, s);
  }

  /** What every step keeps. */
  lemma StepKeepsHeights(c: Image, hs: HeightsOf, s: State)
    requires Verified(c, hs) && InStep(hs, s)
    ensures Kept(hs, Step(Prog(c), s))
  {
    assert Sound(c.u.env.fns, c.code, hs, s.pc, |s.top.temps|);
    assert Here(c, hs, s) && Step(Prog(c), s) == Executed(c, s);
    hide Here, Executed, Step, Verified, InStep, Kept;
    var i := c.code[s.pc];
    if Transfers(i) {
      JumpStep(c, hs, s);
    } else if Heights.Ends(i) {
      LeaveStep(c, hs, s);
    } else if i.Prim? {
      PrimStep(c, hs, s);
    } else if i.Call? {
      CallStep(c, hs, s);
    } else if i.Invoke? {
      InvokeStep(c, hs, s);
    } else if i.Yield? || i.CoDump? {
      SuspendStep(c, hs, s);
    } else {
      MoveStep(c, hs, s);
    }
  }

  /** In every state of every run the operands are as many as the height of the place, and
      no run takes operands that are not there or leaves the code. */
  lemma {:induction false} RunsKeepHeights(c: Image, hs: HeightsOf, s: State, n: nat)
    requires Verified(c, hs) && InStep(hs, s)
    ensures Kept(hs, Run(Prog(c), s, n))
    decreases n
  {
    hide Step;
    if n > 0 {
      StepKeepsHeights(c, hs, s);
      match Step(Prog(c), s)
      case Next(t) => RunsKeepHeights(c, hs, t, n - 1);
      case _ =>
    }
  }

  /** The track before instruction i. */
  function TrackAt(fns: seq<Context>, code: seq<Asm>, t: Track, i: nat): Track
    requires i <= |code| && Infer(fns, code, t).Some?
  {
    InferPrefix(fns, code, t, i);
    Infer(fns, code[..i], t).value
  }

  lemma InferPrefix(fns: seq<Context>, code: seq<Asm>, t: Track, i: nat)
    requires i <= |code| && Infer(fns, code, t).Some?
    ensures Infer(fns, code[..i], t).Some?
    ensures Infer(fns, code, t) == Infer(fns, code[i..], Infer(fns, code[..i], t).value)
  {
    InferConcat(fns, code[..i], code[i..], t);
    assert code == code[..i] + code[i..];
  }

  lemma TrackStep(fns: seq<Context>, code: seq<Asm>, t: Track, i: nat)
    requires i < |code| && Infer(fns, code, t).Some?
    ensures Pass(fns, code[i], TrackAt(fns, code, t, i)) == Some(TrackAt(fns, code, t, i + 1))
  {
    hide Infer, Pass;
    InferPrefix(fns, code, t, i + 1);
    InferConcat(fns, code[..i], [code[i]], t);
    assert code[..i + 1] == code[..i] + [code[i]];
    InferPrefix(fns, code, t, i);
    InferSingle(fns, code[i], TrackAt(fns, code, t, i));
  }

  /** A label has one height, and none if nothing had led to it when it was passed. */
  ghost predicate Grown(t: Track, u: Track) {
    && (forall l :: l in t.at ==> l in u.at && u.at[l] == t.at[l])
    && t.dead <= u.dead
    && ((forall l :: l in t.at ==> l !in t.dead) ==> (forall l :: l in u.at ==> l !in u.dead))
  }

  lemma {:induction false} InferGrows(fns: seq<Context>, code: seq<Asm>, t: Track)
    requires Infer(fns, code, t).Some?
    ensures Grown(t, Infer(fns, code, t).value)
    decreases |code|
  {
    hide Moves;
    if code != [] {
      InferGrows(fns, code[1..], Pass(fns, code[0], t).value);
    }
  }

  /** What is known at instruction i is known at the end. */
  lemma KnownAtEnd(fns: seq<Context>, code: seq<Asm>, t: Track, i: nat)
    requires i <= |code| && Infer(fns, code, t).Some? && forall l :: l in t.at ==> l !in t.dead
    ensures var s, u := TrackAt(fns, code, t, i), Infer(fns, code, t).value;
      && (forall l :: l in s.at ==> l in u.at && u.at[l] == s.at[l]) && s.dead <= u.dead
      && (forall l :: l in u.at ==> l !in u.dead)
  {
    hide Infer;
    InferPrefix(fns, code, t, i);
    InferGrows(fns, code[i..], TrackAt(fns, code, t, i));
    InferGrows(fns, code, t);
  }

  /** The heights the pass has found; calls from outside return to the last instruction. */
  function HeightsFrom(fns: seq<Context>, code: seq<Asm>, t: Track): HeightsOf
    requires Infer(fns, code, t).Some?
  {
    seq(|code|, i requires 0 <= i < |code| =>
      if i == |code| - 1 then Some(1)
      else if code[i].Mark? then
        var at := Infer(fns, code, t).value.at;
        if code[i].l in at then Some(at[code[i].l]) else None
      else TrackAt(fns, code, t, i).height)
  }

  /** The pass over code that ends in the exit calls return to, which is not fallen into. */
  ghost predicate Inferred(c: Image, t: Track) {
    && c.code != [] && Infer(c.u.env.fns, c.code, t).Some? && (forall l :: l in t.at ==> l !in t.dead)
    && c.code[|c.code| - 1] == Exit && TrackAt(c.u.env.fns, c.code, t, |c.code| - 1).height == None
    && (forall i, l :: 0 <= i < |c.code| && Hit(Jumped, c.code[i], l) > 0 ==> Mark(l) in c.code)
  }

  lemma NextHeight(c: Image, t: Track, i: nat)
    requires Inferred(c, t) && 0 < i < |c.code| && TrackAt(c.u.env.fns, c.code, t, i).height.Some?
    ensures At(HeightsFrom(c.u.env.fns, c.code, t), i, TrackAt(c.u.env.fns, c.code, t, i).height.value)
  {
    hide Infer;
    if c.code[i].Mark? {
      TrackStep(c.u.env.fns, c.code, t, i);
      KnownAtEnd(c.u.env.fns, c.code, t, i + 1);
    }
  }

  lemma TargetHeight(c: Image, t: Track, i: nat, l: Label)
    requires Inferred(c, t) && i < |c.code| && Hit(Jumped, c.code[i], l) > 0
    requires l in TrackAt(c.u.env.fns, c.code, t, i + 1).at
    ensures At(HeightsFrom(c.u.env.fns, c.code, t), Find(c.code, l), TrackAt(c.u.env.fns, c.code, t, i + 1).at[l])
  {
    hide Infer;
    assert Mark(l) in c.code;
    var j :| 0 <= j < |c.code| && c.code[j] == Mark(l);
    KnownAtEnd(c.u.env.fns, c.code, t, i + 1);
  }

  lemma MarkHeight(c: Image, t: Track, i: nat)
    requires Inferred(c, t) && i < |c.code| - 1 && c.code[i].Mark?
    requires HeightsFrom(c.u.env.fns, c.code, t)[i].Some?
    ensures TrackAt(c.u.env.fns, c.code, t, i + 1).height == HeightsFrom(c.u.env.fns, c.code, t)[i]
  {
    hide Infer;
    TrackStep(c.u.env.fns, c.code, t, i);
    KnownAtEnd(c.u.env.fns, c.code, t, i + 1);
  }

  lemma InferredSound(c: Image, t: Track, i: nat)
    requires Inferred(c, t) && i < |c.code| && HeightsFrom(c.u.env.fns, c.code, t)[i].Some?
    ensures Sound(c.u.env.fns, c.code, HeightsFrom(c.u.env.fns, c.code, t), i,
      HeightsFrom(c.u.env.fns, c.code, t)[i].value)
  {
    hide Infer, Moves, Find;
    if i == |c.code| - 1 { return; }
    TrackStep(c.u.env.fns, c.code, t, i);
    if c.code[i].Mark? { MarkHeight(c, t, i); }
    var u := TrackAt(c.u.env.fns, c.code, t, i + 1);
    if u.height.Some? { NextHeight(c, t, i + 1); }
    if Transfers(c.code[i]) && !c.code[i].Mark? { TargetHeight(c, t, i, c.code[i].l); }
  }

  /** Compiled programs have heights. */
  lemma ProgramVerified(
    p: SstProgram, n: nat, frame: FunctionDecl -> nat, ops: HeapOps, sh: Shape) returns (hs: HeightsOf)
    requires Analysed(p) && WfSource(LinkedImage(p, n, frame, ops).u, sh)
    requires WfExprs(LinkedImage(p, n, frame, ops).u, sh, p.inits, 0)
    ensures Verified(LinkedImage(p, n, frame, ops), hs) && At(hs, |hs| - 1, 1)
  {
    hide Infer, CompProgram, WfSource, WfExprs, Sound, IsHead, FunctionAt, Pass;
    var c := LinkedImage(p, n, frame, ops);
    var fns := c.u.env.fns;
    var t := Start(p);
    ProgramInfers(p, n, frame, ops, sh);
    ProgramIsClosed(p, n);
    ProgramLinks(p, n, frame, ops);
    assert TrackAt(fns, c.code, t, |c.code| - 1).height == None;
    assert Inferred(c, t);
    hs := HeightsFrom(fns, c.code, t);
    forall pc | 0 <= pc < |c.code| && hs[pc].Some? ensures Sound(fns, c.code, hs, pc, hs[pc].value) {
      InferredSound(c, t, pc);
    }
    forall f | 0 <= f < |fns| ensures At(hs, fns[f].address, 0) {
      NamesAreHeads(p.fns, f);
      FunctionMarked(c, f);
    }
  }

  lemma {:induction false} NamesAreHeads(fns: seq<FunctionDecl>, f: nat)
    requires Named(fns) && f < |fns|
    ensures IsHead(fns, fns[f].name)
    decreases |fns|
  {
    if f > 0 {
      assert fns[1..][f - 1] == fns[f];
      NamesAreHeads(fns[1..], f - 1);
    }
  }

  /** A function's address is that of its label. */
  lemma FunctionMarked(c: Image, f: nat)
    requires Linked(c) && f < |c.u.fns|
    ensures var a := c.u.env.fns[f].address; a < |c.code| && c.code[a] == Mark(c.u.fns[f].name)
  {
    hide Compile.CompFunction;
    assert FunctionAt(c, f);
    var n: nat :| CodeAt(c.code, c.u.env.fns[f].address, Compile.CompFunction(c.u.fns[f], n).code);
    FirstMark(c.u.fns[f], n);
    assert c.code[c.u.env.fns[f].address + 0] == Compile.CompFunction(c.u.fns[f], n).code[0];
  }

  /** Every run of a compiled program, whatever it calls, yields or throws, keeps to one
      height for each place: no operation takes what is not there, so none reaches into
      slots or into the values of callers. */
  lemma ProgramKeepsHeights(
    p: SstProgram, n: nat, frame: FunctionDecl -> nat, ops: HeapOps, sh: Shape,
    f: nat, args: seq<Value>, globals: seq<Value>, heap: Heap) returns (hs: HeightsOf)
    requires Analysed(p) && WfSource(LinkedImage(p, n, frame, ops).u, sh) && f < |p.fns|
    requires WfExprs(LinkedImage(p, n, frame, ops).u, sh, p.inits, 0)
    ensures LinkedImage(p, n, frame, ops).code != [] && Verified(LinkedImage(p, n, frame, ops), hs)
    ensures var c := LinkedImage(p, n, frame, ops);
      forall k :: Kept(hs, Run(Prog(c), Correctness.Entry(c, f, args, globals, heap), k))
  {
    hide CompProgram, WfSource, WfExprs, Run, Sound;
    var c := LinkedImage(p, n, frame, ops);
    hs := ProgramVerified(p, n, frame, ops, sh);
    ProgramLinks(p, n, frame, ops);
    var s := Correctness.Entry(c, f, args, globals, heap);
    assert InStep(hs, s);
    forall k ensures Kept(hs, Run(Prog(c), s, k)) { RunsKeepHeights(c, hs, s, k); }
  }
}
