/** Coroutines are transparent: whoever resumes a coroutine, from whatever depth of the
    stack, gets the values its body would give out if it ran through. */
module Coroutines {
  import opened Values
  import opened Instructions
  import opened Machine

  function Depth(a: Acts): nat { if a.Bottom? then 0 else 1 + Depth(a.below) }

  /** The same activation; the one whose callers are b deep returns to ret instead. */
  function Moved(a: Act, below: Acts, b: nat, ret: nat): Act {
    if Depth(below) == b then a.(ret := ret) else a
  }

  /** The same activations on other callers. */
  function Rebased(a: Acts, b: nat, ret: nat, base: Acts): Acts {
    if Depth(a) <= b then base else Under(Moved(a.act, a.below, b, ret), Rebased(a.below, b, ret, base))
  }

  function Rebase(s: State, b: nat, ret: nat, base: Acts): State {
    s.(top := Moved(s.top, s.below, b, ret), below := Rebased(s.below, b, ret, base))
  }

  /** The activation with b callers is still there. */
  predicate Within(r: Result, b: nat) { r.Next? && Depth(r.s.below) >= b }

  ghost predicate Agree(r: Result, q: Result, b: nat, ret: nat, base: Acts) {
    Within(r, b) ==> q == Next(Rebase(r.s, b, ret, base))
  }

  lemma GoRebase(s: State, next: nat, temps: seq<Value>, b: nat, ret: nat, base: Acts)
    ensures Go(Rebase(s, b, ret, base), next, temps) == Rebase(Go(s, next, temps), b, ret, base)
  {
  }

  lemma {:induction false} UnwindRebase(env: Env, s: State, x: Value, b: nat, ret: nat, base: Acts)
    requires Depth(s.below) >= b > 0 && base.Under?
    ensures Agree(Unwind(env, s, x), Unwind(env, Rebase(s, b, ret, base), x), b, ret, base)
    decreases s.below
  {
    if s.top.handler.None? {
      var t := s.(top := s.below.act, below := s.below.below);
      if Depth(t.below) >= b {
        UnwindRebase(env, t, x, b, ret, base);
      } else {
        UnwindDepth(env, t, x);
      }
    }
  }

  lemma {:induction false} UnwindDepth(env: Env, s: State, x: Value)
    ensures Unwind(env, s, x).Next? ==> Depth(Unwind(env, s, x).s.below) <= Depth(s.below)
    decreases s.below
  {
    if s.below.Under? && s.top.handler.None? { UnwindDepth(env, s.(top := s.below.act, below := s.below.below), x); }
  }

  lemma PopRebase(s: State, v: Value, b: nat, ret: nat, base: Acts)
    requires Depth(s.below) >= b > 0 && base.Under?
    ensures Agree(PopFrame(s, v), PopFrame(Rebase(s, b, ret, base), v), b, ret, base)
  {
  }

  lemma PushRebase(env: Env, s: State, f: nat, slots: seq<Value>, to: nat, b: nat, ret: nat, base: Acts)
    requires Depth(s.below) >= b && f < |env.fns|
    ensures PushFrame(env, Rebase(s, b, ret, base), f, slots, to)
        == Rebase(PushFrame(env, s, f, slots, to), b, ret, base)
  {
  }

  lemma PrimRebase(env: Env, p: PrimOp, next: nat, s: State, b: nat, ret: nat, base: Acts)
    requires Depth(s.below) >= b > 0 && base.Under?
    ensures Agree(ExecPrim(env, p, next, s), ExecPrim(env, p, next, Rebase(s, b, ret, base)), b, ret, base)
  {
    hide Apply, Rebased, Unwind;
    var t := s.top.temps;
    if |t| >= Pops(p) {
      match Apply(env.ops, p, Take(t, Pops(p)), s.heap)
      case Err(x, h) => UnwindRebase(env, s.(heap := h), x, b, ret, base);
      case Ok(v, h) =>
    }
  }

  lemma CallRebase(env: Env, f: nat, next: nat, s: State, b: nat, ret: nat, base: Acts)
    requires Depth(s.below) >= b > 0 && base.Under?
    ensures Agree(ExecCall(env, f, next, s), ExecCall(env, f, next, Rebase(s, b, ret, base)), b, ret, base)
  {
    if f < |env.fns| && |s.top.temps| >= Arity(env.fns[f]) {
      var n := Arity(env.fns[f]);
      GoRebase(s, s.pc, Drop(s.top.temps, n), b, ret, base);
      PushRebase(env, Go(s, s.pc, Drop(s.top.temps, n)), f, Take(s.top.temps, n), next, b, ret, base);
    }
  }

  lemma InvokeFnRebase(
    env: Env, f: nat, captured: seq<Value>, args: seq<Value>, next: nat, s: State, b: nat, ret: nat, base: Acts)
    requires Depth(s.below) >= b > 0 && base.Under?
    ensures Agree(InvokeFn(env, f, captured, args, next, s),
              InvokeFn(env, f, captured, args, next, Rebase(s, b, ret, base)), b, ret, base)
  {
    hide Unwind, PrepareArgs, Rebased, PushFrame;
    if f >= |env.fns| { return; }
    match PrepareArgs(env, env.fns[f], args, s.heap)
    case None => UnwindRebase(env, s, InvalidParameters(env.fns[f].arity, |args|), b, ret, base);
    case Some((fixed, Err(x, h))) => UnwindRebase(env, s.(heap := h), x, b, ret, base);
    case Some((fixed, Ok(tuple, h))) =>
      var slots := if env.fns[f].isVariadic then fixed + [tuple] else fixed;
      PushRebase(env, s.(heap := h), f, slots + captured, next, b, ret, base);
  }

  lemma InvokeRebase(env: Env, n: nat, next: nat, s: State, b: nat, ret: nat, base: Acts)
    requires Depth(s.below) >= b > 0 && base.Under?
    ensures Agree(ExecInvoke(env, n, next, s), ExecInvoke(env, n, next, Rebase(s, b, ret, base)), b, ret, base)
  {
    hide Unwind, InvokeFn;
    var t := s.top.temps;
    if t == [] { return; }
    match Last(t)
    case Fn(f, captured) =>
      if |t| - 1 >= n {
        GoRebase(s, s.pc, Drop(Front(t), n), b, ret, base);
        InvokeFnRebase(env, f, captured, Take(Front(t), n), next, Go(s, s.pc, Drop(Front(t), n)), b, ret, base);
      }
    case Co(id) =>
      if n != 0 { UnwindRebase(env, s, InvalidParameters(0, n), b, ret, base); }
    case _ => UnwindRebase(env, s, Str("Invalid argument"), b, ret, base);
  }

  lemma PairRebase(env: Env, co: Value, v: Value, s: State, b: nat, ret: nat, base: Acts)
    requires Depth(s.below) >= b > 0 && base.Under?
    ensures Agree(ReturnPair(env, co, v, s), ReturnPair(env, co, v, Rebase(s, b, ret, base)), b, ret, base)
  {
    hide Unwind, PopFrame, Apply;
    match Apply(env.ops, NewTuple(2), [co, v], s.heap)
    case Ok(pair, h) => PopRebase(s.(heap := h), pair, b, ret, base);
    case Err(x, h) => UnwindRebase(env, s.(heap := h), x, b, ret, base);
  }

  lemma SuspendRebase(s: State, next: nat, b: nat, ret: nat, base: Acts)
    ensures Suspend(Rebase(s, b, ret, base), next) == Rebase(Suspend(s, next), b, ret, base)
  {
  }

  predicate Leaves(i: Op) {
    i.Return? || i.ReturnNull? || i.Throw? || i.Yield? || i.CoReturn? || i.CoDump?
  }

  lemma YieldRebase(env: Env, next: nat, s: State, b: nat, ret: nat, base: Acts)
    requires Depth(s.below) >= b > 0 && base.Under? && s.top.temps != []
    ensures Agree(Exec(env, Yield, next, s), Exec(env, Yield, next, Rebase(s, b, ret, base)), b, ret, base)
  {
    hide Unwind, PopFrame, ReturnPair, Rebased;
    var t := s.top.temps;
    GoRebase(s, s.pc, Front(t), b, ret, base);
    SuspendRebase(Go(s, s.pc, Front(t)), next, b, ret, base);
    PairRebase(env, Co(|s.cos|), Last(t), Suspend(Go(s, s.pc, Front(t)), next), b, ret, base);
    assert s.below.Under? && Rebase(s, b, ret, base).below.Under? by { RebasedUnder(s.below, b, ret, base); }
  }

  lemma RebasedUnder(a: Acts, b: nat, ret: nat, base: Acts)
    requires Depth(a) >= b > 0 && base.Under?
    ensures a.Under? && Rebased(a, b, ret, base).Under?
  {
  }

  lemma LeaveRebase(env: Env, i: Op, next: nat, s: State, b: nat, ret: nat, base: Acts)
    requires Leaves(i) && Depth(s.below) >= b > 0 && base.Under?
    ensures Agree(Exec(env, i, next, s), Exec(env, i, next, Rebase(s, b, ret, base)), b, ret, base)
  {
    hide Unwind, PopFrame, ReturnPair, Rebased;
    RebasedUnder(s.below, b, ret, base);
    var t := s.top.temps;
    if i.ReturnNull? {
      PopRebase(s, Null, b, ret, base);
    } else if i.CoDump? {
      SuspendRebase(s, next, b, ret, base);
      PopRebase(Suspend(s, next), Co(|s.cos|), b, ret, base);
    } else if t != [] {
      if i.Return? {
        PopRebase(s, Last(t), b, ret, base);
      } else if i.Throw? {
        UnwindRebase(env, s, Last(t), b, ret, base);
      } else if i.Yield? {
        YieldRebase(env, next, s, b, ret, base);
      } else {
        PairRebase(env, Null, Last(t), s, b, ret, base);
      }
    }
  }

  /** Instructions that only move the current operands and slots. */
  predicate Plain(i: Op) {
    !Leaves(i) && !i.Prim? && !i.Call? && !i.Invoke? && !i.ForNext? && !i.Unpack? && !i.Capture?
  }

  lemma PlainRebase(env: Env, i: Op, next: nat, s: State, b: nat, ret: nat, base: Acts)
    requires Plain(i) && Depth(s.below) >= b > 0 && base.Under?
    ensures Agree(Exec(env, i, next, s), Exec(env, i, next, Rebase(s, b, ret, base)), b, ret, base)
  {
    hide Rebased;
    RebasedUnder(s.below, b, ret, base);
  }

  /** An instruction does not notice who called b calls below. */
  lemma ExecRebase(env: Env, i: Op, next: nat, s: State, b: nat, ret: nat, base: Acts)
    requires Depth(s.below) >= b > 0 && base.Under?
    ensures Agree(Exec(env, i, next, s), Exec(env, i, next, Rebase(s, b, ret, base)), b, ret, base)
  {
    hide Unwind, PopFrame, ReturnPair, ExecPrim, ExecInvoke, ExecCall, Rebased;
    if Leaves(i) {
      LeaveRebase(env, i, next, s, b, ret, base);
    } else if Plain(i) {
      PlainRebase(env, i, next, s, b, ret, base);
    } else if i.Prim? {
      PrimRebase(env, i.p, next, s, b, ret, base);
    } else if i.Call? {
      CallRebase(env, i.f, next, s, b, ret, base);
    } else if i.Invoke? {
      InvokeRebase(env, i.arity, next, s, b, ret, base);
    } else {
      UnwindAny(env, s, b, ret, base);
    }
  }

  lemma UnwindAny(env: Env, s: State, b: nat, ret: nat, base: Acts)
    requires Depth(s.below) >= b > 0 && base.Under?
    ensures forall x, h :: Agree(Unwind(env, s.(heap := h), x), Unwind(env, Rebase(s, b, ret, base).(heap := h), x),
      b, ret, base)
    ensures forall x :: Agree(Unwind(env, s, x), Unwind(env, Rebase(s, b, ret, base), x), b, ret, base)
  {
    hide Unwind;
    forall x, h
      ensures Agree(Unwind(env, s.(heap := h), x), Unwind(env, Rebase(s, b, ret, base).(heap := h), x), b, ret, base)
    {
      UnwindRebase(env, s.(heap := h), x, b, ret, base);
    }
    forall x ensures Agree(Unwind(env, s, x), Unwind(env, Rebase(s, b, ret, base), x), b, ret, base) {
      UnwindRebase(env, s, x, b, ret, base);
    }
  }

  /** The activation of the coroutine, which has b callers and no handler, is about to
      yield, and the pair it yields can be made. */
  predicate Yields(p: Program, s: State, b: nat) {
    && s.pc < |p.code| && p.code[s.pc] == Yield && Depth(s.below) == b > 0
    && s.top.temps != [] && s.top.handler.None?
    && Apply(p.env.ops, NewTuple(2), [Co(|s.cos|), Last(s.top.temps)], s.heap).Ok?
  }

  /** Where a body goes on that gives out its value and runs through. */
  function PastYield(p: Program, s: State): State
    requires s.top.temps != []
  {
    Suspend(Go(s, s.pc, Front(s.top.temps)), s.pc + 1).(
      pc := s.pc + 1, heap := Apply(p.env.ops, NewTuple(2), [Co(|s.cos|), Last(s.top.temps)], s.heap).heap)
  }

  /** Somebody who resumes a coroutine: activations, and where the resumption returns to. */
  datatype Resumer = Resumer(act: Act, below: Acts, ret: nat)

  /** Coroutine id invoked without arguments by this resumer. */
  function Resumed(p: Program, s: State, id: nat, who: Resumer): Result {
    ExecInvoke(p.env, 0, who.ret, s.(top := who.act.(temps := who.act.temps + [Co(id)]), below := who.below))
  }

  /** The values given out in n steps by a body that runs through. */
  function Through(p: Program, s: State, b: nat, n: nat): (Result, seq<Value>)
    decreases n
  {
    if n == 0 then (Next(s), [])
    else if Yields(p, s, b) then
      var (r, vs) := Through(p, PastYield(p, s), b, n - 1);
      (r, [Last(s.top.temps)] + vs)
    else if Within(Step(p, s), b) then Through(p, Step(p, s).s, b, n - 1)
    else (Next(s), [])
  }

  /** The values that the resumers get who resume in turn whatever the coroutine before
      has returned: at each yield the machine leaves the coroutine, and the next of them
      takes it up. */
  function InTurn(p: Program, s: State, who: nat -> Resumer, i: nat, n: nat): (Result, seq<Value>)
    decreases n
  {
    var b := 1 + Depth(who(i).below);
    if n == 0 then (Next(s), [])
    else if Yields(p, s, b) then
      match Step(p, s)
      case Next(t) =>
        (match Resumed(p, t, |s.cos|, who(i + 1))
         case Next(u) =>
           var (r, vs) := InTurn(p, u, who, i + 1, n - 1);
           (r, [Last(s.top.temps)] + vs)
         case r => (r, []))
      case r => (r, [])
    else if Within(Step(p, s), b) then InTurn(p, Step(p, s).s, who, i, n - 1)
    else (Next(s), [])
  }

  /** A yield hands out its value; resumed from anywhere, the coroutine is where a body
      would be that had run on, with the same slots and operands. */
  lemma YieldThenResume(p: Program, s: State, b: nat, ret: nat, base: Acts, who: Resumer)
    requires Yields(p, s, b) && base.Under?
    ensures var q := Step(p, Rebase(s, b, ret, base));
      && q.Next? && q.s.cos == PastYield(p, s).cos && q.s.heap == PastYield(p, s).heap
      && q.s.top.temps == base.act.temps
           + [Apply(p.env.ops, NewTuple(2), [Co(|s.cos|), Last(s.top.temps)], s.heap).v]
      && Resumed(p, q.s, |s.cos|, who)
           == Next(Rebase(PastYield(p, s), b, who.ret, Under(who.act, who.below)))
  {
    hide Apply;
    var t := s.top.temps;
    var z := Rebase(s, b, ret, base);
    assert z.top == s.top.(ret := ret) && z.below == base;
    var q := Step(p, z);
    var c := who.act.temps + [Co(|s.cos|)];
    assert Last(c) == Co(|s.cos|) && Front(c) == who.act.temps;
    assert q.s.cos[|s.cos|] == CoData(s.pc + 1, s.top.locals, Front(t), s.top.ctx);
  }

  function BaseOf(a: Acts, b: nat): Acts {
    if Depth(a) <= b then a else BaseOf(a.below, b)
  }

  function RetOf(act: Act, below: Acts, b: nat): nat
    decreases below
  {
    if Depth(below) <= b then act.ret else RetOf(below.act, below.below, b)
  }

  lemma {:induction false} RebasedBack(a: Acts, b: nat, ret: nat, base: Acts, was: nat)
    requires Depth(a) >= b && (Depth(a) > b ==> was == RetOf(a.act, a.below, b))
    ensures Depth(Rebased(a, b, ret, base)) == Depth(a) - b + Depth(base)
    ensures Rebased(Rebased(a, b, ret, base), Depth(base), was, BaseOf(a, b)) == a
    decreases a
  {
    if Depth(a) > b {
      if Depth(a.below) == b {
        assert Rebased(a.below, b, ret, base) == base;
        assert Rebased(a, b, ret, base) == Under(a.act.(ret := ret), base);
      } else {
        RebasedBack(a.below, b, ret, base, was);
      }
    }
  }

  /** Putting activations on other callers can be undone. */
  lemma RebaseBack(s: State, b: nat, ret: nat, base: Acts)
    requires Depth(s.below) >= b
    ensures Depth(Rebase(s, b, ret, base).below) == Depth(s.below) - b + Depth(base)
    ensures Rebase(Rebase(s, b, ret, base), Depth(base), RetOf(s.top, s.below, b), BaseOf(s.below, b)) == s
  {
    RebasedBack(s.below, b, ret, base, RetOf(s.top, s.below, b));
  }

  lemma StepAgrees(p: Program, s: State, b: nat, ret: nat, base: Acts)
    requires Depth(s.below) >= b > 0 && base.Under?
    ensures Agree(Step(p, s), Step(p, Rebase(s, b, ret, base)), b, ret, base)
  {
    hide Exec, Rebased, Agree;
    if s.pc < |p.code| {
      ExecRebase(p.env, p.code[s.pc], s.pc + 1, s, b, ret, base);
    } else {
      assert Agree(Wrong(BadAddress), Wrong(BadAddress), b, ret, base) by { NeverWithin(b, ret, base); }
    }
  }

  lemma NeverWithin(b: nat, ret: nat, base: Acts)
    ensures Agree(Wrong(BadAddress), Wrong(BadAddress), b, ret, base)
  {
  }

  /** A step stays in the coroutine, or leaves it, on any callers alike. */
  lemma StepRebase(p: Program, s: State, b: nat, ret: nat, base: Acts)
    requires Depth(s.below) >= b > 0 && base.Under?
    ensures Within(Step(p, s), b) <==> Within(Step(p, Rebase(s, b, ret, base)), Depth(base))
    ensures Agree(Step(p, s), Step(p, Rebase(s, b, ret, base)), b, ret, base)
  {
    var z := Rebase(s, b, ret, base);
    var c, ret0, base0 := Depth(base), RetOf(s.top, s.below, b), BaseOf(s.below, b);
    assert c > 0;
    RebaseBack(s, b, ret, base);
    BaseUnder(s.below, b);
    hide Step, Rebase, RetOf, BaseOf;
    StepAgrees(p, s, b, ret, base);
    StepAgrees(p, z, c, ret0, base0);
    if Within(Step(p, s), b) { RebaseBack(Step(p, s).s, b, ret, base); }
    if Within(Step(p, z), c) { RebaseBack(Step(p, z).s, c, ret0, base0); }
  }

  lemma {:induction false} BaseUnder(a: Acts, b: nat)
    requires Depth(a) >= b > 0
    ensures BaseOf(a, b).Under? && Depth(BaseOf(a, b)) == b
  {
    if Depth(a) > b { BaseUnder(a.below, b); }
  }

  function OnResumer(s: State, b: nat, who: Resumer): State {
    Rebase(s, b, who.ret, Under(who.act, who.below))
  }

  /** Resuming in turn gives the values of the body running through, whatever the depths
      from which it is resumed, and ends in the same place. */
  lemma {:induction false} CoroutineTransparent(p: Program, s: State, who: nat -> Resumer, i: nat, b: nat, n: nat)
    requires Depth(s.below) >= b > 0
    ensures var (r, vs) := Through(p, s, b, n);
      var q := InTurn(p, OnResumer(s, b, who(i)), who, i, n);
      && q.1 == vs && r.Next? && q.0 == Next(OnResumer(r.s, b, who(i + |vs|)))
    decreases n
  {
    hide Step, Resumed, PastYield, Rebased, Moved, Apply;
    if n == 0 { return; }
    var base := Under(who(i).act, who(i).below);
    var z := OnResumer(s, b, who(i));
    RebaseBack(s, b, who(i).ret, base);
    SameOperands(s, b, who(i).ret, base);
    assert Yields(p, z, Depth(base)) <==> Yields(p, s, b);
    StepRebase(p, s, b, who(i).ret, base);
    if Yields(p, s, b) {
      YieldThenResume(p, s, b, who(i).ret, base, who(i + 1));
      PastYieldDepth(p, s);
      CoroutineTransparent(p, PastYield(p, s), who, i + 1, b, n - 1);
    } else if Within(Step(p, s), b) {
      CoroutineTransparent(p, Step(p, s).s, who, i, b, n - 1);
    }
  }

  lemma SameOperands(s: State, b: nat, ret: nat, base: Acts)
    ensures var z := Rebase(s, b, ret, base);
      z.top.temps == s.top.temps && z.top.handler == s.top.handler && z.pc == s.pc && z.heap == s.heap && z.cos == s.cos
  {
  }

  lemma PastYieldDepth(p: Program, s: State)
    requires s.top.temps != []
    ensures PastYield(p, s).below == s.below
  {
  }

  /** The call that makes a coroutine stops at the start of its body: resumed, it begins as
      a call of the body would, on the resumer's stack. */
  lemma DumpThenResume(p: Program, s: State, b: nat, who: Resumer)
    requires s.pc < |p.code| && p.code[s.pc] == CoDump && Depth(s.below) == b > 0 && s.top.handler.None?
    ensures var q := Step(p, s);
      && q.Next? && q.s.top.temps == s.below.act.temps + [Co(|s.cos|)]
      && Resumed(p, q.s, |s.cos|, who) == Next(OnResumer(Suspend(s, s.pc + 1).(pc := s.pc + 1), b, who))
  {
    var q := Step(p, s);
    var c := who.act.temps + [Co(|s.cos|)];
    assert Last(c) == Co(|s.cos|) && Front(c) == who.act.temps;
    assert q.s.cos[|s.cos|] == CoData(s.pc + 1, s.top.locals, s.top.temps, s.top.ctx);
  }
}
