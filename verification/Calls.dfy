/** Calling a function by its name and invoking a pointer to it are the same. */
module Calls {
  import opened Values
  import opened Instructions
  import opened Machine
  import opened Sst
  import opened BigStep
  import opened Scopes
  import Symbols

  /** analyze_arguments: the surplus arguments of a variadic function become a tuple. */
  function Arguments(arity: nat, isVariadic: bool, args: Exprs): Exprs
    requires arity <= Count(args)
    decreases args
  {
    if arity == 0 then if isVariadic then ECons(Strict(TupleLit, args), ENil) else ENil
    else ECons(args.head, Arguments(arity - 1, isVariadic, args.tail))
  }

  predicate Accepts(c: Context, count: nat) {
    if c.isVariadic then c.arity <= count else c.arity == count
  }

  /** A name with so many arguments is resolved to a function just if that one, invoked with
      them, takes them; and if it does not, the invocation raises an exception. */
  lemma ResolvedTakesArguments(
    f: Symbols.Signature, u: Source, i: nat, captured: seq<Value>, args: seq<Value>, w: World)
    requires i < |u.env.fns| && |args| < 256
    requires u.env.fns[i].arity == f.simple && u.env.fns[i].isVariadic == f.isVariadic
    ensures Symbols.Match(f, f.path, f.name, |args|, Symbols.ALLOWED) <==> Accepts(u.env.fns[i], |args|)
    ensures !Accepts(u.env.fns[i], |args|) <==>
            Resolve(u, Fn(i, captured), args, w)
              == NoTarget(Raised(InvalidParameters(u.env.fns[i].arity, |args|)), w.heap)
            && PrepareArgs(u.env, u.env.fns[i], args, w.heap).None?
  {
    hide Apply, InvalidParameters;
  }

  /** What evaluated arguments become when the surplus is put into a tuple. */
  function Packed(u: Source, arity: nat, isVariadic: bool, r: Res): Res
    requires r.out.Done? ==> arity <= |r.out.vs|
  {
    if !r.out.Done? || !isVariadic then r
    else
      var t := PrimOut(u, NewTuple(|r.out.vs| - arity), r.out.vs[arity..], r.w);
      if t.out.Done? then t.(out := Done(r.out.vs[..arity] + t.out.vs)) else t
  }

  lemma {:induction false} ArgumentsPack(u: Source, arity: nat, isVariadic: bool, args: Exprs, w: World, fuel: nat)
    requires if isVariadic then arity <= Count(args) else arity == Count(args)
    ensures EvalArgs(u, Arguments(arity, isVariadic, args), w, fuel)
         == Packed(u, arity, isVariadic, EvalArgs(u, args, w, fuel))
    decreases args
  {
    hide EvalExpr, PrimOut;
    if arity == 0 {
      if isVariadic {
        TuplePacks(u, args, w, fuel);
      }
    } else {
      var re := BigStep.One(EvalExpr(u, args.head, w, fuel));
      if re.out.Done? {
        ArgumentsPack(u, arity - 1, isVariadic, args.tail, re.w, fuel);
        var rt := EvalArgs(u, args.tail, re.w, fuel);
        if rt.out.Done? {
          var vs := re.out.vs + rt.out.vs;
          assert vs[arity..] == rt.out.vs[arity - 1..] && vs[..arity] == re.out.vs + rt.out.vs[..arity - 1];
          PackOneMore(u, arity, isVariadic, re.out.vs, rt);
        }
      }
    }
  }

  lemma PackOneMore(u: Source, arity: nat, isVariadic: bool, vs: seq<Value>, rt: Res)
    requires arity > 0 && |vs| == 1 && rt.out.Done? && arity - 1 <= |rt.out.vs|
    ensures var t := Packed(u, arity - 1, isVariadic, rt);
      Packed(u, arity, isVariadic, rt.(out := Done(vs + rt.out.vs)))
        == if t.out.Done? then t.(out := Done(vs + t.out.vs)) else t
  {
    hide PrimOut;
    var all := vs + rt.out.vs;
    assert all[arity..] == rt.out.vs[arity - 1..] && all[..arity] == vs + rt.out.vs[..arity - 1];
    if isVariadic {
      var t := PrimOut(u, NewTuple(|all| - arity), all[arity..], rt.w);
      if t.out.Done? { assert vs + (rt.out.vs[..arity - 1] + t.out.vs) == (vs + rt.out.vs[..arity - 1]) + t.out.vs; }
    }
  }

  lemma PushesTuple(u: Source, n: nat, vs: seq<Value>, w: World)
    ensures PrimOut(u, NewTuple(n), vs, w).out.Done? ==> |PrimOut(u, NewTuple(n), vs, w).out.vs| == 1
  {
  }

  lemma TuplePacks(u: Source, args: Exprs, w: World, fuel: nat)
    ensures EvalArgs(u, ECons(Strict(TupleLit, args), ENil), w, fuel) == Packed(u, 0, true, EvalArgs(u, args, w, fuel))
  {
    hide PrimOut;
    var e := Strict(TupleLit, args);
    var r := EvalArgs(u, args, w, fuel);
    var re := BigStep.One(EvalExpr(u, e, w, fuel));
    assert EvalExpr(u, e, w, fuel) == if !r.out.Done? then r else PrimOut(u, NewTuple(Count(args)), r.out.vs, r.w);
    if r.out.Done? {
      assert r.out.vs[0..] == r.out.vs && r.out.vs[..0] == [];
      PushesTuple(u, Count(args), r.out.vs, r.w);
      if re.out.Done? {
        assert EvalArgs(u, ENil, re.w, fuel) == Unit(re.w);
        assert re.out.vs + [] == re.out.vs && [] + re.out.vs == re.out.vs;
      }
    }
  }

  /** The slots a call by name and an invocation give the function are the same. */
  lemma SlotsAgree(u: Source, f: nat, vs: seq<Value>, w: World)
    requires f < |u.env.fns| && Accepts(u.env.fns[f], |vs|) && |vs| < 256
    ensures var c := u.env.fns[f];
      var p := Packed(u, c.arity, c.isVariadic, Res(Done(vs), w));
      Resolve(u, Fn(f, []), vs, w) == match p.out
        case Done(slots) => Target(f, slots, p.w.heap)
        case out => NoTarget(out, p.w.heap)
  {
    hide Known;
    var c := u.env.fns[f];
    if c.isVariadic {
      match Apply(u.env.ops, NewTuple(|vs| - c.arity), vs[c.arity..], w.heap)
      case Ok(t, h) => assert (vs[..c.arity] + [t]) + [] == vs[..c.arity] + [t];
      case Err(x, h) =>
    } else {
      assert vs + [] == vs;
    }
  }

  /** For every function and every argument list it accepts, the static call and the
      invocation of a capture-free pointer evaluate alike. */
  lemma StaticCallIsInvoke(u: Source, fn: Label, args: Exprs, w: World, fuel: nat)
    requires FindFn(u.env.fns, fn).Some? && FindFn(u.env.fns, fn).value < |u.env.fns|
    requires Accepts(u.env.fns[FindFn(u.env.fns, fn).value], Count(args)) && Count(args) < 256 && fuel > 0
    ensures var c := u.env.fns[FindFn(u.env.fns, fn).value];
      EvalExpr(u, CallExpr(fn, Arguments(c.arity, c.isVariadic, args)), w, fuel)
        == EvalExpr(u, InvokeExpr(FxPointer(fn, ENil), args), w, fuel)
  {
    hide EvalCall, EvalArgs, PrimOut, Resolve;
    var f := FindFn(u.env.fns, fn).value;
    var c := u.env.fns[f];
    var ra := EvalArgs(u, args, w, fuel);
    ArgumentsPack(u, c.arity, c.isVariadic, args, w, fuel);
    var pa := Packed(u, c.arity, c.isVariadic, ra);
    assert EvalArgs(u, Arguments(c.arity, c.isVariadic, args), w, fuel) == pa;
    if ra.out.Done? {
      PointerValue(u, fn, ra.w, fuel);
      SlotsAgree(u, f, ra.out.vs, ra.w);
      PackedWorld(u, c.arity, c.isVariadic, ra);
      if pa.out.Done? {
        CallerHeap(u, Target(f, pa.out.vs, pa.w.heap), ra.w, pa.w.heap, fuel - 1);
      } else {
        FailedCall(u, pa.out, pa.w.heap, ra.w, fuel - 1);
      }
    }
  }

  lemma PointerValue(u: Source, fn: Label, w: World, fuel: nat)
    requires FindFn(u.env.fns, fn).Some? && FindFn(u.env.fns, fn).value < |u.env.fns|
    ensures EvalExpr(u, FxPointer(fn, ENil), w, fuel) == Value1(Fn(FindFn(u.env.fns, fn).value, []), w)
  {
    assert EvalArgs(u, ENil, w, fuel) == Unit(w);
  }

  lemma PackedWorld(u: Source, arity: nat, isVariadic: bool, r: Res)
    requires r.out.Done? ==> arity <= |r.out.vs|
    ensures var p := Packed(u, arity, isVariadic, r);
      p.w == r.w.(heap := p.w.heap) && (r.out.Done? && !p.out.Done? ==> p.out.Raised? || p.out.Outside?)
  {
    hide Known;
  }

  /** A call does not look at the heap its caller had before the call was made. */
  lemma CallerHeap(u: Source, i: Invocation, w: World, h: Heap, fuel: nat)
    requires i.Target?
    ensures EvalCall(u, i, w.(heap := h), fuel) == EvalCall(u, i, w, fuel)
  {
    hide EvalStmt;
  }

  lemma FailedCall(u: Source, out: Out, h: Heap, w: World, fuel: nat)
    requires out.Raised? || out.Outside?
    ensures EvalCall(u, NoTarget(out, h), w, fuel) == Res(out, w.(heap := h))
  {
  }

  /** Parameters, the variadic one and the captures are declared in this order. */
  function ParameterNames(simple: seq<string>, variadic: Option<string>, captures: seq<string>): seq<string> {
    simple + (if variadic.Some? then [variadic.value] else []) + captures
  }

  /** analyze_function: names the slots; false just when a name is declared twice. */
  method DeclareParameters(scope: Scope, simple: seq<string>, variadic: Option<string>, captures: seq<string>)
    returns (ok: bool)
    requires scope.Valid() && scope.Packed() && scope.vars == map[] && scope.parent == null
    modifies scope
    ensures scope.Valid() && scope.Packed()
    ensures ok <==> Declarable(ParameterNames(simple, variadic, captures), map[])
    ensures ok ==> forall i :: 0 <= i < |ParameterNames(simple, variadic, captures)| ==>
      scope.Resolve(ParameterNames(simple, variadic, captures)[i]) == Some(i)
    ensures ok ==> scope.Size() == |ParameterNames(simple, variadic, captures)|
  {
    var names := ParameterNames(simple, variadic, captures);
    ok := DeclareAll(scope, names);
    if ok { SlotsOf(map[], scope.vars, names, 0); }
  }

  /** An invoked function finds its captures in the slots right after its parameters, as
      DeclareParameters has numbered them. */
  lemma CapturesFollowParameters(u: Source, f: nat, captured: seq<Value>, args: seq<Value>, w: World)
    requires f < |u.env.fns| && Resolve(u, Fn(f, captured), args, w).Target?
    ensures var slots := Resolve(u, Fn(f, captured), args, w).slots;
      && |slots| == Arity(u.env.fns[f]) + |captured| && slots[Arity(u.env.fns[f])..] == captured
      && slots[..u.env.fns[f].arity] == args[..u.env.fns[f].arity]
  {
    hide Apply;
    var c := u.env.fns[f];
    var p := PrepareArgs(u.env, c, args, w.heap);
    if p.Some? && p.value.1.Ok? {
      var front := if c.isVariadic then p.value.0 + [p.value.1.v] else p.value.0;
      assert |front| == Arity(c) && (front + captured)[|front|..] == captured;
      assert (front + captured)[..c.arity] == args[..c.arity];
    }
  }
}
