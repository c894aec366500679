/** The machine's stack and its instruction handlers, updating their fields in place. */
module VMCore {
  import opened Values
  import opened Instructions
  import opened Machine
  import opened FlatMachine

  class VMStack {
    var values: seq<Value>
    var frames: seq<Frame>
    var framePointer: nat

    constructor ()
      ensures values == [] && frames == [] && framePointer == 0
    {
      values, frames, framePointer := [], [], 0;
    }

    method PushFrame(ret: nat, arity: nat, ctx: nat, frameSize: nat)
      requires arity <= |values|
      modifies this
      ensures frames == old(frames) + [Frame(ret, old(framePointer), None, ctx)]
      ensures framePointer == |old(values)| - arity && values == old(values) + Nulls(frameSize)
    {
      frames := frames + [Frame(ret, framePointer, None, ctx)];
      framePointer := |values| - arity;
      values := values + Nulls(frameSize);
    }

    method PopFrame() returns (ret: nat)
      requires frames != [] && framePointer <= |values|
      modifies this
      ensures ret == Last(old(frames)).ret && values == old(values)[..old(framePointer)]
      ensures framePointer == Last(old(frames)).prevFp && frames == Front(old(frames))
    {
      var frame := frames[|frames| - 1];
      ret := frame.ret;
      values := values[..framePointer];
      framePointer := frame.prevFp;
      frames := frames[..|frames| - 1];
    }

    method Push(v: Value)
      modifies this`values
      ensures values == old(values) + [v]
    {
      values := values + [v];
    }

    method Pop() returns (v: Value)
      requires values != []
      modifies this`values
      ensures v == Last(old(values)) && values == Front(old(values))
    {
      v := values[|values| - 1];
      values := values[..|values| - 1];
    }

    method Write(offset: nat, v: Value)
      requires framePointer + offset < |values|
      modifies this`values
      ensures values == old(values)[framePointer + offset := v]
    {
      values := values[framePointer + offset := v];
    }

    function Read(offset: nat): Value
      requires framePointer + offset < |values|
      reads this
    {
      values[framePointer + offset]
    }

    /** Everything from the frame pointer on. */
    function CopyLocals(): seq<Value>
      requires framePointer <= |values|
      reads this
    {
      values[framePointer..]
    }

    /** read_from_stack: the arguments come off last to first and are turned round. */
    method ReadFromStack(n: nat) returns (args: seq<Value>)
      requires n <= |values|
      modifies this`values
      ensures args == Take(old(values), n) && values == Drop(old(values), n)
    {
      args := [];
      for i := 0 to n
        invariant |values| == |old(values)| - i && values == Drop(old(values), i)
        invariant args == Reverse(Take(old(values), i))
      {
        var v := Pop();
        args := args + [v];
        assert Take(old(values), i + 1) == [v] + Take(old(values), i);
      }
      assert Reverse(Reverse(Take(old(values), n))) == Take(old(values), n);
      args := Reverse(args);
    }

    /** load_onto_stack. */
    method LoadOntoStack(vs: seq<Value>)
      modifies this`values
      ensures values == old(values) + vs
    {
      for i := 0 to |vs|
        invariant values == old(values) + vs[..i]
      {
        Push(vs[i]);
        assert vs[..i + 1] == vs[..i] + [vs[i]];
      }
      assert vs[..|vs|] == vs;
    }
  }

  /** How an instruction ends: the loop goes on, an exception is to be converted, the
      program ends with a value, or an exception found no handler. */
  datatype Signal = Going | Exception(x: Value) | Stopped(v: Value) | Failed(msg: string)

  predicate SameButPc(f: Flat, g: Flat) {
    g.values == f.values && g.frames == f.frames && g.fp == f.fp && g.heap == f.heap && g.cos == f.cos
  }

  /** Unwinding does not look at the program counter. */
  lemma {:induction false} UnwindIgnoresPc(f: Flat, g: Flat)
    requires SameButPc(f, g)
    ensures SameButPc(UnwindFrames(f), UnwindFrames(g))
    decreases |f.frames|
  {
    if f.frames != [] && f.fp <= |f.values| && Last(f.frames).handler.None? {
      UnwindIgnoresPc(PopTop(f), PopTop(g));
    }
  }

  /** A call gets as many slots as the function has parameters. */
  lemma PreparedCount(env: Env, c: Context, args: seq<Value>, h: Heap)
    requires PrepareArgs(env, c, args, h).Some? && PrepareArgs(env, c, args, h).value.1.Ok?
    ensures |PrepareArgs(env, c, args, h).value.0| + (if c.isVariadic then 1 else 0) == Arity(c)
  {
  }

  /** Making a pair does not fail, whatever is in it. */
  ghost predicate PairsNeverFail(ops: HeapOps) {
    forall a, b, h :: ops.op(NewTuple(2), [a, b], h).Ok?
  }

  lemma PairMade(ops: HeapOps, a: Value, b: Value, h: Heap)
    requires PairsNeverFail(ops)
    ensures Apply(ops, NewTuple(2), [a, b], h).Ok?
  {
  }

  /** The machine: program counter, stack, heap and suspended coroutines. */
  class Core {
    const env: Env
    const stack: VMStack
    var pc: nat
    var heap: Heap
    var cos: seq<FlatCo>

    constructor (env: Env, start: nat, heap: Heap)
      ensures this.env == env && fresh(stack) && State() == Flat(start, [], [], 0, heap, [])
    {
      this.env, pc, this.heap, cos := env, start, heap, [];
      stack := new VMStack();
    }

    function State(): Flat
      reads this, stack
    {
      Flat(pc, stack.values, stack.frames, stack.framePointer, heap, cos)
    }

    /** A handler did what the instruction is to do; next is the address after it. */
    ghost predicate Serves(inst: Op, next: nat, before: Flat, sig: Signal)
      reads this, stack
    {
      var r := FlatExec(env, inst, next, before);
      match sig
      case Going => r == FNext(State())
      case Exception(x) => r == FlatThrow(env, State(), x)
      case Stopped(v) => r == FHalt(v)
      case Failed(m) => r == FUnhandled(m)
    }

    /** thr0w: pops frames until one has a handler, and rebuilds that one. */
    method Throw(x: Value) returns (sig: Signal)
      requires FlatThrow(env, State(), x) != FWrong
      modifies this`pc, stack
      ensures match FlatThrow(env, old(State()), x)
        case FNext(g) => sig == Going && State() == g
        case FUnhandled(m) => sig == Failed(m)
        case _ => false
    {
      hide Apply;
      ghost var result := FlatThrow(env, State(), x);
      while stack.frames != [] && Last(stack.frames).handler.None?
        invariant FlatThrow(env, State(), x) == result
        decreases |stack.frames|
      {
        ghost var before := State();
        var _ := stack.PopFrame();
        assert State() == PopTop(before);
      }
      if stack.frames == [] { return Failed(MessageOf(x)); }
      assert UnwindFrames(State()) == State();
      ghost var g := State();
      var top := Last(stack.frames);
      var ret := stack.PopFrame();
      stack.Push(x);
      assert State() == FlatMachine.Push(PopTop(g), x);
      stack.PushFrame(ret, 1, top.ctx, env.fns[top.ctx].frameSize);
      pc := top.handler.value;
      sig := Going;
    }

    method Jump(to: nat) returns (sig: Signal)
      modifies this`pc
      ensures Serves(Goto(to), old(pc), old(State()), sig)
    {
      pc := to;
      sig := Going;
    }

    method If(otherwise: nat) returns (sig: Signal)
      requires FlatExec(env, IfElse(otherwise), pc, State()) != FWrong
      modifies this`pc, stack`values
      ensures Serves(IfElse(otherwise), old(pc), old(State()), sig)
    {
      var v := stack.Pop();
      if !Truthy(v) { pc := otherwise; }
      sig := Going;
    }

    method Call(index: nat) returns (sig: Signal)
      requires FlatExec(env, Instructions.Call(index), pc, State()) != FWrong
      modifies this`pc, stack
      ensures Serves(Instructions.Call(index), old(pc), old(State()), sig)
    {
      var entry := env.fns[index];
      stack.PushFrame(pc, Arity(entry), index, entry.frameSize);
      pc := entry.address;
      sig := Going;
    }

    method Return() returns (sig: Signal)
      requires FlatExec(env, Instructions.Return, pc, State()) != FWrong
      modifies this`pc, stack
      ensures Serves(Instructions.Return, old(pc), old(State()), sig)
    {
      var v := stack.Pop();
      pc := stack.PopFrame();
      stack.Push(v);
      sig := Going;
    }

    method ReturnNull() returns (sig: Signal)
      requires FlatExec(env, Instructions.ReturnNull, pc, State()) != FWrong
      modifies this`pc, stack
      ensures Serves(Instructions.ReturnNull, old(pc), old(State()), sig)
    {
      pc := stack.PopFrame();
      stack.Push(Null);
      sig := Going;
    }

    method Try(handler: nat) returns (sig: Signal)
      requires FlatExec(env, Instructions.Try(handler), pc, State()) != FWrong
      modifies stack`frames
      ensures Serves(Instructions.Try(handler), old(pc), old(State()), sig)
    {
      stack.frames := Front(stack.frames) + [Last(stack.frames).(handler := Some(handler))];
      sig := Going;
    }

    /** The next value and whether it is the end, which the jump pops again. */
    method ForNext(end: nat) returns (sig: Signal)
      requires FlatExec(env, Instructions.ForNext(end), pc, State()) != FWrong
      modifies this`pc, this`heap, stack`values
      ensures Serves(Instructions.ForNext(end), old(pc), old(State()), sig)
    {
      var iter := Last(stack.values);
      match env.ops.next(iter, heap)
      case Err(x, h) =>
        heap := h;
        sig := Exception(x);
      case Ok(v, h) =>
        heap := h;
        stack.Push(v);
        stack.Push(Bool(!v.Stop?));
        var going := stack.Pop();
        if !Truthy(going) { pc := end; }
        sig := Going;
    }

    method Scrap() returns (sig: Signal)
      requires FlatExec(env, Instructions.Scrap, pc, State()) != FWrong
      modifies stack`values
      ensures Serves(Instructions.Scrap, old(pc), old(State()), sig)
    {
      var _ := stack.Pop();
      sig := Going;
    }

    method Duplicate() returns (sig: Signal)
      requires FlatExec(env, Instructions.Duplicate, pc, State()) != FWrong
      modifies stack`values
      ensures Serves(Instructions.Duplicate, old(pc), old(State()), sig)
    {
      stack.Push(Last(stack.values));
      sig := Going;
    }

    method Swap() returns (sig: Signal)
      requires FlatExec(env, Instructions.Swap, pc, State()) != FWrong
      modifies stack`values
      ensures Serves(Instructions.Swap, old(pc), old(State()), sig)
    {
      var a := stack.Pop();
      var b := stack.Pop();
      stack.Push(a);
      stack.Push(b);
      sig := Going;
    }

    method Load(a: nat) returns (sig: Signal)
      requires FlatExec(env, LoadX(a), pc, State()) != FWrong
      modifies stack`values
      ensures Serves(LoadX(a), old(pc), old(State()), sig)
    {
      stack.Push(stack.Read(a));
      sig := Going;
    }

    method Store(a: nat) returns (sig: Signal)
      requires FlatExec(env, StoreX(a), pc, State()) != FWrong
      modifies stack`values
      ensures Serves(StoreX(a), old(pc), old(State()), sig)
    {
      var v := stack.Pop();
      stack.Write(a, v);
      sig := Going;
    }

    /** unpack_tuple: the last element first, so that the first ends on top. */
    method Unpack(size: nat) returns (sig: Signal)
      requires FlatExec(env, Instructions.Unpack(size), pc, State()) != FWrong
      modifies stack`values
      ensures Serves(Instructions.Unpack(size), old(pc), old(State()), sig)
    {
      ghost var before := State();
      var tuple := stack.Pop();
      match env.ops.elements(tuple, heap)
      case None =>
        sig := Exception(Str("Not a tuple"));
      case Some(vs) =>
        if |vs| < size {
          sig := Exception(Str("Cannot unpack tuple"));
        } else {
          PushElements(vs, size);
          assert Drop(before.values, 1) == Front(before.values);
          sig := Going;
        }
    }

    method PushElements(vs: seq<Value>, size: nat)
      requires size <= |vs|
      modifies stack`values
      ensures stack.values == old(stack.values) + Reverse(vs[..size])
    {
      var i: nat := size;
      while i > 0
        invariant i <= size && stack.values == old(stack.values) + Reverse(vs[i..size])
      {
        i := i - 1;
        stack.Push(vs[i]);
        assert vs[i..size] == [vs[i]] + vs[i + 1..size];
      }
      assert vs[0..size] == vs[..size];
    }

    /** A primitive: its operands come off the stack before it can throw. */
    method Primitive(p: PrimOp) returns (sig: Signal)
      requires FlatExec(env, Prim(p), pc, State()) != FWrong
      modifies this`heap, stack`values
      ensures Serves(Prim(p), old(pc), old(State()), sig)
    {
      hide Apply;
      var args := stack.ReadFromStack(Pops(p));
      match Apply(env.ops, p, args, heap)
      case Err(x, h) =>
        heap := h;
        sig := Exception(x);
      case Ok(v, h) =>
        heap := h;
        if Pushes(p) { stack.Push(v); }
        sig := Going;
    }

    method StaticRead(id: nat) returns (sig: Signal)
      requires FlatExec(env, GlobalRead(id), pc, State()) != FWrong
      modifies stack`values
      ensures Serves(GlobalRead(id), old(pc), old(State()), sig)
    {
      stack.Push(stack.values[id]);
      sig := Going;
    }

    method StaticWrite(id: nat) returns (sig: Signal)
      requires FlatExec(env, GlobalWrite(id), pc, State()) != FWrong
      modifies stack`values
      ensures Serves(GlobalWrite(id), old(pc), old(State()), sig)
    {
      var v := stack.Pop();
      stack.values := stack.values[id := v];
      sig := Going;
    }

    method NewFunction(index: nat) returns (sig: Signal)
      requires FlatExec(env, NewFx(index), pc, State()) != FWrong
      modifies stack`values
      ensures Serves(NewFx(index), old(pc), old(State()), sig)
    {
      stack.Push(Fn(index, []));
      sig := Going;
    }

    method Capture() returns (sig: Signal)
      requires FlatExec(env, Instructions.Capture, pc, State()) != FWrong
      modifies stack`values
      ensures Serves(Instructions.Capture, old(pc), old(State()), sig)
    {
      var v := stack.Pop();
      var fx := Last(stack.values);
      if fx.Fn? {
        stack.values := Front(stack.values) + [Fn(fx.index, fx.captured + [v])];
        sig := Going;
      } else {
        sig := Exception(Str("Invalid argument"));
      }
    }

    method CoReturn() returns (sig: Signal)
      requires FlatExec(env, Instructions.CoReturn, pc, State()) != FWrong && PairsNeverFail(env.ops)
      modifies this`pc, this`heap, stack
      ensures Serves(Instructions.CoReturn, old(pc), old(State()), sig)
    {
      hide Apply, PairsNeverFail;
      PairMade(env.ops, Null, Last(stack.values), heap);
      var v := stack.Pop();
      pc := stack.PopFrame();
      var r := Apply(env.ops, NewTuple(2), [Null, v], heap);
      heap := r.heap;
      stack.Push(r.v);
      sig := Going;
    }

    method Yield() returns (sig: Signal)
      requires FlatExec(env, Instructions.Yield, pc, State()) != FWrong && PairsNeverFail(env.ops)
      modifies this`pc, this`heap, this`cos, stack
      ensures Serves(Instructions.Yield, old(pc), old(State()), sig)
    {
      hide Apply, PairsNeverFail;
      var id := |cos|;
      var v := stack.Pop();
      cos := cos + [FlatCo(pc, stack.CopyLocals(), Last(stack.frames).ctx)];
      pc := stack.PopFrame();
      PairMade(env.ops, Co(id), v, heap);
      var r := Apply(env.ops, NewTuple(2), [Co(id), v], heap);
      heap := r.heap;
      stack.Push(r.v);
      sig := Going;
    }

    /** prepare_args: the surplus of a variadic invocation becomes one tuple. */
    method PrepareArguments(c: Context, n: nat) returns (x: Option<Value>)
      requires n <= |stack.values|
      modifies this`heap, stack`values
      ensures match PrepareArgs(env, c, Take(old(stack.values), n), old(heap))
        case None => x == Some(InvalidParameters(c.arity, n)) && heap == old(heap) && stack.values == old(stack.values)
        case Some((fixed, Err(e, h))) =>
          x == Some(e) && heap == h && stack.values == Drop(old(stack.values), n) + fixed
        case Some((fixed, Ok(tuple, h))) =>
          && x == None && heap == h
          && stack.values == Drop(old(stack.values), n) + (if c.isVariadic then fixed + [tuple] else fixed)
    {
      hide Apply;
      var all := stack.values;
      ghost var args := Take(all, n);
      if n >= c.arity && c.isVariadic {
        var rest := stack.ReadFromStack(n - c.arity);
        assert rest == args[c.arity..] && stack.values == Drop(all, n) + args[..c.arity];
        match Apply(env.ops, NewTuple(|rest|), rest, heap)
        case Ok(tuple, h) =>
          heap := h;
          stack.Push(tuple);
          assert Drop(all, n) + args[..c.arity] + [tuple] == Drop(all, n) + (args[..c.arity] + [tuple]);
          x := None;
        case Err(e, h) =>
          heap := h;
          x := Some(e);
      } else if n > c.arity || n < c.arity {
        x := Some(InvalidParameters(c.arity, n));
      } else if c.isVariadic {
        assert false;
      } else {
        assert all == Drop(all, n) + args;
        x := None;
      }
    }

    method InvokeScriptFunction(index: nat, captured: seq<Value>, n: nat) returns (sig: Signal)
      requires FlatInvokeFn(env, index, captured, n, pc, State()) != FWrong
      modifies this`pc, this`heap, stack
      ensures var r := FlatInvokeFn(env, index, captured, n, old(pc), old(State()));
        (sig == Going && r == FNext(State())) || (sig.Exception? && r == FlatThrow(env, State(), sig.x))
    {
      hide Apply, FlatThrow, PrepareArgs;
      var entry := env.fns[index];
      ghost var before := State();
      ghost var args := Take(stack.values, n);
      var x := PrepareArguments(entry, n);
      if x.Some? { return Exception(x.value); }
      ghost var slots := stack.values[|before.values| - n..];
      stack.LoadOntoStack(captured);
      assert stack.values == Drop(before.values, n) + (slots + captured);
      PreparedCount(env, entry, args, before.heap);
      stack.PushFrame(pc, Arity(entry) + |captured|, index, entry.frameSize);
      pc := entry.address;
      sig := Going;
    }

    /** A frame is made, filled with nulls to the saved size, and overwritten. */
    method InvokeCoroutine(c: FlatCo) returns (sig: Signal)
      requires FlatResume(env, c, pc, State()) != FWrong
      modifies this`pc, stack
      ensures sig == Going && FlatResume(env, c, old(pc), old(State())) == FNext(State())
    {
      ghost var before := stack.values;
      var size := env.fns[c.ctx].frameSize;
      stack.PushFrame(pc, 0, c.ctx, size);
      for i := 0 to |c.vars| - size
        invariant pc == old(pc) && stack.values == before + Nulls(size + i)
        invariant stack.framePointer == |before|
            && stack.frames == old(stack.frames) + [Frame(pc, old(stack.framePointer), None, c.ctx)]
      {
        stack.Push(Null);
        assert Nulls(size + i) + [Null] == Nulls(size + (i + 1));
      }
      for i := 0 to |c.vars|
        invariant pc == old(pc) && |stack.values| == |before| + |c.vars|
            && stack.values[..|before| + i] == before + c.vars[..i]
        invariant stack.framePointer == |before|
            && stack.frames == old(stack.frames) + [Frame(pc, old(stack.framePointer), None, c.ctx)]
      {
        ghost var was := stack.values;
        stack.Write(i, c.vars[i]);
        assert stack.values[..|before| + (i + 1)] == was[..|before| + i] + [c.vars[i]];
        assert c.vars[..i + 1] == c.vars[..i] + [c.vars[i]];
      }
      assert stack.values == stack.values[..|before| + |c.vars|] && c.vars[..|c.vars|] == c.vars;
      pc := c.resume;
      sig := Going;
    }

    method Invoke(n: nat) returns (sig: Signal)
      requires FlatExec(env, Instructions.Invoke(n), pc, State()) != FWrong
      modifies this`pc, this`heap, stack
      ensures Serves(Instructions.Invoke(n), old(pc), old(State()), sig)
    {
      hide FlatThrow, FlatInvokeFn, FlatResume;
      var fx := stack.Pop();
      match fx
      case Fn(index, captured) => sig := InvokeScriptFunction(index, captured, n);
      case Co(id) =>
        if n != 0 {
          sig := Exception(InvalidParameters(0, n));
        } else {
          sig := InvokeCoroutine(cos[id]);
        }
      case _ => sig := Exception(Str("Invalid argument"));
    }

    method CoDump() returns (sig: Signal)
      requires FlatExec(env, Instructions.CoDump, pc, State()) != FWrong
      modifies this`pc, this`cos, stack
      ensures Serves(Instructions.CoDump, old(pc), old(State()), sig)
    {
      var id := |cos|;
      cos := cos + [FlatCo(pc, stack.CopyLocals(), Last(stack.frames).ctx)];
      pc := stack.PopFrame();
      stack.Push(Co(id));
      sig := Going;
    }

    /** The handler of an instruction, its operands already fetched. */
    method Dispatch(inst: Op) returns (sig: Signal)
      requires FlatExec(env, inst, pc, State()) != FWrong
      requires inst.Yield? || inst.CoReturn? ==> PairsNeverFail(env.ops)
      modifies this, stack
      ensures Serves(inst, old(pc), old(State()), sig)
    {
      hide FlatExec, PairsNeverFail;
      match inst
      case Mark(_) => sig := NoOperation(inst);
      case Goto(l) => sig := Jump(l);
      case IfElse(l) => sig := If(l);
      case ForNext(l) => sig := ForNext(l);
      case Try(l) => sig := Try(l);
      case Call(i) => sig := Call(i);
      case NewFx(i) => sig := NewFunction(i);
      case Capture => sig := Capture();
      case Invoke(n) => sig := Invoke(n);
      case Return => sig := Return();
      case ReturnNull => sig := ReturnNull();
      case Throw => sig := Thrown();
      case Yield => sig := Yield();
      case CoReturn => sig := CoReturn();
      case CoDump => sig := CoDump();
      case Exit => sig := Leave();
      case Scrap => sig := Scrap();
      case Duplicate => sig := Duplicate();
      case Swap => sig := Swap();
      case Unpack(n) => sig := Unpack(n);
      case LoadX(a) => sig := Load(a);
      case StoreX(a) => sig := Store(a);
      case LoadK(k) => ShortForms(env, k, pc, State()); sig := Load(k);
      case StoreK(k) => ShortForms(env, k, pc, State()); sig := Store(k);
      case GlobalRead(i) => sig := StaticRead(i);
      case GlobalWrite(i) => sig := StaticWrite(i);
      case Prim(p) => sig := Primitive(p);
    }

    method NoOperation(inst: Op) returns (sig: Signal)
      requires inst.Mark?
      ensures Serves(inst, pc, State(), sig)
    {
      sig := Going;
    }

    method Leave() returns (sig: Signal)
      requires FlatExec(env, Exit, pc, State()) != FWrong
      modifies stack`values
      ensures Serves(Exit, old(pc), old(State()), sig)
    {
      var v := stack.Pop();
      sig := Stopped(v);
    }

    method Thrown() returns (sig: Signal)
      requires FlatExec(env, Instructions.Throw, pc, State()) != FWrong
      modifies stack`values
      ensures Serves(Instructions.Throw, old(pc), old(State()), sig)
    {
      var x := stack.Pop();
      sig := Exception(x);
    }

    /** One turn of the loop: exceptions thrown by a handler are converted and thrown again. */
    method Execute(inst: Op) returns (sig: Signal)
      requires FlatExec(env, inst, pc, State()) != FWrong
      requires inst.Yield? || inst.CoReturn? ==> PairsNeverFail(env.ops)
      modifies this, stack
      ensures match FlatExec(env, inst, old(pc), old(State()))
        case FNext(g) => sig == Going && State() == g
        case FHalt(v) => sig == Stopped(v)
        case FUnhandled(m) => sig == Failed(m)
        case FWrong => false
    {
      hide FlatExec, FlatThrow, PairsNeverFail;
      sig := Dispatch(inst);
      if sig.Exception? { sig := Throw(sig.x); }
    }
  }

  lemma ShortForms(env: Env, k: nat, next: nat, f: Flat)
    ensures FlatExec(env, LoadK(k), next, f) == FlatExec(env, LoadX(k), next, f)
    ensures FlatExec(env, StoreK(k), next, f) == FlatExec(env, StoreX(k), next, f)
  {
  }
}
