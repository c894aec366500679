/** From the meaning of a program to the machine that fetches bytes and keeps one stack:
    compiling, rewriting, linking, assembling and fetching preserve what a call does. */
module EndToEnd {
  import opened Values
  import opened Instructions
  import opened Machine
  import opened Sst
  import opened BigStep
  import opened Compile
  import opened Labelled
  import opened WellFormed
  import opened Correctness
  import opened Programs
  import opened Peephole
  import PP = PeepholeProof
  import opened Relocation
  import opened Bytecode
  import opened Linking
  import opened Linker
  import opened ByteMachine
  import opened FlatMachine
  import opened FlatProof
  import opened Build
  import VM = VMCore

  /** One turn of the fetch-execute loop on the machine as it is. */
  function FlatStep(p: ByteProgram, f: Flat): FlatResult {
    match Fetch(p.code, p.pool, f.pc)
    case None => FWrong
    case Some((i, next)) => FlatExec(p.env, i, next, f)
  }

  function FlatRun(p: ByteProgram, f: Flat, n: nat): FlatResult
    decreases n
  {
    if n == 0 then FNext(f)
    else match FlatStep(p, f)
      case FNext(g) => FlatRun(p, g, n - 1)
      case r => r
  }

  /** The loop, for n instructions. */
  method MainLoop(core: VM.Core, p: ByteProgram, n: nat) returns (sig: VM.Signal)
    requires core.env == p.env && VM.PairsNeverFail(p.env.ops) && FlatRun(p, core.State(), n) != FWrong
    modifies core, core.stack
    ensures match FlatRun(p, old(core.State()), n)
      case FNext(g) => sig == VM.Going && core.State() == g
      case FHalt(v) => sig == VM.Stopped(v)
      case FUnhandled(m) => sig == VM.Failed(m)
      case FWrong => false
  {
    hide FlatExec, Fetch, VM.PairsNeverFail;
    for i := 0 to n
      invariant FlatRun(p, core.State(), n - i) == FlatRun(p, old(core.State()), n)
    {
      var (inst, next) := Fetch(p.code, p.pool, core.pc).value;
      PcIrrelevant(p.env, inst, next, core.State());
      core.pc := next;
      sig := core.Execute(inst);
      if sig != VM.Going { return; }
    }
    sig := VM.Going;
  }

  /** The instruction's own address does not matter to what it does. */
  lemma PcIrrelevant(env: Env, i: Op, next: nat, f: Flat)
    ensures FlatExec(env, i, next, f.(pc := next)) == FlatExec(env, i, next, f)
  {
    hide Apply, FlatThrow, FlatInvoke, FlatPrim, FlatForNext, FlatUnpack, FlatPair;
    match i
    case Prim(p) => PrimPc(env, p, next, f);
    case ForNext(l) => ForNextPc(env, l, next, f);
    case Unpack(n) => UnpackPc(env, n, next, f);
    case Invoke(n) => InvokePc(env, n, next, f);
    case Throw => if f.values != [] { ThrowPc(env, f.(values := Front(f.values)), next, Last(f.values)); }
    case Capture => if f.values != [] { ThrowPc(env, f.(values := Front(f.values)), next, Str("Invalid argument")); }
    case Yield =>
      if f.values != [] && f.frames != [] && f.fp <= |f.values| - 1 {
        PairPc(env, FlatSuspend(f.(values := Front(f.values)), next), next, Co(|f.cos|), Last(f.values));
      }
    case CoReturn => if f.values != [] { PairPc(env, f.(values := Front(f.values)), next, Null, Last(f.values)); }
    case _ =>
  }

  lemma PrimPc(env: Env, p: PrimOp, next: nat, f: Flat)
    ensures FlatPrim(env, p, next, f.(pc := next)) == FlatPrim(env, p, next, f)
  {
    hide Apply, FlatThrow;
    if |f.values| >= Pops(p) {
      var r := Apply(env.ops, p, Take(f.values, Pops(p)), f.heap);
      if r.Err? { ThrowPc(env, f.(heap := r.heap, values := Drop(f.values, Pops(p))), next, r.exc); }
    }
  }

  lemma ForNextPc(env: Env, end: nat, next: nat, f: Flat)
    ensures FlatForNext(env, end, next, f.(pc := next)) == FlatForNext(env, end, next, f)
  {
    hide FlatThrow;
    if f.values != [] {
      var r := env.ops.next(Last(f.values), f.heap);
      if r.Err? { ThrowPc(env, f.(heap := r.heap), next, r.exc); }
    }
  }

  lemma UnpackPc(env: Env, size: nat, next: nat, f: Flat)
    ensures FlatUnpack(env, size, next, f.(pc := next)) == FlatUnpack(env, size, next, f)
  {
    hide FlatThrow;
    if f.values != [] {
      ThrowPc(env, f.(values := Front(f.values)), next, Str("Not a tuple"));
      ThrowPc(env, f.(values := Front(f.values)), next, Str("Cannot unpack tuple"));
    }
  }

  lemma InvokeFnPc(env: Env, i: nat, captured: seq<Value>, n: nat, next: nat, f: Flat)
    ensures FlatInvokeFn(env, i, captured, n, next, f.(pc := next)) == FlatInvokeFn(env, i, captured, n, next, f)
  {
    hide FlatThrow, PrepareArgs;
    if i < |env.fns| && |f.values| >= n {
      match PrepareArgs(env, env.fns[i], Take(f.values, n), f.heap)
      case None => ThrowPc(env, f, next, InvalidParameters(env.fns[i].arity, n));
      case Some((fixed, Err(x, h))) => ThrowPc(env, f.(heap := h, values := Drop(f.values, n) + fixed), next, x);
      case Some((fixed, Ok(tuple, h))) =>
    }
  }

  lemma InvokePc(env: Env, n: nat, next: nat, f: Flat)
    ensures FlatInvoke(env, n, next, f.(pc := next)) == FlatInvoke(env, n, next, f)
  {
    hide FlatThrow, FlatInvokeFn;
    if f.values != [] {
      var g := f.(values := Front(f.values));
      match Last(f.values)
      case Fn(i, captured) => InvokeFnPc(env, i, captured, n, next, g);
      case Co(_) => ThrowPc(env, g, next, InvalidParameters(0, n));
      case _ => ThrowPc(env, g, next, Str("Invalid argument"));
    }
  }

  lemma PairPc(env: Env, f: Flat, next: nat, co: Value, v: Value)
    ensures FlatPair(env, f.(pc := next), co, v) == FlatPair(env, f, co, v)
  {
    hide Apply, FlatThrow;
    var r := Apply(env.ops, NewTuple(2), [co, v], f.heap);
    if r.Err? { ThrowPc(env, f.(heap := r.heap), next, r.exc); }
  }

  lemma ThrowPc(env: Env, f: Flat, pc: nat, x: Value)
    ensures FlatThrow(env, f.(pc := pc), x) == FlatThrow(env, f, x)
  {
    VM.UnwindIgnoresPc(f, f.(pc := pc));
    var a, b := UnwindFrames(f), UnwindFrames(f.(pc := pc));
    hide UnwindFrames;
    if a.frames != [] && a.fp <= |a.values| { assert VM.SameButPc(PopTop(a), PopTop(b)); }
  }

  /** The shared stack goes along with the split ones. */
  lemma {:induction false} FlatRunAgrees(p: ByteProgram, s: State, n: nat)
    requires Framed(p.env, s) && !ByteRun(p, s, n).Wrong?
    ensures FlatRun(p, Flatten(s), n) == FlattenResult(ByteRun(p, s, n))
    decreases n
  {
    hide Exec, FlatExec, Fetch, Framed;
    if n > 0 {
      var (i, next) := Fetch(p.code, p.pool, s.pc).value;
      FlatExecAgrees(p.env, i, next, s);
      ExecKeepsFramed(p.env, i, next, s);
      match ByteStep(p, s)
      case Next(t) => FlatRunAgrees(p, t, n - 1);
      case _ =>
    }
  }

  /** What is loaded: the assembled code, the string pool and the function pool. */
  function Loaded(p: SstProgram, n: nat, frame: FunctionDecl -> nat, ops: HeapOps): ByteProgram
    requires Named(p.fns)
  {
    var code, fns := Linkable(p, n), LinkedPool(p, n, frame);
    ByteProgram(Assembled(code, fns, StringsOf(code)), StringsOf(code), Env(fns, ops))
  }

  /** A call from outside: globals and arguments on the stack, and a frame that returns to
      the exit at the end of the code. */
  function FlatEntry(p: ByteProgram, f: nat, args: seq<Value>, globals: seq<Value>, heap: Heap): Flat
    requires f < |p.env.fns| && p.code != []
  {
    var before := Flat(0, globals + args, [], 0, heap, []);
    PushTop(before, |p.code| - 1, |args|, f, p.env.fns[f].frameSize).(pc := p.env.fns[f].address)
  }

  lemma {:induction false} SameNames(a: seq<Context>, b: seq<Context>, l: Label)
    requires |a| == |b| && forall i :: 0 <= i < |a| ==> a[i].name == b[i].name
    ensures FindFn(a, l) == FindFn(b, l)
    decreases |a|
  {
    if a != [] { SameNames(a[1..], b[1..], l); }
  }

  lemma SamePlaced(code: seq<Asm>, a: seq<Context>, b: seq<Context>, i: Asm)
    requires |a| == |b| && forall i :: 0 <= i < |a| ==> a[i].name == b[i].name
    ensures Placed(code, a, i) == Placed(code, b, i)
  {
    hide Find, Offset, FindFn;
    match i
    case Call(l) => SameNames(a, b, l);
    case NewFx(l) => SameNames(a, b, l);
    case _ =>
  }

  /** The bytes depend on the names in the function pool, not on its addresses. */
  lemma {:induction false} SameBytes(code: seq<Asm>, a: seq<Context>, b: seq<Context>, pool: seq<string>, k: nat)
    requires |a| == |b| && forall i :: 0 <= i < |a| ==> a[i].name == b[i].name
    ensures BytesFrom(code, a, pool, k) == BytesFrom(code, b, pool, k)
    decreases |code| - k
  {
    hide Bytes, Placed;
    if k < |code| {
      SamePlaced(code, a, b, code[k]);
      SameBytes(code, a, b, pool, k + 1);
    }
  }

  /** What is loaded is the rewritten code with its addresses as offsets. */
  lemma LoadedIs(p: SstProgram, n: nat, frame: FunctionDecl -> nat, ops: HeapOps)
    requires Named(p.fns)
    ensures var c := LinkedImage(p, n, frame, ops);
      Loaded(p, n, frame, ops) ==
        ByteMachine.Image(Rewrite(c.code), MapEnv(c.u.env, PP.Moved(c.code)), StringsOf(Linkable(p, n)))
  {
    hide CompProgram, Rewrite, StringsOf, Find, Offset, NewPos, Starts, BytesFrom;
    var c := LinkedImage(p, n, frame, ops);
    var code, code2, pool := c.code, Linkable(p, n), StringsOf(Linkable(p, n));
    var env2 := MapEnv(c.u.env, PP.Moved(code));
    var fns := LinkedPool(p, n, frame);
    forall i | 0 <= i < |fns| ensures MapEnv(env2, ToOffset(code2)).fns[i] == fns[i] {
      FindMoves(code, p.fns[i].name);
    }
    assert MapEnv(env2, ToOffset(code2)).fns == fns;
    SameBytes(code2, fns, env2.fns, pool, 0);
  }

  lemma EndsInExit(p: SstProgram, n: nat)
    requires Named(p.fns)
    ensures CompProgram(p, n) != [] && CompProgram(p, n)[|CompProgram(p, n)| - 1] == Exit
  {
    hide CompFunctions, InitCode;
  }

  /** An exit at the end of the code is the last instruction of the rewritten code. */
  lemma ExitStays(code: seq<Asm>)
    requires code != [] && code[|code| - 1] == Exit
    ensures var k := NewPos(code, |code| - 1);
      Starts(code, |code| - 1) && k + 1 == |Rewrite(code)| && Rewrite(code)[k] == Exit
  {
    hide Rewrite, Starts, NewPos;
    AloneAreStarts(code, |code| - 1);
    RewriteAt(code, |code| - 1);
    hide Effect;
    RewriteAt(code, |code|);
  }

  /** An exit at the end of the code is its last byte. */
  lemma ExitIsLastByte(code: seq<Asm>, fns: seq<Context>, pool: seq<string>)
    requires FitsFormat(code, fns, pool) && code != [] && code[|code| - 1] == Exit
    ensures Offset(code, |code| - 1) + 1 == |Assembled(code, fns, pool)|
  {
    hide FitsFormat, Bytes, Placed, Offset;
    OffsetStep(code, |code| - 1);
    OffsetZero(code);
    WrittenAt(code, fns, pool, 0, |code|);
    assert Assembled(code, fns, pool)[Offset(code, |code|)..] == [];
  }

  /** The states of the three machines when a function is called from outside. */
  function ByteEntry(c: Labelled.Image, f: nat, args: seq<Value>, globals: seq<Value>, heap: Heap): State
    requires f < |c.u.env.fns| && c.code != []
  {
    MapState(MapState(Entry(c, f, args, globals, heap), PP.Moved(c.code)), ToOffset(Rewrite(c.code)))
  }

  /** The setting of a call: an analysed program that the static rules accept, and operands
      that fit their width in the byte code. */
  ghost predicate Callable(
    p: SstProgram, n: nat, frame: FunctionDecl -> nat, ops: HeapOps, sh: Shape, f: nat,
    args: seq<Value>, globals: seq<Value>, heap: Heap)
  {
    && Analysed(p) && f < |p.fns|
    && Accepted(LinkedImage(p, n, frame, ops), sh, f, args, globals, heap)
    && FitsFormat(Linkable(p, n), LinkedPool(p, n, frame), StringsOf(Linkable(p, n)))
  }

  /** One call, and nothing below it. */
  function OneCall(pc: nat, ret: nat, f: nat, slots: seq<Value>, bottom: nat, globals: seq<Value>, heap: Heap): State {
    State(pc, globals, Act(slots, [], ret, None, f), Under(Act([], [], bottom, None, 0), Bottom), heap, [])
  }

  lemma OneCallFlat(
    pc: nat, ret: nat, f: nat, args: seq<Value>, size: nat, bottom: nat, globals: seq<Value>, heap: Heap)
    ensures Flatten(OneCall(pc, ret, f, args + Nulls(size), bottom, globals, heap)) ==
            PushTop(Flat(0, globals + args, [], 0, heap, []), ret, |args|, f, size).(pc := pc)
  {
    var s := OneCall(pc, ret, f, args + Nulls(size), bottom, globals, heap);
    assert StackOf(s.below.act, s.below.below) == [];
    assert Flatten(s).values == globals + args + Nulls(size);
    assert FramesOf(s.below.act, Bottom, |globals|) == [];
    assert Flatten(s).frames == [Frame(ret, 0, None, f)];
  }

  lemma OneCallEnters(bp: ByteProgram, f: nat, args: seq<Value>, bottom: nat, globals: seq<Value>, heap: Heap)
    requires f < |bp.env.fns| && bp.code != []
    ensures var e := bp.env.fns[f];
      Flatten(OneCall(e.address, |bp.code| - 1, f, args + Nulls(e.frameSize), bottom, globals, heap))
        == FlatEntry(bp, f, args, globals, heap)
  {
    hide Flatten, OneCall, PushTop;
    var e := bp.env.fns[f];
    OneCallFlat(e.address, |bp.code| - 1, f, args, e.frameSize, bottom, globals, heap);
  }

  lemma OneCallMoves(c: Labelled.Image, f: nat, args: seq<Value>, globals: seq<Value>, heap: Heap)
    requires f < |c.u.env.fns| && c.code != []
    ensures var g := (k: nat) => Offset(Rewrite(c.code), NewPos(c.code, k));
      ByteEntry(c, f, args, globals, heap) ==
        OneCall(g(c.u.env.fns[f].address), g(|c.code| - 1), f, args + Nulls(c.u.env.fns[f].frameSize), g(0), globals,
          heap)
  {
    hide Rewrite, Offset, NewPos;
    var e := Entry(c, f, args, globals, heap);
    assert e == OneCall(c.u.env.fns[f].address, |c.code| - 1, f, args + Nulls(c.u.env.fns[f].frameSize), 0, globals,
      heap);
    assert MapCos([], PP.Moved(c.code)) == [] && MapCos([], ToOffset(Rewrite(c.code))) == [];
  }

  /** Byte code that matches a linked image in what a call from outside needs. */
  ghost predicate Answers(c: Labelled.Image, bp: ByteProgram, f: nat) {
    && f < |c.u.env.fns| && c.code != [] && f < |bp.env.fns| && bp.code != []
    && bp.env.fns[f].address == Offset(Rewrite(c.code), NewPos(c.code, c.u.env.fns[f].address))
    && bp.env.fns[f].frameSize == c.u.env.fns[f].frameSize
    && |bp.code| - 1 == Offset(Rewrite(c.code), NewPos(c.code, |c.code| - 1))
  }

  lemma LoadedAnswers(p: SstProgram, n: nat, frame: FunctionDecl -> nat, ops: HeapOps, f: nat)
    requires Named(p.fns) && f < |p.fns|
    requires FitsFormat(Linkable(p, n), LinkedPool(p, n, frame), StringsOf(Linkable(p, n)))
    ensures Answers(LinkedImage(p, n, frame, ops), Loaded(p, n, frame, ops), f)
  {
    hide CompProgram, Rewrite, StringsOf, Offset, NewPos, Starts, BytesFrom, FitsFormat, Find;
    var code2 := Linkable(p, n);
    EndsInExit(p, n);
    ExitStays(CompProgram(p, n));
    ExitIsLastByte(code2, LinkedPool(p, n, frame), StringsOf(code2));
    FindMoves(CompProgram(p, n), p.fns[f].name);
  }

  lemma EntryMatches(
    c: Labelled.Image, bp: ByteProgram, f: nat, args: seq<Value>, globals: seq<Value>, heap: Heap)
    requires Answers(c, bp, f)
    ensures Flatten(ByteEntry(c, f, args, globals, heap)) == FlatEntry(bp, f, args, globals, heap)
  {
    hide Rewrite, Offset, NewPos, Flatten, OneCall, ByteEntry, FlatEntry;
    OneCallMoves(c, f, args, globals, heap);
    OneCallEnters(bp, f, args, Offset(Rewrite(c.code), NewPos(c.code, 0)), globals, heap);
  }

  lemma EntryIs(
    p: SstProgram, n: nat, frame: FunctionDecl -> nat, ops: HeapOps, f: nat,
    args: seq<Value>, globals: seq<Value>, heap: Heap)
    requires Named(p.fns) && f < |p.fns|
    requires FitsFormat(Linkable(p, n), LinkedPool(p, n, frame), StringsOf(Linkable(p, n)))
    ensures var c := LinkedImage(p, n, frame, ops);
      && c.code != [] && Loaded(p, n, frame, ops).code != []
      && Flatten(ByteEntry(c, f, args, globals, heap)) == FlatEntry(Loaded(p, n, frame, ops), f, args, globals, heap)
  {
    LoadedAnswers(p, n, frame, ops, f);
    EntryMatches(LinkedImage(p, n, frame, ops), Loaded(p, n, frame, ops), f, args, globals, heap);
  }

  lemma EntryWithin(c: Labelled.Image, f: nat, args: seq<Value>, globals: seq<Value>, heap: Heap)
    requires f < |c.u.env.fns| && c.code != [] && Starts(c.code, |c.code| - 1)
    requires forall i :: 0 <= i < |c.u.env.fns| ==> Starts(c.code, c.u.env.fns[i].address)
    ensures PP.InStep(c.code, c.u.env, Entry(c, f, args, globals, heap))
  {
    StartsFirst(c.code);
    hide Starts;
    var e := Entry(c, f, args, globals, heap);
    var A := PP.StartSet(c.code);
    assert e.pc in A && e.top.ret in A && e.below == Under(Act([], [], 0, None, 0), Bottom) && 0 in A;
  }

  lemma EntryInStep(
    p: SstProgram, n: nat,
    frame: FunctionDecl -> nat, ops: HeapOps, f: nat, args: seq<Value>, globals: seq<Value>, heap: Heap)
    requires Named(p.fns) && f < |p.fns| && CompProgram(p, n) != []
    ensures var c := LinkedImage(p, n, frame, ops);
      PP.InStep(c.code, c.u.env, Entry(c, f, args, globals, heap))
  {
    var c := LinkedImage(p, n, frame, ops);
    EndsInExit(p, n);
    ExitStays(c.code);
    hide CompProgram, Rewrite, Find, NewPos, Starts, PP.InStep, Entry;
    forall i | 0 <= i < |c.u.env.fns| ensures Starts(c.code, c.u.env.fns[i].address) {
      FindMoves(c.code, p.fns[i].name);
    }
    EntryWithin(c, f, args, globals, heap);
  }

  lemma EntryFramed(
    env: Env, f: nat, args: seq<Value>, size: nat, pc: nat, ret: nat, bottom: nat, globals: seq<Value>, heap: Heap)
    requires f < |env.fns| && env.fns[f].frameSize == size
    ensures Framed(env, OneCall(pc, ret, f, args + Nulls(size), bottom, globals, heap))
  {
  }

  /** Every run of the loaded program is a run of the compiled one, which takes at least as
      many steps. */
  lemma LoadedRuns(
    p: SstProgram, n: nat, frame: FunctionDecl -> nat, ops: HeapOps, f: nat,
    args: seq<Value>, globals: seq<Value>, heap: Heap, m: nat) returns (k: nat)
    requires Analysed(p) && f < |p.fns|
        && FitsFormat(Linkable(p, n), LinkedPool(p, n, frame), StringsOf(Linkable(p, n)))
    requires CompProgram(p, n) != []
    ensures var c := LinkedImage(p, n, frame, ops);
      k >= m && ByteRun(Loaded(p, n, frame, ops), ByteEntry(c, f, args, globals, heap), m) ==
        MapResult(MapResult(Run(Labelled.Prog(c), Entry(c, f, args, globals, heap), k), PP.Moved(c.code)),
          ToOffset(Rewrite(c.code)))
  {
    var c := LinkedImage(p, n, frame, ops);
    assert Named(p.fns);
    EntryInStep(p, n, frame, ops, f, args, globals, heap);
    LoadedIs(p, n, frame, ops);
    NoOnesIn(p, n);
    hide CompProgram, Rewrite, StringsOf, Find, Offset, NewPos, Starts, BytesFrom, Analysed, PP.InStep, MapState,
      Entry, Run, ByteRun, PP.NoOnes;
    var e, g := Entry(c, f, args, globals, heap), PP.Moved(c.code);
    var env2, code2, pool := MapEnv(c.u.env, g), Rewrite(c.code), StringsOf(Linkable(p, n));
    FitsEither(code2, env2.fns, LinkedPool(p, n, frame), pool);
    var k2 := ByteRuns(code2, env2, pool, MapState(e, g), m);
    k := PP.RewrittenRuns(c.code, c.u.env, e, k2);
  }

  lemma FitsEither(code: seq<Asm>, a: seq<Context>, b: seq<Context>, pool: seq<string>)
    requires |a| == |b| && forall i :: 0 <= i < |a| ==> a[i].name == b[i].name
    requires FitsFormat(code, b, pool)
    ensures FitsFormat(code, a, pool)
  {
    hide Encodable, Placed;
    forall k | 0 <= k < |code| && !code[k].Mark? ensures Encodable(Placed(code, a, code[k]), pool) {
      SamePlaced(code, a, b, code[k]);
    }
  }

  lemma NoOnesIn(p: SstProgram, n: nat)
    requires Analysed(p)
    ensures PP.NoOnes(CompProgram(p, n))
  {
    hide ClosedCode.Tally, CompProgram, NProgram;
    var code := CompProgram(p, n);
    forall i | 0 <= i < |code| ensures code[i] != Prim(NewI(1)) {
      ClosedProgram(p, n, Function(""));
      OneIn(code, i);
    }
  }

  lemma {:induction false} OneIn(code: seq<Asm>, i: nat)
    requires i < |code|
    ensures ClosedCode.Tally(ClosedCode.One, code, Function("")) >= if code[i] == Prim(NewI(1)) then 1 else 0
    decreases |code|
  {
    if i > 0 { OneIn(code[1..], i - 1); } else if |code| > 1 { OneIn(code[1..], 0); }
  }

  /** What a call of function f does in the loaded program, after m instructions. */
  function LoadedRun(
    p: SstProgram, n: nat, frame: FunctionDecl -> nat, ops: HeapOps, f: nat,
    args: seq<Value>, globals: seq<Value>, heap: Heap, m: nat): FlatResult
    requires Named(p.fns) && f < |p.fns| && Loaded(p, n, frame, ops).code != []
  {
    FlatRun(Loaded(p, n, frame, ops), FlatEntry(Loaded(p, n, frame, ops), f, args, globals, heap), m)
  }

  /** What the outcome of a run of compiled code is for the loaded program. */
  predicate SameKind(r: Result, q: FlatResult) {
    match r
    case Next(_) => q.FNext?
    case Halt(v) => q == FHalt(v)
    case Unhandled(m) => q == FUnhandled(m)
    case Wrong(_) => q.FWrong?
  }

  lemma Runnable(p: SstProgram, n: nat, frame: FunctionDecl -> nat, ops: HeapOps)
    requires Named(p.fns) && FitsFormat(Linkable(p, n), LinkedPool(p, n, frame), StringsOf(Linkable(p, n)))
    ensures CompProgram(p, n) != [] && Loaded(p, n, frame, ops).code != []
  {
    EndsInExit(p, n);
    ExitStays(CompProgram(p, n));
    ExitIsLastByte(Linkable(p, n), LinkedPool(p, n, frame), StringsOf(Linkable(p, n)));
    hide CompProgram, Rewrite, StringsOf, BytesFrom, FitsFormat, NewPos, Starts, Offset;
  }

  lemma FromCallable(
    p: SstProgram, n: nat, frame: FunctionDecl -> nat, ops: HeapOps, sh: Shape, f: nat,
    args: seq<Value>, globals: seq<Value>, heap: Heap)
    requires Callable(p, n, frame, ops, sh, f, args, globals, heap)
    ensures Analysed(p) && Named(p.fns) && f < |p.fns| && CompProgram(p, n) != [] && Loaded(p, n, frame, ops).code != []
    ensures Accepted(LinkedImage(p, n, frame, ops), sh, f, args, globals, heap)
    ensures FitsFormat(Linkable(p, n), LinkedPool(p, n, frame), StringsOf(Linkable(p, n)))
  {
    Runnable(p, n, frame, ops);
    hide Analysed, Accepted, FitsFormat, CompProgram, Rewrite, StringsOf, Assembled;
  }

  lemma LoadedMatches(
    p: SstProgram, n: nat, frame: FunctionDecl -> nat, ops: HeapOps, sh: Shape, f: nat,
    args: seq<Value>, globals: seq<Value>, heap: Heap, m: nat) returns (k: nat)
    requires Callable(p, n, frame, ops, sh, f, args, globals, heap)
    ensures Loaded(p, n, frame, ops).code != [] && CompProgram(p, n) != [] && k >= m
    ensures var c := LinkedImage(p, n, frame, ops);
      var r := Run(Labelled.Prog(c), Entry(c, f, args, globals, heap), k);
      !r.Wrong? && SameKind(r, LoadedRun(p, n, frame, ops, f, args, globals, heap, m))
  {
    FromCallable(p, n, frame, ops, sh, f, args, globals, heap);
    hide *;
    var c, bp := LinkedImage(p, n, frame, ops), Loaded(p, n, frame, ops);
    DivergesExactly(c, sh, f, args, globals, heap);
    k := LoadedRuns(p, n, frame, ops, f, args, globals, heap, m);
    EntryIs(p, n, frame, ops, f, args, globals, heap);
    CallFramed(p, n, frame, ops, f, args, globals, heap);
    var r := Run(Labelled.Prog(c), Entry(c, f, args, globals, heap), k);
    SameKindFrom(c, bp, f, args, globals, heap, m, r);
  }

  /** The kind of an outcome is the same on moved code and on the shared stack. */
  lemma SameKindFrom(
    c: Labelled.Image, bp: ByteProgram, f: nat, args: seq<Value>, globals: seq<Value>, heap: Heap, m: nat, r: Result)
    requires f < |c.u.env.fns| && c.code != [] && f < |bp.env.fns| && bp.code != []
    requires ByteRun(bp, ByteEntry(c, f, args, globals, heap), m) ==
      MapResult(MapResult(r, PP.Moved(c.code)), ToOffset(Rewrite(c.code)))
    requires Flatten(ByteEntry(c, f, args, globals, heap)) == FlatEntry(bp, f, args, globals, heap)
    requires Framed(bp.env, ByteEntry(c, f, args, globals, heap)) && !r.Wrong?
    ensures SameKind(r, FlatRun(bp, FlatEntry(bp, f, args, globals, heap), m))
  {
    hide Rewrite, ByteEntry, FlatEntry, ByteRun, FlatRun, Flatten, Framed, MapState;
    FlatRunAgrees(bp, ByteEntry(c, f, args, globals, heap), m);
  }

  lemma CallFramed(
    p: SstProgram, n: nat, frame: FunctionDecl -> nat, ops: HeapOps, f: nat, args: seq<Value>, globals: seq<Value>,
    heap: Heap)
    requires Named(p.fns) && f < |p.fns| && CompProgram(p, n) != []
    ensures Framed(Loaded(p, n, frame, ops).env, ByteEntry(LinkedImage(p, n, frame, ops), f, args, globals, heap))
  {
    var c := LinkedImage(p, n, frame, ops);
    OneCallMoves(c, f, args, globals, heap);
    hide CompProgram, Rewrite, ByteEntry, OneCall, Framed, NewPos, Offset, Find, StringsOf;
    var g := (k: nat) => Offset(Rewrite(c.code), NewPos(c.code, k));
    EntryFramed(Loaded(p, n, frame, ops).env, f, args, frame(p.fns[f]), g(c.u.env.fns[f].address), g(|c.code| - 1),
      g(0), globals, heap);
  }

  lemma KindBack(r: Result, q: FlatResult)
    requires SameKind(r, q) && !r.Wrong?
    ensures q != FWrong && (r.Next? <==> q.FNext?)
    ensures forall v :: r == Halt(v) <==> q == FHalt(v)
    ensures forall m :: r == Unhandled(m) <==> q == FUnhandled(m)
  {
  }

  lemma Ran(c: Labelled.Image, s: State, k: nat)
    ensures Run(Labelled.Prog(c), s, k).Halt? ==> Correctness.Returns(c, s, Run(Labelled.Prog(c), s, k).v)
    ensures Run(Labelled.Prog(c), s, k).Unhandled? ==> Fails(c, s, Run(Labelled.Prog(c), s, k).msg)
  {
  }

  lemma ReturnsAfter(c: Labelled.Image, s: State, v: Value) returns (j: nat)
    requires Correctness.Returns(c, s, v)
    ensures Run(Labelled.Prog(c), s, j) == Halt(v)
  {
    j :| Run(Labelled.Prog(c), s, j) == Halt(v);
  }

  lemma FailsAfter(c: Labelled.Image, s: State, msg: string) returns (j: nat)
    requires Fails(c, s, msg)
    ensures Run(Labelled.Prog(c), s, j) == Unhandled(msg)
  {
    j :| Run(Labelled.Prog(c), s, j) == Unhandled(msg);
  }

  lemma StillRuns(c: Labelled.Image, s: State, k: nat)
    requires Diverges(c, s)
    ensures Run(Labelled.Prog(c), s, k).Next?
  {
  }

  /** The machine that fetches bytes and keeps one stack returns v exactly when the call
      means v. */
  lemma LoadedReturnsExactly(
    p: SstProgram, n: nat, frame: FunctionDecl -> nat, ops: HeapOps, sh: Shape, f: nat,
    args: seq<Value>, globals: seq<Value>, heap: Heap, v: Value)
    requires Callable(p, n, frame, ops, sh, f, args, globals, heap)
    ensures Loaded(p, n, frame, ops).code != []
    ensures (exists m :: LoadedRun(p, n, frame, ops, f, args, globals, heap, m) == FHalt(v))
       <==> exists fuel :: Meaning(LinkedImage(p, n, frame, ops).u, f, args, globals, heap, fuel) == Done([v])
  {
    FromCallable(p, n, frame, ops, sh, f, args, globals, heap);
    hide *;
    var c := LinkedImage(p, n, frame, ops);
    ReturnsExactly(c, sh, f, args, globals, heap, v);
    var s, p0 := Entry(c, f, args, globals, heap), Labelled.Prog(c);
    if exists m :: LoadedRun(p, n, frame, ops, f, args, globals, heap, m) == FHalt(v) {
      var m :| LoadedRun(p, n, frame, ops, f, args, globals, heap, m) == FHalt(v);
      var k := LoadedMatches(p, n, frame, ops, sh, f, args, globals, heap, m);
      KindBack(Run(p0, s, k), LoadedRun(p, n, frame, ops, f, args, globals, heap, m));
      Ran(c, s, k);
    }
    if fuel :| Meaning(c.u, f, args, globals, heap, fuel) == Done([v]) {
      var j := ReturnsAfter(c, s, v);
      var k := LoadedMatches(p, n, frame, ops, sh, f, args, globals, heap, j);
      EndedStays(p0, s, j, k);
      KindBack(Run(p0, s, k), LoadedRun(p, n, frame, ops, f, args, globals, heap, j));
    }
  }

  /** The loaded bytes fail as the labelled machine does. */
  lemma LoadedFails(
    p: SstProgram, n: nat, frame: FunctionDecl -> nat, ops: HeapOps, sh: Shape, f: nat,
    args: seq<Value>, globals: seq<Value>, heap: Heap, msg: string)
    requires Callable(p, n, frame, ops, sh, f, args, globals, heap)
    ensures var c := LinkedImage(p, n, frame, ops);
      && Accepted(c, sh, f, args, globals, heap) && Loaded(p, n, frame, ops).code != []
      && (Fails(c, Entry(c, f, args, globals, heap), msg)
          <==> exists m :: LoadedRun(p, n, frame, ops, f, args, globals, heap, m) == FUnhandled(msg))
  {
    FromCallable(p, n, frame, ops, sh, f, args, globals, heap);
    hide *;
    var c := LinkedImage(p, n, frame, ops);
    var s, p0 := Entry(c, f, args, globals, heap), Labelled.Prog(c);
    if exists m :: LoadedRun(p, n, frame, ops, f, args, globals, heap, m) == FUnhandled(msg) {
      var m :| LoadedRun(p, n, frame, ops, f, args, globals, heap, m) == FUnhandled(msg);
      var k := LoadedMatches(p, n, frame, ops, sh, f, args, globals, heap, m);
      KindBack(Run(p0, s, k), LoadedRun(p, n, frame, ops, f, args, globals, heap, m));
      Ran(c, s, k);
    }
    if Fails(c, s, msg) {
      var j := FailsAfter(c, s, msg);
      var k := LoadedMatches(p, n, frame, ops, sh, f, args, globals, heap, j);
      EndedStays(p0, s, j, k);
      KindBack(Run(p0, s, k), LoadedRun(p, n, frame, ops, f, args, globals, heap, j));
    }
  }

  /** It ends in an unhandled exception exactly when the call raises one, with the string
      that was thrown as its message, or the error that it is no string. */
  lemma LoadedFailsExactly(
    p: SstProgram, n: nat, frame: FunctionDecl -> nat, ops: HeapOps, sh: Shape, f: nat,
    args: seq<Value>, globals: seq<Value>, heap: Heap, msg: string)
    requires Callable(p, n, frame, ops, sh, f, args, globals, heap)
    ensures Loaded(p, n, frame, ops).code != []
    ensures (exists m :: LoadedRun(p, n, frame, ops, f, args, globals, heap, m) == FUnhandled(msg))
       <==> Raises(LinkedImage(p, n, frame, ops).u, f, args, globals, heap, msg)
  {
    LoadedFails(p, n, frame, ops, sh, f, args, globals, heap, msg);
    hide *;
    FailsExactly(LinkedImage(p, n, frame, ops), sh, f, args, globals, heap, msg);
  }

  /** It runs forever exactly when no amount of fuel is enough, and it never does anything
      the source language does not define: no pop from an empty stack, no missing slot or
      frame, no address outside the code. */
  lemma LoadedDivergesExactly(
    p: SstProgram, n: nat, frame: FunctionDecl -> nat, ops: HeapOps, sh: Shape, f: nat,
    args: seq<Value>, globals: seq<Value>, heap: Heap)
    requires Callable(p, n, frame, ops, sh, f, args, globals, heap)
    ensures Loaded(p, n, frame, ops).code != []
    ensures (forall m :: LoadedRun(p, n, frame, ops, f, args, globals, heap, m).FNext?)
       <==> forall fuel :: Meaning(LinkedImage(p, n, frame, ops).u, f, args, globals, heap, fuel) == OutOfFuel
    ensures forall m :: LoadedRun(p, n, frame, ops, f, args, globals, heap, m) != FWrong
  {
    FromCallable(p, n, frame, ops, sh, f, args, globals, heap);
    hide *;
    var c := LinkedImage(p, n, frame, ops);
    DivergesExactly(c, sh, f, args, globals, heap);
    var s, p0 := Entry(c, f, args, globals, heap), Labelled.Prog(c);
    forall m
      ensures LoadedRun(p, n, frame, ops, f, args, globals, heap, m) != FWrong
      ensures Diverges(c, s) ==> LoadedRun(p, n, frame, ops, f, args, globals, heap, m).FNext?
      ensures !Run(p0, s, m).Next? ==> !LoadedRun(p, n, frame, ops, f, args, globals, heap, m).FNext?
    {
      var k := LoadedMatches(p, n, frame, ops, sh, f, args, globals, heap, m);
      KindBack(Run(p0, s, k), LoadedRun(p, n, frame, ops, f, args, globals, heap, m));
      if !Run(p0, s, m).Next? { EndedStays(p0, s, m, k); }
      if Diverges(c, s) { StillRuns(c, s, k); }
    }
  }
}
