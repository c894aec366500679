/** Rewritten code runs like the original. */
module PeepholeProof {
  import opened Values
  import opened Instructions
  import opened Machine
  import opened BigStep
  import opened Labelled
  import opened Relocation
  import opened Peephole

  function Moved(code: seq<Asm>): Move { (i: nat) => NewPos(code, i) }

  ghost function StartSet(code: seq<Asm>): iset<nat> { iset i: nat | Starts(code, i) }

  /** The program, and the program with its code rewritten. */
  function Rewritten(code: seq<Asm>, env: Env): Program { Load(Rewrite(code), MapEnv(env, Moved(code))) }

  /** No literal one is pushed by newi: the patterns for inc and dec do not match. */
  predicate NoOnes(code: seq<Asm>) { forall i :: 0 <= i < |code| ==> code[i] != Prim(NewI(1)) }

  lemma {:induction false} FindFnMap(fns: seq<Context>, l: Label, g: Move)
    ensures FindFn(MapFns(fns, g), l) == FindFn(fns, l)
    decreases |fns|
  {
    if fns != [] {
      assert MapFns(fns, g)[1..] == MapFns(fns[1..], g);
      FindFnMap(fns[1..], l, g);
    }
  }

  lemma ResolveMoves(code: seq<Asm>, fns: seq<Context>, i: Asm)
    ensures ResolveInst(Rewrite(code), MapFns(fns, Moved(code)), i) == MapOp(ResolveInst(code, fns, i), Moved(code))
  {
    hide Rewrite, Find, NewPos, Starts;
    match i
    case Mark(l) => FindMoves(code, l);
    case Goto(l) => FindMoves(code, l);
    case IfElse(l) => FindMoves(code, l);
    case ForNext(l) => FindMoves(code, l);
    case Try(l) => FindMoves(code, l);
    case Call(f) => FindFnMap(fns, f, Moved(code));
    case NewFx(f) => FindFnMap(fns, f, Moved(code));
    case _ =>
  }

  lemma TargetsAreStarts(code: seq<Asm>, fns: seq<Context>, i: Asm)
    ensures TargetsWithin(ResolveInst(code, fns, i), StartSet(code))
  {
    hide Find, NewPos, Starts, Rewrite;
    match i
    case Goto(l) => FindMoves(code, l);
    case IfElse(l) => FindMoves(code, l);
    case ForNext(l) => FindMoves(code, l);
    case Try(l) => FindMoves(code, l);
    case _ =>
  }

  /** Where the rewritten program is when the original is in s. */
  ghost predicate InStep(code: seq<Asm>, env: Env, s: State) {
    Within(s, StartSet(code)) && FnsWithin(env, StartSet(code))
  }

  /** What is to be shown of one step of the rewritten program. */
  ghost predicate Matched(code: seq<Asm>, env: Env, s: State, k: nat) {
    && k >= 1
    && Step(Rewritten(code, env), MapState(s, Moved(code))) == MapResult(Run(Load(code, env), s, k), Moved(code))
    && ResultWithin(Run(Load(code, env), s, k), StartSet(code))
  }

  lemma RunOne(p: Program, s: State)
    ensures Run(p, s, 1) == Step(p, s)
  {
    if Step(p, s).Next? { assert Run(p, Step(p, s).s, 0) == Step(p, s); }
  }

  lemma CopyStep(code: seq<Asm>, env: Env, s: State)
    requires InStep(code, env, s) && s.pc < |code| && Effect(code[s.pc..]) == (1, [code[s.pc]])
    ensures Matched(code, env, s, 1)
  {
    hide Exec, Rewrite, Effect, MapOp, MapEnv, MapResult, MapState, Within, TargetsWithin, FnsWithin, ResolveInst;
    var i, A, g := s.pc, StartSet(code), Moved(code);
    assert Starts(code, i) by { InStart(code, env, s); }
    RewriteAt(code, i);
    hide Starts, NewPos;
    var op := ResolveInst(code, env.fns, code[i]);
    ResolveMoves(code, env.fns, code[i]);
    TargetsAreStarts(code, env.fns, code[i]);
    ExecMap(env, op, i + 1, s, g);
    ExecWithin(env, op, i + 1, s, A);
    RunOne(Load(code, env), s);
    RewrittenStep(code, env, s, code[i]);
  }

  lemma InStart(code: seq<Asm>, env: Env, s: State)
    requires InStep(code, env, s)
    ensures Starts(code, s.pc)
  {
  }

  /** The instruction the rewritten program executes. */
  lemma RewrittenStep(code: seq<Asm>, env: Env, s: State, i: Asm)
    requires NewPos(code, s.pc) < |Rewrite(code)| && Rewrite(code)[NewPos(code, s.pc)] == i
    ensures Step(Rewritten(code, env), MapState(s, Moved(code))) ==
      Exec(MapEnv(env, Moved(code)), ResolveInst(Rewrite(code), MapFns(env.fns, Moved(code)), i),
        NewPos(code, s.pc) + 1,
           MapState(s, Moved(code)))
  {
    hide Exec, Rewrite, NewPos, ResolveInst;
  }

  /** What replaces a pattern mentions no labels and no functions. */
  predicate LabelFree(x: Asm, op: Op) {
    match x
    case LoadK(a) => op == LoadK(a)
    case StoreK(a) => op == StoreK(a)
    case Return => op == Return
    case ReturnNull => op == ReturnNull
    case _ => false
  }

  lemma LabelFreeMoves(code: seq<Asm>, fns: seq<Context>, x: Asm, op: Op, g: Move, A: iset<nat>)
    requires LabelFree(x, op)
    ensures ResolveInst(code, fns, x) == op && MapOp(op, g) == op && TargetsWithin(op, A)
  {
  }

  /** A pattern whose instructions do what its replacement does, k steps. */
  lemma Replaced(code: seq<Asm>, env: Env, s: State, n: nat, x: Asm, op: Op, k: nat)
    requires InStep(code, env, s) && s.pc < |code| && Effect(code[s.pc..]) == (n, [x]) && LabelFree(x, op)
    requires k >= 1 && Run(Load(code, env), s, k) == Exec(env, op, s.pc + n, s)
    ensures Matched(code, env, s, k)
  {
    hide Exec, Rewrite, Effect, MapOp, MapEnv, MapResult, MapState, Within, TargetsWithin, FnsWithin, ResolveInst,
      Load, Run;
    var i, A, g := s.pc, StartSet(code), Moved(code);
    InStart(code, env, s);
    RewriteAt(code, i);
    hide Starts, NewPos;
    LabelFreeMoves(Rewrite(code), MapFns(env.fns, g), x, op, g, A);
    ExecMap(env, op, i + n, s, g);
    ExecWithin(env, op, i + n, s, A);
    RewrittenStep(code, env, s, x);
  }

  /** One instruction that is replaced by one that does the same. */
  lemma OneReplaced(p: Program, s: State, op: Op, next: nat)
    requires s.pc < |p.code| && Exec(p.env, p.code[s.pc], s.pc + 1, s) == Exec(p.env, op, next, s)
    ensures Run(p, s, 1) == Exec(p.env, op, next, s)
  {
    hide Exec;
    RunOne(p, s);
  }

  lemma SameLoad(env: Env, a: nat, next: nat, s: State)
    ensures Exec(env, LoadK(a), next, s) == Exec(env, LoadX(a), next, s)
    ensures Exec(env, StoreK(a), next, s) == Exec(env, StoreX(a), next, s)
  {
    hide ExecLoad, ExecStore;
  }

  lemma ShortStep(code: seq<Asm>, env: Env, s: State)
    requires InStep(code, env, s) && s.pc < |code| && Kind(code[s.pc..]) == Short
    ensures Matched(code, env, s, 1)
  {
    hide Exec, InStep, Matched, Run, Rewrite;
    var i := s.pc;
    assert code[i..][0] == code[i];
    var a := code[i].addr;
    SameLoad(env, a, i + 1, s);
    if code[i].LoadX? {
      OneReplaced(Load(code, env), s, LoadK(a), i + 1);
      Replaced(code, env, s, 1, LoadK(a), LoadK(a), 1);
    } else {
      OneReplaced(Load(code, env), s, StoreK(a), i + 1);
      Replaced(code, env, s, 1, StoreK(a), StoreK(a), 1);
    }
  }

  lemma ReturnIgnoresNext(env: Env, a: nat, b: nat, s: State)
    ensures Exec(env, Return, a, s) == Exec(env, Return, b, s)
    ensures Exec(env, ReturnNull, a, s) == Exec(env, ReturnNull, b, s)
  {
  }

  /** Nothing runs after a return: the null and the second return go. */
  lemma ReturnTwiceStep(code: seq<Asm>, env: Env, s: State)
    requires InStep(code, env, s) && s.pc < |code| && Kind(code[s.pc..]) == ReturnTwice
    ensures Matched(code, env, s, 1)
  {
    hide Exec, InStep, Matched, Run, Rewrite;
    var i := s.pc;
    assert code[i..][0] == code[i];
    ReturnIgnoresNext(env, i + 1, i + 3, s);
    OneReplaced(Load(code, env), s, Return, i + 3);
    Replaced(code, env, s, 3, Return, Return, 1);
  }

  lemma PushNullIs(env: Env, next: nat, s: State)
    ensures Exec(env, Prim(Simple(Nvll)), next, s) == Next(Go(s, next, s.top.temps + [Null]))
  {
    assert Take(s.top.temps, 0) == [] && Drop(s.top.temps, 0) == s.top.temps;
  }

  lemma ReturnIs(env: Env, a: nat, b: nat, s: State, pc: nat)
    ensures Exec(env, Return, a, Go(s, pc, s.top.temps + [Null])) == Exec(env, ReturnNull, b, s)
  {
  }

  /** Pushing null and returning it, in one instruction. */
  lemma NullThenReturn(p: Program, s: State, next: nat)
    requires s.pc + 1 < |p.code| && p.code[s.pc] == Prim(Simple(Nvll)) && p.code[s.pc + 1] == Return
    ensures Run(p, s, 2) == Exec(p.env, ReturnNull, next, s)
  {
    hide Exec;
    var t := Go(s, s.pc + 1, s.top.temps + [Null]);
    PushNullIs(p.env, s.pc + 1, s);
    ReturnIs(p.env, s.pc + 2, next, s, s.pc + 1);
    RunOne(p, t);
    assert Run(p, s, 2) == Run(p, t, 1);
  }

  lemma NullReturnStep(code: seq<Asm>, env: Env, s: State)
    requires InStep(code, env, s) && s.pc < |code|
        && (Kind(code[s.pc..]) == NullReturn || Kind(code[s.pc..]) == NullReturns)
    ensures Matched(code, env, s, 2)
  {
    hide Exec, InStep, Matched, Run, Rewrite;
    var i := s.pc;
    assert code[i..][0] == code[i] && code[i..][1] == code[i + 1];
    var n := Effect(code[i..]).0;
    NullThenReturn(Load(code, env), s, i + n);
    Replaced(code, env, s, n, ReturnNull, ReturnNull, 2);
  }

  lemma EndStep(code: seq<Asm>, env: Env, s: State)
    requires InStep(code, env, s) && s.pc == |code|
    ensures Matched(code, env, s, 1)
  {
    hide Exec, Rewrite, Effect, Within, FnsWithin, ResolveInst;
    InStart(code, env, s);
    RewriteAt(code, s.pc);
    hide Starts, NewPos;
    RunOne(Load(code, env), s);
  }

  /** One step of the rewritten program is one or two steps of the original. */
  lemma RewrittenMatches(code: seq<Asm>, env: Env, s: State) returns (k: nat)
    requires NoOnes(code) && InStep(code, env, s)
    ensures Matched(code, env, s, k)
  {
    hide InStep, Matched, Starts, NewPos;
    k := 1;
    InStart(code, env, s);
    RewriteAt(code, s.pc);
    if s.pc == |code| {
      EndStep(code, env, s);
    } else {
      assert code[s.pc..][0] == code[s.pc];
      match Kind(code[s.pc..])
      case Copy => CopyStep(code, env, s);
      case Short => ShortStep(code, env, s);
      case NullReturns => NullReturnStep(code, env, s); k := 2;
      case NullReturn => NullReturnStep(code, env, s); k := 2;
      case ReturnTwice => ReturnTwiceStep(code, env, s);
      case IncDec(_) => assert false;
    }
  }

  /** Every run of the rewritten program is a run of the original, which takes at least as
      many steps. */
  lemma {:induction false} RewrittenRuns(code: seq<Asm>, env: Env, s: State, m: nat) returns (k: nat)
    requires NoOnes(code) && InStep(code, env, s)
    ensures k >= m
    ensures Run(Rewritten(code, env), MapState(s, Moved(code)), m) == MapResult(Run(Load(code, env), s, k), Moved(code))
    decreases m
  {
    hide Exec, Rewrite, Within, FnsWithin, Load, Step, MapState, NoOnes;
    if m == 0 {
      k := 0;
      return;
    }
    var p, g := Load(code, env), Moved(code);
    var a := RewrittenMatches(code, env, s);
    var r := Run(p, s, a);
    match r
    case Next(t) =>
      var b := RewrittenRuns(code, env, t, m - 1);
      k := a + b;
      RunAdd(p, s, a, b);
    case _ =>
      k := a + m;
      RunAdd(p, s, a, m);
  }

  /** Where the pattern for inc does match it is right for integers and for characters below
      the highest; a bool raises an exception instead of being counted. */
  lemma IncIsAddExactly(ops: HeapOps, v: Value, h: Heap)
    requires Scalar(v) && (v.Char? ==> -128 <= v.c < 128)
    ensures Apply(ops, Simple(Inc), [v], h) == Apply(ops, Simple(Add), [v, Int(1)], h) <==>
        v.Int? || (v.Char? && v.c < 127)
    ensures Apply(ops, Simple(Dec), [v], h) == Apply(ops, Simple(Sub), [v, Int(1)], h) <==>
        v.Int? || (v.Char? && v.c > -128)
  {
    if v.Char? {
      assert Signed8(v.c + 1) == v.c + 1 <==> v.c < 127;
      assert Signed8(v.c - 1) == v.c - 1 <==> v.c > -128;
    }
  }
}
