/** Compiling preserves meaning: a function called on the machine returns a value,
    ends in an unhandled exception or runs forever exactly when evaluation says so. */
module Correctness {
  import opened Values
  import opened Instructions
  import opened Machine
  import opened BigStep
  import opened Labelled
  import opened Simulation
  import opened CompilerProof
  import opened WellFormed

  /** A linked program ends with the exit that calls from outside return to. */
  ghost predicate Executable(c: Image) {
    Linked(c) && c.code != [] && c.code[|c.code| - 1] == Exit
  }

  /** A call from outside: nothing on the stack, and the exit is where it returns to. */
  function Caller(globals: seq<Value>, heap: Heap): State {
    State(0, globals, Act([], [], 0, None, 0), Bottom, heap, [])
  }

  function Entry(c: Image, f: nat, args: seq<Value>, globals: seq<Value>, heap: Heap): State
    requires f < |c.u.env.fns| && c.code != []
  {
    PushFrame(c.u.env, Caller(globals, heap), f, args, |c.code| - 1)
  }

  /** What the call means, if this much fuel is enough to tell. */
  function Meaning(u: Source, f: nat, args: seq<Value>, globals: seq<Value>, heap: Heap, fuel: nat): Out {
    EvalCall(u, Target(f, args, heap), World(globals, [], heap), fuel).out
  }

  ghost predicate Returns(c: Image, s: State, v: Value) {
    exists k :: Run(Prog(c), s, k) == Halt(v)
  }

  ghost predicate Fails(c: Image, s: State, msg: string) {
    exists k :: Run(Prog(c), s, k) == Unhandled(msg)
  }

  /** The call raises the string msg, or something that is no string, and msg says that. */
  ghost predicate Raises(u: Source, f: nat, args: seq<Value>, globals: seq<Value>, heap: Heap, msg: string) {
    exists fuel, x :: Meaning(u, f, args, globals, heap, fuel) == Raised(x)
                      && (x == Str(msg) || (!x.Str? && msg == "Invalid cast to String"))
  }

  ghost predicate Diverges(c: Image, s: State) {
    forall k :: Run(Prog(c), s, k).Next?
  }

  /** A run that has ended stays as it is. */
  lemma EndedStays(p: Program, s: State, a: nat, b: nat)
    requires a <= b && !Run(p, s, a).Next?
    ensures Run(p, s, b) == Run(p, s, a)
  {
    RunAdd(p, s, a, b - a);
  }

  /** Back at the exit, the machine stops with the value of the call. */
  lemma ExitStep(c: Image, t: State, v: Value)
    requires Executable(c) && t.pc == |c.code| - 1 && t.top.temps == [v]
    ensures Run(Prog(c), t, 1) == Halt(v)
  {
    hide Linked, Run;
    StepAt(c, t.pc, [Exit], 0, t);
  }

  lemma Uncaught(c: Image, s: State, x: Value)
    requires s.below.Bottom?
    ensures Unwind(c.u.env, s, x) == Unhandled(MessageOf(x))
  {
  }

  /** After the call the machine exits with the value, or the exception finds no handler. */
  lemma {:induction false} CallRuns(
    c: Image, f: nat, args: seq<Value>, globals: seq<Value>, heap: Heap, fuel: nat) returns (k: nat)
    requires Executable(c) && f < |c.u.env.fns|
    ensures match Meaning(c.u, f, args, globals, heap, fuel)
      case Done(vs) => |vs| == 1 ==> Run(Prog(c), Entry(c, f, args, globals, heap), k) == Halt(vs[0])
      case Raised(x) => Run(Prog(c), Entry(c, f, args, globals, heap), k) == Unhandled(MessageOf(x))
      case OutOfFuel => Run(Prog(c), Entry(c, f, args, globals, heap), fuel).Next?
      case _ => true
  {
    hide EvalCall, Linked, Run, Unwind, Load, MessageOf, PopFrame;
    var s, exit := Caller(globals, heap), |c.code| - 1;
    var start := Entry(c, f, args, globals, heap);
    k := CallSim(c, start, s, f, args, exit, [], fuel);
    assert WorldOf(s) == World(globals, [], heap);
    var r := EvalCall(c.u, Target(f, args, heap), World(globals, [], heap), fuel);
    match r.out
    case Done(vs) =>
      if |vs| == 1 {
        var t := Put(s, r.w, exit, [] + vs);
        assert [] + vs == [vs[0]];
        ExitStep(c, t, vs[0]);
        RunAdd(Prog(c), start, k, 1);
        k := k + 1;
      }
    case Raised(x) => Uncaught(c, Put(s, r.w, 0, []), x);
    case OutOfFuel =>
      if !Run(Prog(c), start, fuel).Next? { EndedStays(Prog(c), start, fuel, k); }
    case _ =>
  }

  /** The setting of a call from outside that the static analysis accepts. */
  ghost predicate Accepted(c: Image, sh: Shape, f: nat, args: seq<Value>, globals: seq<Value>, heap: Heap) {
    && Executable(c) && !sh.suspends && WfSource(c.u, sh) && SaneOps(sh, c.u.env.ops)
    && f < |c.u.env.fns| && |args| == Arity(c.u.env.fns[f]) + sh.captures[f]
    && AllSane(sh, args) && |globals| == sh.globals && AllSane(sh, globals) && SaneHeap(sh, heap)
  }

  lemma MeaningKinds(c: Image, sh: Shape, f: nat, args: seq<Value>, globals: seq<Value>, heap: Heap, fuel: nat)
    requires Accepted(c, sh, f, args, globals, heap)
    ensures var o := Meaning(c.u, f, args, globals, heap, fuel);
      o.OutOfFuel? || o.Raised? || (o.Done? && |o.vs| == 1)
  {
    hide EvalStmt, WfFunction, SaneOps, Sane, CodeAt;
    var w := World(globals, [], heap);
    GoodCall(c.u, sh, Target(f, args, heap), w, 0, fuel);
  }

  /** The machine returns v exactly when the call means v. */
  lemma ReturnsExactly(c: Image, sh: Shape, f: nat, args: seq<Value>, globals: seq<Value>, heap: Heap, v: Value)
    requires Accepted(c, sh, f, args, globals, heap)
    ensures Returns(c, Entry(c, f, args, globals, heap), v)
       <==> exists fuel :: Meaning(c.u, f, args, globals, heap, fuel) == Done([v])
  {
    hide EvalCall, Linked, Run, WfSource, SaneOps, Meaning, Load;
    var s := Entry(c, f, args, globals, heap);
    if fuel :| Meaning(c.u, f, args, globals, heap, fuel) == Done([v]) {
      var k := CallRuns(c, f, args, globals, heap, fuel);
      assert Run(Prog(c), s, k) == Halt(v);
    }
    if Returns(c, s, v) {
      var k :| Run(Prog(c), s, k) == Halt(v);
      MeaningKinds(c, sh, f, args, globals, heap, k);
      var m := CallRuns(c, f, args, globals, heap, k);
      EndedStays(Prog(c), s, k, k + m);
      if !Run(Prog(c), s, m).Next? { EndedStays(Prog(c), s, m, k + m); }
      var o := Meaning(c.u, f, args, globals, heap, k);
      assert o.Done? && o.vs == [v];
    }
  }

  /** The machine ends in an unhandled exception exactly when the call raises one: its
      message is the string that was thrown, or says that there is none. */
  lemma FailsExactly(c: Image, sh: Shape, f: nat, args: seq<Value>, globals: seq<Value>, heap: Heap, msg: string)
    requires Accepted(c, sh, f, args, globals, heap)
    ensures Fails(c, Entry(c, f, args, globals, heap), msg) <==> Raises(c.u, f, args, globals, heap, msg)
  {
    hide EvalCall, Linked, Run, WfSource, SaneOps, Meaning, Load;
    var s := Entry(c, f, args, globals, heap);
    if fuel, x :| Meaning(c.u, f, args, globals, heap, fuel) == Raised(x)
                  && (x == Str(msg) || (!x.Str? && msg == "Invalid cast to String"))
    {
      var k := CallRuns(c, f, args, globals, heap, fuel);
      assert Run(Prog(c), s, k) == Unhandled(msg);
    }
    if Fails(c, s, msg) {
      var k :| Run(Prog(c), s, k) == Unhandled(msg);
      MeaningKinds(c, sh, f, args, globals, heap, k);
      var m := CallRuns(c, f, args, globals, heap, k);
      EndedStays(Prog(c), s, k, k + m);
      if !Run(Prog(c), s, m).Next? { EndedStays(Prog(c), s, m, k + m); }
      var o := Meaning(c.u, f, args, globals, heap, k);
      assert o == Raised(o.x);
    }
  }

  /** The machine runs forever exactly when no amount of fuel is enough, and it never goes wrong. */
  lemma DivergesExactly(c: Image, sh: Shape, f: nat, args: seq<Value>, globals: seq<Value>, heap: Heap)
    requires Accepted(c, sh, f, args, globals, heap)
    ensures Diverges(c, Entry(c, f, args, globals, heap))
       <==> forall fuel :: Meaning(c.u, f, args, globals, heap, fuel) == OutOfFuel
    ensures forall k :: !Run(Prog(c), Entry(c, f, args, globals, heap), k).Wrong?
  {
    hide EvalCall, Linked, Run, WfSource, SaneOps, Meaning, Load;
    var s := Entry(c, f, args, globals, heap);
    forall k
      ensures !Run(Prog(c), s, k).Wrong?
      ensures Meaning(c.u, f, args, globals, heap, k) == OutOfFuel ==> Run(Prog(c), s, k).Next?
      ensures Meaning(c.u, f, args, globals, heap, k) != OutOfFuel ==> exists m :: !Run(Prog(c), s, m).Next?
    {
      MeaningKinds(c, sh, f, args, globals, heap, k);
      var m := CallRuns(c, f, args, globals, heap, k);
      if Meaning(c.u, f, args, globals, heap, k) != OutOfFuel {
        if k <= m && !Run(Prog(c), s, k).Next? { EndedStays(Prog(c), s, k, m); }
        if m < k { EndedStays(Prog(c), s, m, k); }
      }
    }
  }
}
