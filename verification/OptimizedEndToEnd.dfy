/** What the tool ships: a program that was optimized between analysis and code generation,
    with its frames counted after that. Loaded, it does what evaluation of the original
    program says. */
module OptimizedEndToEnd {
  import opened Binary
  import opened Values
  import opened Instructions
  import opened ByteMachine
  import opened Machine
  import opened Sst
  import opened BigStep
  import opened Labelled
  import opened WellFormed
  import opened Correctness
  import opened Optimize
  import opened Programs
  import opened OptimizedPrograms
  import opened Optimized
  import opened Linker
  import opened Linking
  import opened FlatMachine
  import opened Build
  import opened EndToEnd
  import Frames
  import Folding
  import Garbage

  /** The frame link gives a function. */
  function Counted(f: FunctionDecl): nat {
    Frames.TotalAlloc(f.body)
  }

  /** The whole tool from the analysed tree on: optimizing, compiling, rewriting, linking
      and assembling succeed, and give what is loaded. */
  method BuildScript(ff: FloatFolds, p: SstProgram, d: nat, n: nat)
    returns (pool: seq<string>, fns: seq<Context>, bytecode: Option<seq<Byte>>)
    requires Analysed(p)
    ensures bytecode.Some? && Named(OptProgram(ff, p, d).fns)
    ensures forall ops ::
      ByteProgram(bytecode.value, pool, Env(fns, ops)) == Loaded(OptProgram(ff, p, d), n, Counted, ops)
  {
    OptAnalysed(ff, p, d);
    assert Named(OptProgram(ff, p, d).fns);
    hide *;
    pool, fns, bytecode := BuildProgram(OptProgram(ff, p, d), n, Counted);
    forall ops
      ensures ByteProgram(bytecode.value, pool, Env(fns, ops)) == Loaded(OptProgram(ff, p, d), n, Counted, ops)
    {
      LoadedFrom(OptProgram(ff, p, d), n, Counted, ops);
    }
  }

  lemma LoadedFrom(p: SstProgram, n: nat, frame: FunctionDecl -> nat, ops: HeapOps)
    requires Named(p.fns)
    ensures var code, fns := Linkable(p, n), LinkedPool(p, n, frame);
      Loaded(p, n, frame, ops) == ByteProgram(Assembled(code, fns, StringsOf(code)), StringsOf(code), Env(fns, ops))
  {
    hide Linkable, LinkedPool, Assembled, StringsOf;
  }

  /** An analysed program, how floats are folded, how many of its initialisers are
      definitions, the first free number for labels, frames in which the original runs, and
      the operators of the machine. */
  datatype Script = Script(
    ff: FloatFolds, p: SstProgram, d: nat, n: nat, frame: FunctionDecl -> nat, ops: HeapOps)

  /** A function called from outside. */
  datatype Request = Request(f: nat, args: seq<Value>, globals: seq<Value>, heap: Heap)

  function Shipped(s: Script): SstProgram {
    OptProgram(s.ff, s.p, s.d)
  }

  /** The original program, and the optimized one with the frames link gives it. */
  function Before(s: Script): Source
    requires Named(s.p.fns)
  {
    LinkedImage(s.p, s.n, s.frame, s.ops).u
  }

  function After(s: Script): Source
    requires Named(Shipped(s).fns)
  {
    LinkedImage(Shipped(s), s.n, Counted, s.ops).u
  }

  /** The setting of a call: the original program is analysed and accepted, folds and
      decisions are fair and link's counts cover what the optimized bodies use, and all
      operands fit their width in the byte code. */
  ghost predicate Shippable(arrays: bool, s: Script, sh: Shape, c: Request) {
    && Analysed(s.p) && Named(Shipped(s).fns)
    && Accepted(LinkedImage(s.p, s.n, s.frame, s.ops), sh, c.f, c.args, c.globals, c.heap)
    && Optimizable(arrays, s.ff, Before(s), sh) && Intact(arrays, c.heap, c.args, c.globals)
    && Fitting(Shipped(s), s.n)
  }

  ghost predicate Fitting(p: SstProgram, n: nat)
    requires Named(p.fns)
  {
    FitsFormat(Linkable(p, n), LinkedPool(p, n, Counted), StringsOf(Linkable(p, n)))
  }

  /** The loaded program can be called. */
  predicate Startable(s: Script, c: Request) {
    Named(Shipped(s).fns) && c.f < |Shipped(s).fns| && Loaded(Shipped(s), s.n, Counted, s.ops).code != []
  }

  /** What the loaded machine does with the call, after some number of instructions. */
  ghost predicate MachineReturns(s: Script, c: Request, v: Value) {
    && Startable(s, c)
    && exists m :: LoadedRun(Shipped(s), s.n, Counted, s.ops, c.f, c.args, c.globals, c.heap, m) == FHalt(v)
  }

  ghost predicate MachineFails(s: Script, c: Request, msg: string) {
    && Startable(s, c)
    && exists m :: LoadedRun(Shipped(s), s.n, Counted, s.ops, c.f, c.args, c.globals, c.heap, m) == FUnhandled(msg)
  }

  ghost predicate MachineRunsOn(s: Script, c: Request) {
    && Startable(s, c)
    && forall m :: LoadedRun(Shipped(s), s.n, Counted, s.ops, c.f, c.args, c.globals, c.heap, m).FNext?
  }

  ghost predicate MachineKeepsRight(s: Script, c: Request) {
    && Startable(s, c)
    && forall m :: LoadedRun(Shipped(s), s.n, Counted, s.ops, c.f, c.args, c.globals, c.heap, m) != FWrong
  }

  /** What a call means in a program. */
  ghost predicate Gives(u: Source, c: Request, v: Value) {
    exists fuel :: Meaning(u, c.f, c.args, c.globals, c.heap, fuel) == Done([v])
  }

  ghost predicate Throws(u: Source, c: Request, msg: string) {
    Raises(u, c.f, c.args, c.globals, c.heap, msg)
  }

  ghost predicate HasNoEnd(u: Source, c: Request) {
    forall fuel :: Meaning(u, c.f, c.args, c.globals, c.heap, fuel) == OutOfFuel
  }

  /** What the call means in the original program, and in the optimized one. */
  ghost predicate OriginalGives(s: Script, c: Request, v: Value) {
    Named(s.p.fns) && Gives(Before(s), c, v)
  }

  ghost predicate OriginalThrows(s: Script, c: Request, msg: string) {
    Named(s.p.fns) && Throws(Before(s), c, msg)
  }

  ghost predicate OriginalHasNoEnd(s: Script, c: Request) {
    Named(s.p.fns) && HasNoEnd(Before(s), c)
  }

  ghost predicate OptimizedAlike(arrays: bool, s: Script, c: Request) {
    && Named(s.p.fns) && Named(Shipped(s).fns)
    && MeansAlike(arrays, After(s), Before(s), c.f, c.args, c.globals, c.heap)
  }

  lemma AfterIsOptimized(s: Script)
    requires Named(s.p.fns) && Named(Shipped(s).fns)
    ensures OptimizedTo(s.ff, Before(s), After(s))
  {
    hide OptStmt, Frames.TotalAlloc, CompProgram, Find;
    var u, v := Before(s), After(s);
    forall f | 0 <= f < |u.fns| ensures OptimizedAt(s.ff, u, v, f) {
      assert v.fns[f] == OptFunction(s.ff, u.fns[f]);
      assert v.env.fns[f].frameSize == Counted(v.fns[f]);
    }
  }

  lemma AnalysedNamed(p: SstProgram)
    requires Analysed(p)
    ensures Named(p.fns)
  {
  }

  /** The optimized program can be called, and each call means what it meant. */
  lemma ShippedMeansSame(arrays: bool, s: Script, sh: Shape, c: Request)
    requires Shippable(arrays, s, sh, c)
    ensures Callable(Shipped(s), s.n, Counted, s.ops, sh, c.f, c.args, c.globals, c.heap)
    ensures OptimizedAlike(arrays, s, c)
  {
    hide WfFunction, SaneOps, Sane, CompProgram, OptProgram, FitsFormat, Linkable, LinkedPool, StringsOf, Analysed,
      OptimizedTo, Intact, MeansAlike, FrameSuffices, Folding.FairStmt, Garbage.Oblivious, Garbage.MakesSequences,
      Linked, Named, Counted, Pool;
    AnalysedNamed(s.p);
    OptAnalysed(s.ff, s.p, s.d);
    AfterIsOptimized(s);
    ProgramLinks(Shipped(s), s.n, Counted, s.ops);
    OptWellFormedExactly(s.ff, Before(s), After(s), sh);
    assert |Before(s).fns| == |Before(s).env.fns|;
    OptimizedMeansAlike(arrays, s.ff, Before(s), After(s), sh, c.f, c.args, c.globals, c.heap);
    OptAlike(s.ff, Before(s), After(s));
  }

  /** Loaded, the optimized program does what evaluation of the optimized program says. */
  lemma ShippedRuns(s: Script, sh: Shape, c: Request)
    requires Named(Shipped(s).fns)
    requires Callable(Shipped(s), s.n, Counted, s.ops, sh, c.f, c.args, c.globals, c.heap)
    ensures forall v :: MachineReturns(s, c, v) <==> Gives(After(s), c, v)
    ensures forall msg :: MachineFails(s, c, msg) <==> Throws(After(s), c, msg)
    ensures MachineRunsOn(s, c) <==> HasNoEnd(After(s), c)
    ensures MachineKeepsRight(s, c)
  {
    hide Callable, Shipped, LinkedImage, Meaning, LoadedRun, Loaded, Analysed, Accepted, FitsFormat, Named,
      Counted, Linkable, LinkedPool, StringsOf, Startable;
    StartableIf(s, sh, c);
    forall v ensures MachineReturns(s, c, v) <==> Gives(After(s), c, v) {
      LoadedReturnsExactly(Shipped(s), s.n, Counted, s.ops, sh, c.f, c.args, c.globals, c.heap, v);
    }
    forall msg ensures MachineFails(s, c, msg) <==> Throws(After(s), c, msg) {
      LoadedFailsExactly(Shipped(s), s.n, Counted, s.ops, sh, c.f, c.args, c.globals, c.heap, msg);
    }
    LoadedDivergesExactly(Shipped(s), s.n, Counted, s.ops, sh, c.f, c.args, c.globals, c.heap);
  }

  lemma StartableIf(s: Script, sh: Shape, c: Request)
    requires Named(Shipped(s).fns)
    requires Callable(Shipped(s), s.n, Counted, s.ops, sh, c.f, c.args, c.globals, c.heap)
    ensures Startable(s, c)
  {
    hide Callable, Shipped, Loaded, Linkable, LinkedPool, StringsOf, FitsFormat, Analysed, Accepted, LinkedImage,
      CompProgram, Counted, Named;
    FromCallable(Shipped(s), s.n, Counted, s.ops, sh, c.f, c.args, c.globals, c.heap);
  }

  /** Programs that mean the same give the same, throw the same and run on alike. */
  lemma AlikeGive(arrays: bool, v: Source, u: Source, c: Request)
    requires MeansAlike(arrays, v, u, c.f, c.args, c.globals, c.heap)
    ensures forall x :: Gives(v, c, x) ==> exists y :: Gives(u, c, y) && AlikeValue(arrays, c.heap, x, y)
    ensures forall y :: Gives(u, c, y) ==> exists x :: Gives(v, c, x) && AlikeValue(arrays, c.heap, x, y)
    ensures forall msg :: Throws(v, c, msg) <==> Throws(u, c, msg)
    ensures HasNoEnd(v, c) <==> HasNoEnd(u, c)
  {
    hide Meaning, EndsAlike, AlikeValue;
    forall x | Gives(v, c, x) ensures exists y :: Gives(u, c, y) && AlikeValue(arrays, c.heap, x, y) {
      var fuel :| Meaning(v, c.f, c.args, c.globals, c.heap, fuel) == Done([x]);
      var o := Meaning(u, c.f, c.args, c.globals, c.heap, fuel);
      ReturnsAlike(arrays, c.heap, Done([x]), o);
      assert o == Done([o.vs[0]]);
      assert Gives(u, c, o.vs[0]);
    }
    forall y | Gives(u, c, y) ensures exists x :: Gives(v, c, x) && AlikeValue(arrays, c.heap, x, y) {
      var fuel :| Meaning(u, c.f, c.args, c.globals, c.heap, fuel) == Done([y]);
      var o := Meaning(v, c.f, c.args, c.globals, c.heap, fuel);
      ReturnsAlike(arrays, c.heap, o, Done([y]));
      assert o == Done([o.vs[0]]);
      assert Gives(v, c, o.vs[0]);
    }
    AlikeEnds(arrays, v, u, c);
    forall msg ensures Throws(v, c, msg) <==> Throws(u, c, msg) {
      RaisesAlike(u, v, c.f, c.args, c.globals, c.heap, msg);
    }
  }

  lemma AlikeEnds(arrays: bool, v: Source, u: Source, c: Request)
    requires MeansAlike(arrays, v, u, c.f, c.args, c.globals, c.heap)
    ensures forall fuel ::
      var x := Meaning(v, c.f, c.args, c.globals, c.heap, fuel);
      var y := Meaning(u, c.f, c.args, c.globals, c.heap, fuel);
      && x.OutOfFuel? == y.OutOfFuel? && x.Raised? == y.Raised? && (x.Raised? ==> SameMessage(x.x, y.x))
  {
    hide Meaning, EndsAlike;
    forall fuel
      ensures var x := Meaning(v, c.f, c.args, c.globals, c.heap, fuel);
        var y := Meaning(u, c.f, c.args, c.globals, c.heap, fuel);
        && x.OutOfFuel? == y.OutOfFuel? && x.Raised? == y.Raised? && (x.Raised? ==> SameMessage(x.x, y.x))
    {
      var x := Meaning(v, c.f, c.args, c.globals, c.heap, fuel);
      ReturnsAlike(arrays, c.heap, x, Meaning(u, c.f, c.args, c.globals, c.heap, fuel));
    }
  }

  /** All about a call of the shipped program. */
  lemma ShippedDoes(arrays: bool, s: Script, sh: Shape, c: Request)
    requires Callable(Shipped(s), s.n, Counted, s.ops, sh, c.f, c.args, c.globals, c.heap)
    requires OptimizedAlike(arrays, s, c)
    ensures forall x :: MachineReturns(s, c, x) ==>
        exists y :: OriginalGives(s, c, y) && AlikeValue(arrays, c.heap, x, y)
    ensures forall y :: OriginalGives(s, c, y) ==>
        exists x :: MachineReturns(s, c, x) && AlikeValue(arrays, c.heap, x, y)
    ensures forall msg :: MachineFails(s, c, msg) <==> OriginalThrows(s, c, msg)
    ensures MachineRunsOn(s, c) <==> OriginalHasNoEnd(s, c)
    ensures MachineKeepsRight(s, c)
  {
    hide Callable, Shipped, Before, After, MachineReturns, MachineFails, MachineRunsOn, MachineKeepsRight, AlikeValue,
      MeansAlike, Gives, Throws, HasNoEnd, Named, Counted;
    ShippedRuns(s, sh, c);
    AlikeGive(arrays, After(s), Before(s), c);
    forall x | MachineReturns(s, c, x) ensures exists y :: OriginalGives(s, c, y) && AlikeValue(arrays, c.heap, x, y) {
      var y :| Gives(Before(s), c, y) && AlikeValue(arrays, c.heap, x, y);
      assert OriginalGives(s, c, y);
    }
  }

  /** Loaded, the optimized program returns just what evaluation of the original gives, but
      for garbage where arrays were dropped. */
  lemma ShippedReturnsExactly(arrays: bool, s: Script, sh: Shape, c: Request)
    requires Shippable(arrays, s, sh, c)
    ensures forall x :: MachineReturns(s, c, x) ==>
        exists y :: OriginalGives(s, c, y) && AlikeValue(arrays, c.heap, x, y)
    ensures forall y :: OriginalGives(s, c, y) ==>
        exists x :: MachineReturns(s, c, x) && AlikeValue(arrays, c.heap, x, y)
  {
    hide *;
    ShippedMeansSame(arrays, s, sh, c);
    ShippedDoes(arrays, s, sh, c);
  }

  /** A number, a string, a truth value or null is returned exactly when evaluation of the
      original gives it; without dropped arrays, any value is. */
  lemma ShippedReturnsPlain(arrays: bool, s: Script, sh: Shape, c: Request, v: Value)
    requires Shippable(arrays, s, sh, c) && (arrays ==> !v.Ref? && !v.Fn?)
    ensures MachineReturns(s, c, v) <==> OriginalGives(s, c, v)
  {
    hide *;
    ShippedReturnsExactly(arrays, s, sh, c);
    forall x, y | AlikeValue(arrays, c.heap, x, y) && (x == v || y == v) ensures x == y {
      AlikePlain(arrays, c.heap, x, y);
    }
  }

  /** It ends in an unhandled exception with a message exactly when evaluation of the
      original raises one with that message. */
  lemma ShippedFailsExactly(arrays: bool, s: Script, sh: Shape, c: Request, msg: string)
    requires Shippable(arrays, s, sh, c)
    ensures MachineFails(s, c, msg) <==> OriginalThrows(s, c, msg)
  {
    hide *;
    ShippedMeansSame(arrays, s, sh, c);
    ShippedDoes(arrays, s, sh, c);
  }

  /** It runs forever exactly when evaluation of the original has no end, and it never does
      anything the source language does not define. */
  lemma ShippedDivergesExactly(arrays: bool, s: Script, sh: Shape, c: Request)
    requires Shippable(arrays, s, sh, c)
    ensures MachineRunsOn(s, c) <==> OriginalHasNoEnd(s, c)
    ensures MachineKeepsRight(s, c)
  {
    hide *;
    ShippedMeansSame(arrays, s, sh, c);
    ShippedDoes(arrays, s, sh, c);
  }
}
