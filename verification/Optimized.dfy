/** Optimizing a whole program, with the frames counted again, preserves what it does. */
module Optimized {
  import opened Values
  import opened Machine
  import opened BigStep
  import opened Labelled
  import opened WellFormed
  import opened Correctness
  import opened Optimize
  import opened Folding
  import opened Garbage
  import opened Frames
  import opened OptimizedFrames
  import Tracking

  /** v is u with optimized bodies and the frames link computes for these; its code lies
      elsewhere. */
  ghost predicate OptimizedTo(ff: FloatFolds, u: Source, v: Source) {
    && |u.fns| == |u.env.fns| == |v.fns| == |v.env.fns| && u.env.ops == v.env.ops
    && forall f :: 0 <= f < |u.fns| ==> OptimizedAt(ff, u, v, f)
  }

  ghost predicate OptimizedAt(ff: FloatFolds, u: Source, v: Source, f: nat)
    requires |u.fns| == |u.env.fns| == |v.fns| == |v.env.fns| && f < |u.fns|
  {
    && v.fns[f] == u.fns[f].(body := OptStmt(ff, u.fns[f].body))
    && v.env.fns[f] == u.env.fns[f].(address := v.env.fns[f].address, frameSize := TotalAlloc(v.fns[f].body))
  }

  /** The count of the optimized body covers the slots that body and except block use. */
  predicate FrameSuffices(ff: FloatFolds, u: Source, sh: Shape, f: nat)
    requires f < |u.fns| && f < |u.env.fns| && f < |sh.captures|
  {
    var fn, body := u.fns[f], OptStmt(ff, u.fns[f].body);
    && UsedStmt(body) <= Arity(u.env.fns[f]) + sh.captures[f] + TotalAlloc(body)
    && (fn.except.Some? ==> UsedStmt(fn.except.value) <= 1 + TotalAlloc(body))
  }

  /** No fold and no decision in the program is unfair; arrays says whether arrays may be
      dropped. */
  ghost predicate Optimizable(arrays: bool, ff: FloatFolds, u: Source, sh: Shape)
    requires |u.fns| == |u.env.fns| == |sh.captures|
  {
    && (arrays ==> Oblivious(u.env.ops) && MakesSequences(u.env.ops))
    && forall f :: 0 <= f < |u.fns| ==> FairStmt(arrays, ff, u.fns[f].body) && FrameSuffices(ff, u, sh, f)
  }

  lemma OptAlike(ff: FloatFolds, u: Source, v: Source)
    requires OptimizedTo(ff, u, v)
    ensures Alike(u, v)
  {
    hide OptStmt, TotalAlloc;
    forall f | 0 <= f < |u.env.fns|
      ensures u.env.fns[f].name == v.env.fns[f].name && Arity(u.env.fns[f]) == Arity(v.env.fns[f])
    {
      assert OptimizedAt(ff, u, v, f);
    }
    forall l ensures FindFn(u.env.fns, l) == FindFn(v.env.fns, l) {
      Tracking.SameFunctions(u.env.fns, v.env.fns, l);
    }
  }

  /** The optimized program keeps within the frames link computes for it just when the
      counts cover the slots its bodies use. */
  lemma OptWellFormedExactly(ff: FloatFolds, u: Source, v: Source, sh: Shape)
    requires OptimizedTo(ff, u, v) && WfSource(u, sh)
    ensures WfSource(v, sh) <==> forall f :: 0 <= f < |u.fns| ==> FrameSuffices(ff, u, sh, f)
  {
    hide WfStmt, FairStmt, OptStmt, TotalAlloc, UsedStmt, Alike, FindFn, FrameSuffices, WfFunction;
    forall f | 0 <= f < |u.fns| ensures WfFunction(v, sh, f) <==> FrameSuffices(ff, u, sh, f) {
      assert WfFunction(u, sh, f) && OptimizedAt(ff, u, v, f);
      FunctionExactly(ff, u, v, sh, f);
    }
  }

  lemma FunctionExactly(ff: FloatFolds, u: Source, v: Source, sh: Shape, f: nat)
    requires OptimizedTo(ff, u, v) && f < |u.fns| && f < |sh.captures| && OptimizedAt(ff, u, v, f)
    requires WfFunction(u, sh, f)
    ensures WfFunction(v, sh, f) <==> FrameSuffices(ff, u, sh, f)
  {
    hide WfStmt, FairStmt, OptStmt, TotalAlloc, UsedStmt, Alike, FindFn;
    OptAlike(ff, u, v);
    var n, was := Arity(u.env.fns[f]) + sh.captures[f], u.env.fns[f].frameSize;
    var size := TotalAlloc(OptStmt(ff, u.fns[f].body));
    OptStmtBoundExactly(u, v, sh, ff, u.fns[f].body, n + was, {}, n);
    if u.fns[f].except.Some? {
      StmtExactly(u, v, sh, u.fns[f].except.value, 1 + was, {}, 1 + size);
    }
  }

  lemma OptTwinned(arrays: bool, ff: FloatFolds, u: Source, v: Source, sh: Shape)
    requires OptimizedTo(ff, u, v) && |u.fns| == |sh.captures| && Optimizable(arrays, ff, u, sh)
    ensures Tracking.Twinned(arrays, Tracking.Twins(ff, v, u, sh))
  {
    hide OptStmt, FairStmt, FrameSuffices, Oblivious, MakesSequences, TotalAlloc;
    var t := Tracking.Twins(ff, v, u, sh);
    forall f | 0 <= f < |u.fns| ensures Tracking.TwinAt(arrays, t, f) { assert OptimizedAt(ff, u, v, f); }
  }

  /** All objects, each corresponding to itself; without arrays nothing is dropped, so
      heaps are the same. */
  function Everything(arrays: bool, heap: Heap): Link {
    if arrays then Some(map i | i in heap :: i) else None
  }

  /** All that these values and the objects refer to exists. */
  ghost predicate Intact(arrays: bool, heap: Heap, args: seq<Value>, globals: seq<Value>) {
    var k := Everything(arrays, heap);
    AllSame(k, args, args) && AllSame(k, globals, globals) && SameHeap(k, heap, heap)
  }

  /** The same value but for what garbage there is: objects of the optimized run for those
      of the original, and what was there before the call is itself. */
  ghost predicate AlikeValue(arrays: bool, heap: Heap, x: Value, y: Value) {
    exists l :: Grown(Everything(arrays, heap), l) && Same(l, x, y)
  }

  /** Values that are no objects and no functions are alike only to themselves, and so are
      all where no arrays are dropped. */
  lemma AlikePlain(arrays: bool, heap: Heap, x: Value, y: Value)
    requires AlikeValue(arrays, heap, x, y)
    ensures !arrays || (!x.Ref? && !x.Fn?) || (!y.Ref? && !y.Fn?) ==> x == y
  {
    var l :| Grown(Everything(arrays, heap), l) && Same(l, x, y);
    SameKind(l, x, y);
  }

  /** A call of f with nothing on the stack. */
  function Called(u: Source, f: nat, args: seq<Value>, globals: seq<Value>, heap: Heap, fuel: nat): Res {
    EvalCall(u, Target(f, args, heap), World(globals, [], heap), fuel)
  }

  /** A call of the optimized program ends as it does in the original: same outcome,
      same globals and same contents of all objects, but for garbage if arrays were
      dropped. */
  lemma OptimizedMeansSame(
    arrays: bool, ff: FloatFolds, u: Source, v: Source, sh: Shape,
    f: nat, args: seq<Value>, globals: seq<Value>, heap: Heap, fuel: nat) returns (l: Link)
    requires OptimizedTo(ff, u, v) && WfSource(u, sh) && Optimizable(arrays, ff, u, sh)
    requires !sh.suspends && SaneOps(sh, u.env.ops) && Intact(arrays, heap, args, globals)
    requires f < |u.fns| && |args| == Arity(u.env.fns[f]) + sh.captures[f] && AllSane(sh, args)
    requires |globals| == sh.globals && AllSane(sh, globals) && SaneHeap(sh, heap)
    ensures Grown(Everything(arrays, heap), l)
    ensures SameRes(l, Called(v, f, args, globals, heap, fuel), Called(u, f, args, globals, heap, fuel))
    ensures !arrays ==> Meaning(v, f, args, globals, heap, fuel) == Meaning(u, f, args, globals, heap, fuel)
  {
    hide EvalCall, WfFunction, SaneOps, Sane, OptStmt, OptimizedAt, FairStmt, FrameSuffices, Tracking.Twinned,
      Oblivious, MakesSequences, SameHeap;
    OptWellFormedExactly(ff, u, v, sh);
    OptTwinned(arrays, ff, u, v, sh);
    OptAlike(ff, u, v);
    var w, i := World(globals, [], heap), Target(f, args, heap);
    assert w.(heap := i.heap) == w;
    l := Tracking.CallTracks(Everything(arrays, heap), Tracking.Twins(ff, v, u, sh), i, i, w, w, fuel);
    if !arrays {
      SameExactly(Called(v, f, args, globals, heap, fuel).out, Called(u, f, args, globals, heap, fuel).out);
    }
  }

  lemma SameExactly(x: Out, y: Out)
    requires SameOut(None, x, y)
    ensures x == y
  {
  }

  /** Two calls that mean the same but for garbage. */
  ghost predicate MeansAlike(
    arrays: bool, v: Source, u: Source, f: nat, args: seq<Value>, globals: seq<Value>, heap: Heap)
  {
    forall fuel :: EndsAlike(arrays, heap, Meaning(v, f, args, globals, heap, fuel),
      Meaning(u, f, args, globals, heap, fuel))
  }

  ghost predicate EndsAlike(arrays: bool, heap: Heap, x: Out, y: Out) {
    exists l :: Grown(Everything(arrays, heap), l) && SameOut(l, x, y)
  }

  /** Exceptions that are the same string, or no strings. */
  predicate SameMessage(x: Value, y: Value) {
    x.Str? || y.Str? ==> x == y
  }

  lemma ReturnsAlike(arrays: bool, heap: Heap, x: Out, y: Out)
    requires EndsAlike(arrays, heap, x, y)
    ensures x.Done? == y.Done? && x.Raised? == y.Raised? && x.OutOfFuel? == y.OutOfFuel?
    ensures x.Done? ==> |x.vs| == |y.vs| && forall i :: 0 <= i < |x.vs| ==> AlikeValue(arrays, heap, x.vs[i], y.vs[i])
    ensures x.Raised? ==> SameMessage(x.x, y.x)
  {
    var l :| Grown(Everything(arrays, heap), l) && SameOut(l, x, y);
    if x.Done? {
      forall i | 0 <= i < |x.vs| ensures AlikeValue(arrays, heap, x.vs[i], y.vs[i]) {
        assert Same(l, x.vs[i], y.vs[i]);
      }
    }
    if x.Raised? { SameKind(l, x.x, y.x); }
  }

  lemma OptimizedMeansAlike(
    arrays: bool, ff: FloatFolds, u: Source, v: Source, sh: Shape,
    f: nat, args: seq<Value>, globals: seq<Value>, heap: Heap)
    requires OptimizedTo(ff, u, v) && WfSource(u, sh) && Optimizable(arrays, ff, u, sh)
    requires !sh.suspends && SaneOps(sh, u.env.ops) && Intact(arrays, heap, args, globals)
    requires f < |u.fns| && |args| == Arity(u.env.fns[f]) + sh.captures[f] && AllSane(sh, args)
    requires |globals| == sh.globals && AllSane(sh, globals) && SaneHeap(sh, heap)
    ensures MeansAlike(arrays, v, u, f, args, globals, heap)
  {
    hide OptimizedTo, WfSource, Optimizable, Intact, SaneOps, Sane, EvalCall;
    forall fuel
      ensures EndsAlike(arrays, heap, Meaning(v, f, args, globals, heap, fuel),
        Meaning(u, f, args, globals, heap, fuel))
    {
      var l := OptimizedMeansSame(arrays, ff, u, v, sh, f, args, globals, heap, fuel);
    }
  }

  /** The machine running the compiled optimized program d returns what it returns running
      the program c compiled without optimizing, fails with the same message and runs
      forever just when that does. */
  lemma OptimizedRunsSame(
    arrays: bool, ff: FloatFolds, c: Image, d: Image, sh: Shape, f: nat,
    args: seq<Value>, globals: seq<Value>, heap: Heap)
    requires Accepted(c, sh, f, args, globals, heap) && Executable(d)
    requires OptimizedTo(ff, c.u, d.u) && Optimizable(arrays, ff, c.u, sh) && Intact(arrays, heap, args, globals)
    ensures f < |d.u.env.fns|
    ensures var s, t := Entry(c, f, args, globals, heap), Entry(d, f, args, globals, heap);
      && (forall x :: Returns(d, t, x) ==> exists y :: Returns(c, s, y) && AlikeValue(arrays, heap, x, y))
      && (forall y :: Returns(c, s, y) ==> exists x :: Returns(d, t, x) && AlikeValue(arrays, heap, x, y))
      && (forall m :: Fails(d, t, m) <==> Fails(c, s, m))
      && (Diverges(d, t) <==> Diverges(c, s))
  {
    hide Meaning, WfFunction, SaneOps, Sane, Entry, Linked, OptimizedAt, FairStmt, FrameSuffices, Returns, Fails,
      Diverges, Oblivious, MakesSequences, MeansAlike, AlikeValue, SameHeap;
    OptWellFormedExactly(ff, c.u, d.u, sh);
    OptAlike(ff, c.u, d.u);
    OptimizedMeansAlike(arrays, ff, c.u, d.u, sh, f, args, globals, heap);
    assert Accepted(d, sh, f, args, globals, heap);
    hide Accepted, OptimizedTo, Optimizable, Intact;
    MeaningsRun(arrays, c, d, sh, f, args, globals, heap);
    MeaningsEnd(arrays, c, d, sh, f, args, globals, heap);
  }

  /** Calls that mean the same return the same on the machine. */
  lemma MeaningsRun(
    arrays: bool, c: Image, d: Image, sh: Shape, f: nat, args: seq<Value>, globals: seq<Value>, heap: Heap)
    requires Accepted(c, sh, f, args, globals, heap) && Accepted(d, sh, f, args, globals, heap)
    requires MeansAlike(arrays, d.u, c.u, f, args, globals, heap)
    ensures var s, t := Entry(c, f, args, globals, heap), Entry(d, f, args, globals, heap);
      && (forall x :: Returns(d, t, x) ==> exists y :: Returns(c, s, y) && AlikeValue(arrays, heap, x, y))
      && (forall y :: Returns(c, s, y) ==> exists x :: Returns(d, t, x) && AlikeValue(arrays, heap, x, y))
  {
    hide Meaning, Accepted, Entry, Returns, EndsAlike, AlikeValue;
    AcceptedEntry(c, sh, f, args, globals, heap);
    AcceptedEntry(d, sh, f, args, globals, heap);
    var s, t := Entry(c, f, args, globals, heap), Entry(d, f, args, globals, heap);
    forall x | Returns(d, t, x) ensures exists y :: Returns(c, s, y) && AlikeValue(arrays, heap, x, y) {
      ReturnsExactly(d, sh, f, args, globals, heap, x);
      var fuel :| Meaning(d.u, f, args, globals, heap, fuel) == Done([x]);
      var o := Meaning(c.u, f, args, globals, heap, fuel);
      ReturnsAlike(arrays, heap, Done([x]), o);
      ReturnsExactly(c, sh, f, args, globals, heap, o.vs[0]);
    }
    forall y | Returns(c, s, y) ensures exists x :: Returns(d, t, x) && AlikeValue(arrays, heap, x, y) {
      ReturnsExactly(c, sh, f, args, globals, heap, y);
      var fuel :| Meaning(c.u, f, args, globals, heap, fuel) == Done([y]);
      var o := Meaning(d.u, f, args, globals, heap, fuel);
      ReturnsAlike(arrays, heap, o, Done([y]));
      ReturnsExactly(d, sh, f, args, globals, heap, o.vs[0]);
    }
  }

  lemma AcceptedEntry(c: Image, sh: Shape, f: nat, args: seq<Value>, globals: seq<Value>, heap: Heap)
    requires Accepted(c, sh, f, args, globals, heap)
    ensures f < |c.u.env.fns| && c.code != []
  {
  }

  /** They fail alike, and run forever alike. */
  lemma MeaningsEnd(
    arrays: bool, c: Image, d: Image, sh: Shape, f: nat, args: seq<Value>, globals: seq<Value>, heap: Heap)
    requires Accepted(c, sh, f, args, globals, heap) && Accepted(d, sh, f, args, globals, heap)
    requires MeansAlike(arrays, d.u, c.u, f, args, globals, heap)
    ensures var s, t := Entry(c, f, args, globals, heap), Entry(d, f, args, globals, heap);
      (forall m :: Fails(d, t, m) <==> Fails(c, s, m)) && (Diverges(d, t) <==> Diverges(c, s))
  {
    hide Meaning, Accepted, Entry, Fails, Diverges, EndsAlike;
    AcceptedEntry(c, sh, f, args, globals, heap);
    AcceptedEntry(d, sh, f, args, globals, heap);
    var s, t := Entry(c, f, args, globals, heap), Entry(d, f, args, globals, heap);
    forall fuel
      ensures var x, y := Meaning(d.u, f, args, globals, heap, fuel), Meaning(c.u, f, args, globals, heap, fuel);
        && x.OutOfFuel? == y.OutOfFuel? && x.Raised? == y.Raised? && (x.Raised? ==> SameMessage(x.x, y.x))
    {
      ReturnsAlike(arrays, heap, Meaning(d.u, f, args, globals, heap, fuel),
        Meaning(c.u, f, args, globals, heap, fuel));
    }
    forall m ensures Fails(d, t, m) <==> Fails(c, s, m) {
      FailsExactly(c, sh, f, args, globals, heap, m);
      FailsExactly(d, sh, f, args, globals, heap, m);
      RaisesAlike(c.u, d.u, f, args, globals, heap, m);
    }
    DivergesExactly(c, sh, f, args, globals, heap);
    DivergesExactly(d, sh, f, args, globals, heap);
  }

  lemma RaisesAlike(u: Source, v: Source, f: nat, args: seq<Value>, globals: seq<Value>, heap: Heap, m: string)
    requires forall fuel ::
      var x, y := Meaning(v, f, args, globals, heap, fuel), Meaning(u, f, args, globals, heap, fuel);
      x.Raised? == y.Raised? && (x.Raised? ==> SameMessage(x.x, y.x))
    ensures Raises(u, f, args, globals, heap, m) <==> Raises(v, f, args, globals, heap, m)
  {
    hide Meaning;
    if fuel, x :| Meaning(u, f, args, globals, heap, fuel) == Raised(x)
                  && (x == Str(m) || (!x.Str? && m == "Invalid cast to String"))
    {
      var o := Meaning(v, f, args, globals, heap, fuel);
      assert Meaning(v, f, args, globals, heap, fuel) == Raised(o.x);
    }
    if fuel, x :| Meaning(v, f, args, globals, heap, fuel) == Raised(x)
                  && (x == Str(m) || (!x.Str? && m == "Invalid cast to String"))
    {
      var o := Meaning(u, f, args, globals, heap, fuel);
      assert Meaning(u, f, args, globals, heap, fuel) == Raised(o.x);
    }
  }
}
