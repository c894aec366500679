/** What a throw does to the stack: the innermost frame with a handler is found, nothing
    below it changes, and its handler is used up. */
module Unwinding {
  import opened Values
  import opened Machine
  import opened FlatMachine
  import opened FlatProof

  /** Where the part of frame k begins. */
  function FpAt(f: Flat, k: nat): nat
    requires k < |f.frames|
  {
    if k + 1 == |f.frames| then f.fp else f.frames[k + 1].prevFp
  }

  /** Frames lie one above the other. */
  predicate Ordered(f: Flat) {
    && (forall k :: 0 <= k < |f.frames| ==> FpAt(f, k) <= |f.values|)
    && (forall j, k :: 0 <= j < k < |f.frames| ==> FpAt(f, j) <= FpAt(f, k))
  }

  /** The frame a throw goes to: the last one with a handler. */
  predicate Innermost(f: Flat, k: nat) {
    k < |f.frames| && f.frames[k].handler.Some? && forall j :: k < j < |f.frames| ==> f.frames[j].handler.None?
  }

  /** The stack after an exception was caught in frame k: slot 0 is the exception, the
      other slots are empty, the handler is gone and the rest is as it was. */
  predicate Caught(env: Env, f: Flat, k: nat, x: Value, g: Flat)
    requires k < |f.frames|
  {
    var top := f.frames[k];
    && top.ctx < |env.fns| && top.handler.Some? && FpAt(f, k) <= |f.values|
    && g.pc == top.handler.value
    && g.values == f.values[..FpAt(f, k)] + [x] + Nulls(env.fns[top.ctx].frameSize)
    && g.fp == FpAt(f, k)
    && g.frames == f.frames[..k] + [top.(handler := None)]
    && g.heap == f.heap && g.cos == f.cos
  }

  lemma PopTopOrdered(f: Flat)
    requires Ordered(f) && f.frames != []
    ensures f.fp <= |f.values| && Ordered(PopTop(f))
    ensures forall k :: 0 <= k < |f.frames| - 1 ==> FpAt(PopTop(f), k) == FpAt(f, k)
  {
    var n := |f.frames|;
    assert FpAt(f, n - 1) == f.fp;
    var g := PopTop(f);
    forall k | 0 <= k < n - 1 ensures FpAt(g, k) == FpAt(f, k) && FpAt(f, k) <= f.fp {
      assert FpAt(f, k) <= FpAt(f, n - 1);
    }
  }

  /** A throw is caught in the innermost frame with a handler, whatever lies above it. */
  lemma {:induction false} ThrowIsCaught(env: Env, f: Flat, x: Value, k: nat)
    requires Ordered(f) && Innermost(f, k) && f.frames[k].ctx < |env.fns|
    ensures FlatThrow(env, f, x).FNext? && Caught(env, f, k, x, FlatThrow(env, f, x).f)
    decreases |f.frames|
  {
    PopTopOrdered(f);
    if k + 1 == |f.frames| {
      assert UnwindFrames(f) == f;
      assert Front(f.frames) == f.frames[..k];
    } else {
      assert f.frames[|f.frames| - 1].handler.None?;
      var g := PopTop(f);
      assert Innermost(g, k);
      ThrowIsCaught(env, g, x, k);
      assert FlatThrow(env, f, x) == FlatThrow(env, g, x);
      assert g.values[..FpAt(f, k)] == f.values[..FpAt(f, k)];
      assert g.frames[..k] == f.frames[..k];
    }
  }

  /** Without any handler the exception ends the run. */
  lemma {:induction false} ThrowIsUnhandled(env: Env, f: Flat, x: Value)
    requires Ordered(f) && forall k :: 0 <= k < |f.frames| ==> f.frames[k].handler.None?
    ensures FlatThrow(env, f, x) == FUnhandled(if x.Str? then x.s else "Invalid cast to String")
    decreases |f.frames|
  {
    if f.frames != [] {
      PopTopOrdered(f);
      assert f.frames[|f.frames| - 1].handler.None?;
      ThrowIsUnhandled(env, PopTop(f), x);
    }
  }

  /** Whether a throw is caught, and where, is decided by the handlers alone. */
  lemma ThrowDecides(env: Env, f: Flat, x: Value)
    requires Ordered(f) && forall k :: 0 <= k < |f.frames| ==> f.frames[k].ctx < |env.fns|
    ensures FlatThrow(env, f, x) == FUnhandled(if x.Str? then x.s else "Invalid cast to String")
       <==> forall k :: 0 <= k < |f.frames| ==> f.frames[k].handler.None?
    ensures FlatThrow(env, f, x).FUnhandled? || FlatThrow(env, f, x).FNext?
    ensures FlatThrow(env, f, x).FNext? ==> exists k :: Innermost(f, k) && Caught(env, f, k, x, FlatThrow(env, f, x).f)
  {
    if forall k :: 0 <= k < |f.frames| ==> f.frames[k].handler.None? {
      ThrowIsUnhandled(env, f, x);
    } else {
      var k := LastHandler(f, |f.frames|);
      ThrowIsCaught(env, f, x, k);
    }
  }

  lemma {:induction false} LastHandler(f: Flat, n: nat) returns (k: nat)
    requires n <= |f.frames| && exists j :: 0 <= j < n && f.frames[j].handler.Some?
    requires forall j :: n <= j < |f.frames| ==> f.frames[j].handler.None?
    ensures Innermost(f, k)
    decreases n
  {
    if f.frames[n - 1].handler.Some? { k := n - 1; } else { k := LastHandler(f, n - 1); }
  }

  /** Returning from the except block, whatever it left above its frame pointer, resumes the
      caller of the function that caught: its arguments are replaced by the one result. */
  lemma HandlerReturns(env: Env, f: Flat, k: nat, x: Value, g: Flat, h: Flat, v: Value)
    requires k < |f.frames| && Caught(env, f, k, x, g)
    requires h.frames == g.frames && h.fp == g.fp && g.fp <= |h.values| && h.values[..g.fp] == g.values[..g.fp]
    ensures FlatReturn(h, v) == FNext(Flat(
      f.frames[k].ret, f.values[..FpAt(f, k)] + [v], f.frames[..k], f.frames[k].prevFp, h.heap, h.cos))
  {
    assert g.values[..g.fp] == f.values[..FpAt(f, k)];
    assert Front(g.frames) == f.frames[..k];
  }

  /** Every state the machine reaches is ordered. */
  lemma {:induction false} FramesOrdered(top: Act, below: Acts, base: nat)
    ensures var fs := FramesOf(top, below, base);
      && (below.Bottom? <==> fs == [])
      && (fs != [] ==> Fp(below, base) <= base + |StackOf(top, below)|)
      && (forall k :: 0 < k < |fs| ==> fs[k].prevFp <= Fp(below, base))
      && (forall j, k :: 0 < j < k < |fs| ==> fs[j].prevFp <= fs[k].prevFp)
    decreases below
  {
    if below.Under? {
      FramesOrdered(below.act, below.below, base);
      var fs, gs := FramesOf(top, below, base), FramesOf(below.act, below.below, base);
      assert fs == gs + [Last(fs)];
    }
  }

  lemma FlattenOrdered(s: State)
    ensures Ordered(Flatten(s))
  {
    var f := Flatten(s);
    FramesOrdered(s.top, s.below, |s.globals|);
    forall k | 0 <= k < |f.frames| ensures FpAt(f, k) <= f.fp <= |f.values| {}
  }
}
