/** Labelled code, its resolution to positions, and reasoning about fragments of it. */
module Labelled {
  import opened Instructions
  import opened Machine
  import opened BigStep
  import opened Compile

  function MapInst<L, F, M, G>(i: Inst<L, F>, fl: L -> M, ff: F -> G): Inst<M, G> {
    match i
    case Mark(l) => Mark(fl(l))
    case Goto(l) => Goto(fl(l))
    case IfElse(l) => IfElse(fl(l))
    case ForNext(l) => ForNext(fl(l))
    case Try(l) => Try(fl(l))
    case Call(f) => Call(ff(f))
    case NewFx(f) => NewFx(ff(f))
    case Capture => Capture
    case Invoke(n) => Invoke(n)
    case Return => Return
    case ReturnNull => ReturnNull
    case Throw => Throw
    case Yield => Yield
    case CoReturn => CoReturn
    case CoDump => CoDump
    case Exit => Exit
    case Scrap => Scrap
    case Duplicate => Duplicate
    case Swap => Swap
    case Unpack(n) => Unpack(n)
    case LoadX(a) => LoadX(a)
    case StoreX(a) => StoreX(a)
    case LoadK(a) => LoadK(a)
    case StoreK(a) => StoreK(a)
    case GlobalRead(i) => GlobalRead(i)
    case GlobalWrite(i) => GlobalWrite(i)
    case Prim(p) => Prim(p)
  }

  /** Position of the first definition of a label, the end of the code if there is none. */
  function Find(code: seq<Asm>, l: Label): (r: nat)
    ensures r <= |code|
    ensures r < |code| ==> code[r] == Mark(l)
    ensures forall i :: 0 <= i < r ==> code[i] != Mark(l)
  {
    if code == [] then 0 else if code[0] == Mark(l) then 0 else 1 + Find(code[1..], l)
  }

  /** Pool index of a function label; a label of no function gives an index outside the pool. */
  function FnIndex(fns: seq<Context>, l: Label): nat {
    match FindFn(fns, l) case Some(i) => i case None => |fns|
  }

  function ResolveInst(code: seq<Asm>, fns: seq<Context>, i: Asm): Op {
    MapInst(i, (l: Label) => Find(code, l), (f: Label) => FnIndex(fns, f))
  }

  function Load(code: seq<Asm>, env: Env): Program {
    Program(seq(|code|, i requires 0 <= i < |code| => ResolveInst(code, env.fns, code[i])), env)
  }

  ghost predicate UniqueMarks(code: seq<Asm>) {
    forall i, j :: 0 <= i < j < |code| && code[i].Mark? ==> code[i] != code[j]
  }

  ghost predicate CodeAt(code: seq<Asm>, pc: nat, frag: seq<Asm>) {
    pc + |frag| <= |code| && forall j :: 0 <= j < |frag| ==> code[pc + j] == frag[j]
  }

  lemma Split(code: seq<Asm>, pc: nat, a: seq<Asm>, b: seq<Asm>)
    requires CodeAt(code, pc, a + b)
    ensures CodeAt(code, pc, a) && CodeAt(code, pc + |a|, b)
  {
    assert forall j :: 0 <= j < |a| ==> (a + b)[j] == a[j];
    forall j | 0 <= j < |b| ensures code[pc + |a| + j] == b[j] {
      assert (a + b)[|a| + j] == b[j];
    }
  }

  /** Source and the code it was compiled to. */
  datatype Image = Image(u: Source, code: seq<Asm>)

  function Prog(c: Image): Program { Load(c.code, c.u.env) }

  /** Every function's code is at its pool address, and every label has one meaning. */
  ghost predicate Linked(c: Image) {
    && UniqueMarks(c.code)
    && |c.u.fns| == |c.u.env.fns|
    && forall f :: 0 <= f < |c.u.fns| ==> FunctionAt(c, f)
  }

  ghost predicate FunctionAt(c: Image, f: nat)
    requires f < |c.u.fns| && f < |c.u.env.fns|
  {
    && c.u.fns[f].name.Function?
    && exists n :: CodeAt(c.code, c.u.env.fns[f].address, CompFunction(c.u.fns[f], n).code)
  }

  lemma FindAt(c: Image, pc: nat, frag: seq<Asm>, j: nat)
    requires UniqueMarks(c.code) && CodeAt(c.code, pc, frag) && j < |frag| && frag[j].Mark?
    ensures Find(c.code, frag[j].l) == pc + j
  {
    assert c.code[pc + j] == frag[j];
  }
}
