/** Whole programs: compiling a program whose names the analysis kept apart gives code
    in which every label is defined once and every target is defined, so it links. */
module Programs {
  import opened Values
  import opened Instructions
  import opened Machine
  import opened Sst
  import opened BigStep
  import opened Compile
  import opened Labelled
  import opened ClosedCode
  import opened Labels
  import opened Nesting

  /** The initialisers of definitions and globals, and the functions. */
  datatype SstProgram = SstProgram(inits: Exprs, fns: seq<FunctionDecl>)

  function InitCode(p: SstProgram, n: nat): Cg {
    var ci := CompArgs(p.inits, n);
    Cg(ci.code + [Simply(Nvll), Exit], ci.next)
  }

  /** n is the first number make_jump_id has left after the analysis. */
  function CompProgram(p: SstProgram, n: nat): seq<Asm>
    requires Named(p.fns)
  {
    var ci := InitCode(p, n);
    ci.code + (CompFunctions(p.fns, ci.next).code + [Exit])
  }

  predicate Named(fns: seq<FunctionDecl>) {
    forall i :: 0 <= i < |fns| ==> fns[i].name.Function?
  }

  function NFunction(r: Role, f: FunctionDecl, l: Label): nat {
    NStmt(r, f.body, l) + if f.except.Some? then NStmt(r, f.except.value, l) else 0
  }

  function NFunctions(r: Role, fns: seq<FunctionDecl>, l: Label): nat {
    if fns == [] then 0 else NFunction(r, fns[0], l) + NFunctions(r, fns[1..], l)
  }

  function NProgram(r: Role, p: SstProgram, l: Label): nat {
    NExprs(r, p.inits, l) + NFunctions(r, p.fns, l)
  }

  /** How many of the labels at the heads of functions and except blocks are l. */
  function Heads(fns: seq<FunctionDecl>, l: Label): int
    requires Named(fns)
  {
    if fns == [] then 0
    else If(fns[0].name == l) + If(fns[0].except.Some? && ExceptLabel(fns[0].name) == l) + Heads(fns[1..], l)
  }

  predicate DistinctNames(fns: seq<FunctionDecl>) {
    forall i, j :: 0 <= i < j < |fns| ==> fns[i].name != fns[j].name
  }

  predicate NestedFunction(f: FunctionDecl) {
    NestedStmt(f.body, None) && (f.except.Some? ==> NestedStmt(f.except.value, None))
  }

  predicate NestedProgram(p: SstProgram) {
    NestedExprs(p.inits) && forall i :: 0 <= i < |p.fns| ==> NestedFunction(p.fns[i])
  }

  /** What the analysis guarantees: functions have different labels, immediately invoked
      blocks have ends of their own, returns go where their scope says, and called functions
      exist. */
  ghost predicate Analysed(p: SstProgram) {
    && Named(p.fns) && DistinctNames(p.fns)
    && (forall i :: 0 <= i < |p.fns| ==> WellNamed(p.fns[i].name))
    && NestedProgram(p)
    && forall l ::
         && NProgram(Defined, p, l) <= 1
         && (NProgram(Defined, p, l) > 0 ==> l.Jump? && l.kind == "IIFE")
         && (NProgram(Callee, p, l) > 0 ==> exists i :: 0 <= i < |p.fns| && p.fns[i].name == l)
  }

  lemma {:induction false} FunctionsKeepReturns(fns: seq<FunctionDecl>, l: Label)
    requires forall i :: 0 <= i < |fns| ==> NestedFunction(fns[i])
    ensures NFunctions(Jumped, fns, l) > 0 ==> NFunctions(Defined, fns, l) > 0
    decreases |fns|
  {
    if fns != [] {
      FunctionsKeepReturns(fns[1..], l);
      StmtKeepsReturns(fns[0].body, None, l);
      if fns[0].except.Some? { StmtKeepsReturns(fns[0].except.value, None, l); }
    }
  }

  /** Every end that is returned to exists. */
  lemma ReturnsKnown(p: SstProgram, l: Label)
    requires NestedProgram(p)
    ensures NProgram(Jumped, p, l) > 0 ==> NProgram(Defined, p, l) > 0
  {
    ArgsKeepReturns(p.inits, l);
    FunctionsKeepReturns(p.fns, l);
  }

  lemma {:induction false} HeadsKnown(fns: seq<FunctionDecl>, l: Label)
    requires Named(fns) && DistinctNames(fns)
    ensures 0 <= Heads(fns, l) <= 1
    ensures l.Function? ==> (Heads(fns, l) == 1 <==> exists i :: 0 <= i < |fns| && fns[i].name == l)
    ensures l.Except? ==> (Heads(fns, l) == 1 ==> exists i :: 0 <= i < |fns| && fns[i].name == Function(l.name))
    ensures l.Jump? ==> Heads(fns, l) == 0
    decreases |fns|
  {
    if fns != [] {
      var rest := fns[1..];
      HeadsKnown(rest, l);
      assert forall i :: 0 <= i < |rest| ==> rest[i] == fns[i + 1];
      if l.Function? && exists i :: 0 <= i < |fns| && fns[i].name == l {
        var i :| 0 <= i < |fns| && fns[i].name == l;
        if i > 0 { assert rest[i - 1].name == l; }
      }
      if l.Function? && fns[0].name == l {
        assert !exists i :: 0 <= i < |rest| && rest[i].name == l;
      }
      if l.Except? && fns[0].name == Function(l.name) {
        assert !exists i :: 0 <= i < |rest| && rest[i].name == Function(l.name);
      }
    }
  }

  /** A function's code up to the end of its body. */
  function BodyCode(f: FunctionDecl, n: nat): seq<Asm> {
    (if f.isCoroutine then [CoDump] else []) +
    (CompStmt(f.body, n).code + [Simply(Nvll), if f.isCoroutine then CoReturn else Return])
  }

  lemma BodyLabels(f: FunctionDecl, n: nat, l: Label)
    ensures var c := CompStmt(f.body, n).code;
      && Tally(Defined, BodyCode(f, n), l) == Tally(Defined, c, l)
            && Tally(Jumped, BodyCode(f, n), l) == Tally(Jumped, c, l)
      && Tally(Callee, BodyCode(f, n), l) == Tally(Callee, c, l) && Tally(One, BodyCode(f, n), l) == Tally(One, c, l)
  {
    hide CompStmt, Tally;
    var dump: seq<Asm> := if f.isCoroutine then [CoDump] else [];
    var tail: seq<Asm> := [Simply(Nvll), if f.isCoroutine then CoReturn else Return];
    Single(CoDump, l);
    Empty(l);
    Two(Simply(Nvll), tail[1], l);
    Cat3(dump, CompStmt(f.body, n).code, tail, l);
  }

  /** Code of a function: what its statements name, and its heads. */
  lemma ClosedFunction(f: FunctionDecl, n: nat, l: Label)
    requires f.name.Function?
    ensures var g, own := CompFunction(f, n), If(f.name == l) + If(f.except.Some? && ExceptLabel(f.name) == l);
      && n <= g.next && 0 <= NFunction(Jumped, f, l) && 0 <= NFunction(Callee, f, l)
      && 0 <= NFunction(Defined, f, l)
      && NFunction(Defined, f, l) + own <= Tally(Defined, g.code, l) <= NFunction(Defined, f, l) + own
            + If(Own(l, n, g.next))
      && (Tally(Jumped, g.code, l) > 0 ==> Tally(Defined, g.code, l) > 0 || NFunction(Jumped, f, l) > 0)
      && (Tally(Callee, g.code, l) > 0 ==> NFunction(Callee, f, l) > 0)
      && Tally(One, g.code, l) == 0
  {
    hide CompStmt, NStmt, Tally, BodyCode;
    if f.except.Some? {
      ClosedGuarded(f, n, l);
    } else {
      var body := BodyCode(f, n);
      assert CompFunction(f, n) == Cg([Mark(f.name)] + body, CompStmt(f.body, n).next) by { PlainCodeIs(f, n); }
      hide CompFunction;
      ClosedStmt(f.body, n, l);
      BodyLabels(f, n, l);
      Single(Mark(f.name), l);
      Cat([Mark(f.name)], body, l);
    }
  }

  lemma PlainCodeIs(f: FunctionDecl, n: nat)
    requires f.name.Function? && f.except.None?
    ensures CompFunction(f, n) == Cg([Mark(f.name)] + BodyCode(f, n), CompStmt(f.body, n).next)
  {
    hide CompStmt;
    var dump: seq<Asm> := if f.isCoroutine then [CoDump] else [];
    var tail: seq<Asm> := [Simply(Nvll), if f.isCoroutine then CoReturn else Return];
    var c := CompStmt(f.body, n).code;
    assert [Mark(f.name)] + [] + dump + (c + tail) == [Mark(f.name)] + (dump + (c + tail));
  }

  lemma GuardedCodeIs(f: FunctionDecl, n: nat)
    requires f.name.Function? && f.except.Some?
    ensures var ex, x := ExceptLabel(f.name), CompStmt(f.except.value, CompStmt(f.body, n).next);
      CompFunction(f, n) ==
        Cg([Mark(f.name), Try(ex)] + (BodyCode(f, n) + ([Mark(ex)] + (x.code + [Simply(Nvll), Return]))), x.next)
  {
    hide CompStmt;
    var dump: seq<Asm> := if f.isCoroutine then [CoDump] else [];
    var tail: seq<Asm> := [Simply(Nvll), if f.isCoroutine then CoReturn else Return];
    var c, ex := CompStmt(f.body, n).code, ExceptLabel(f.name);
    var x := CompStmt(f.except.value, CompStmt(f.body, n).next);
    var last := [Mark(ex)] + (x.code + [Simply(Nvll), Return]);
    assert [Mark(f.name)] + [Try(ex)] + dump + (c + (tail + last))
        == [Mark(f.name), Try(ex)] + (dump + (c + tail) + last);
  }

  lemma ClosedGuarded(f: FunctionDecl, n: nat, l: Label)
    requires f.name.Function? && f.except.Some?
    ensures var g, own := CompFunction(f, n), If(f.name == l) + If(f.except.Some? && ExceptLabel(f.name) == l);
      && n <= g.next && 0 <= NFunction(Jumped, f, l) && 0 <= NFunction(Callee, f, l)
      && 0 <= NFunction(Defined, f, l)
      && NFunction(Defined, f, l) + own <= Tally(Defined, g.code, l) <= NFunction(Defined, f, l) + own
            + If(Own(l, n, g.next))
      && (Tally(Jumped, g.code, l) > 0 ==> Tally(Defined, g.code, l) > 0 || NFunction(Jumped, f, l) > 0)
      && (Tally(Callee, g.code, l) > 0 ==> NFunction(Callee, f, l) > 0)
      && Tally(One, g.code, l) == 0
  {
    hide CompStmt, NStmt, Tally, BodyCode, CompFunction;
    var ex := ExceptLabel(f.name);
    var cb := CompStmt(f.body, n);
    var x := CompStmt(f.except.value, cb.next);
    GuardedCodeIs(f, n);
    ClosedStmt(f.body, n, l);
    ClosedStmt(f.except.value, cb.next, l);
    BodyLabels(f, n, l);
    Two(Mark(f.name), Try(ex), l);
    Single(Mark(ex), l);
    Two(Simply(Nvll), Return, l);
    Cat3([Mark(ex)], x.code, [Simply(Nvll), Return], l);
    Cat3([Mark(f.name), Try(ex)], BodyCode(f, n), [Mark(ex)] + (x.code + [Simply(Nvll), Return]), l);
  }

  lemma {:induction false} ClosedFunctions(fns: seq<FunctionDecl>, n: nat, l: Label)
    requires Named(fns)
    ensures var g, own := CompFunctions(fns, n), Heads(fns, l);
      && n <= g.next && 0 <= own && 0 <= NFunctions(Jumped, fns, l) && 0 <= NFunctions(Callee, fns, l)
      && 0 <= NFunctions(Defined, fns, l)
          && NFunctions(Defined, fns, l) + own <= Tally(Defined, g.code, l) <= NFunctions(Defined, fns, l) + own
            + If(Own(l, n, g.next))
      && (Tally(Jumped, g.code, l) > 0 ==> Tally(Defined, g.code, l) > 0 || NFunctions(Jumped, fns, l) > 0)
      && (Tally(Callee, g.code, l) > 0 ==> NFunctions(Callee, fns, l) > 0)
      && Tally(One, g.code, l) == 0
    decreases |fns|
  {
    hide CompFunction, NFunction, Tally;
    if fns == [] {
      Empty(l);
    } else {
      var cf := CompFunction(fns[0], n);
      ClosedFunction(fns[0], n, l);
      ClosedFunctions(fns[1..], cf.next, l);
      Cat(cf.code, CompFunctions(fns[1..], cf.next).code, l);
    }
  }

  /** In the code of a program no label is defined twice, and every target is defined. */
  lemma ClosedProgram(p: SstProgram, n: nat, l: Label)
    requires Analysed(p)
    ensures var code := CompProgram(p, n);
      && 0 <= Tally(Defined, code, l) <= 1 && Tally(One, code, l) == 0
      && (Tally(Jumped, code, l) > 0 ==> Tally(Defined, code, l) == 1)
      && (Tally(Callee, code, l) > 0 ==>
            Tally(Defined, code, l) == 1 && exists i :: 0 <= i < |p.fns| && p.fns[i].name == l)
  {
    hide CompArgs, CompFunctions, Tally, NExprs, NFunctions, NestedProgram;
    assert NProgram(Defined, p, l) <= 1;
    ReturnsKnown(p, l);
    var ca := CompArgs(p.inits, n);
    var cf := CompFunctions(p.fns, ca.next);
    ClosedArgs(p.inits, n, l);
    ClosedFunctions(p.fns, ca.next, l);
    HeadsKnown(p.fns, l);
    Two(Simply(Nvll), Exit, l);
    Single(Exit, l);
    Cat(ca.code, [Simply(Nvll), Exit], l);
    Cat3(InitCode(p, n).code, cf.code, [Exit], l);
    if NProgram(Callee, p, l) > 0 {
      var i :| 0 <= i < |p.fns| && p.fns[i].name == l;
      assert p.fns[i].name.Function?;
    }
  }

  lemma {:induction false} TallyPositive(code: seq<Asm>, l: Label)
    ensures Tally(Defined, code, l) >= 0
    ensures Tally(Defined, code, l) > 0 <==> Mark(l) in code
    decreases |code|
  {
    if code != [] {
      assert code == [code[0]] + code[1..];
      TallyPositive(code[1..], l);
    }
  }

  lemma DefinedTwice(code: seq<Asm>, i: nat, j: nat, l: Label)
    requires i < j < |code| && code[i] == code[j] == Mark(l)
    ensures Tally(Defined, code, l) >= 2
  {
    hide Tally;
    Cat(code[..j], code[j..], l);
    assert code == code[..j] + code[j..];
    TallyPositive(code[..j], l);
    TallyPositive(code[j..], l);
    assert code[..j][i] == Mark(l);
    assert code[j..][0] == Mark(l);
  }

  lemma {:induction false} TallyUse(code: seq<Asm>, i: nat, l: Label)
    requires i < |code|
    ensures Tally(Jumped, code, l) >= Hit(Jumped, code[i], l)
    ensures Tally(Callee, code, l) >= Hit(Callee, code[i], l)
    decreases |code|
  {
    TallyNatural(code[1..], l);
    if i > 0 { TallyUse(code[1..], i - 1, l); }
  }

  lemma {:induction false} TallyNatural(code: seq<Asm>, l: Label)
    ensures Tally(Jumped, code, l) >= 0 && Tally(Callee, code, l) >= 0
    decreases |code|
  {
    if code != [] { TallyNatural(code[1..], l); }
  }

  /** Every label is defined once, every jump and handler goes to a label of the code, and
      every function reference is to a function of the program. */
  ghost predicate ClosedUnder(code: seq<Asm>, fns: seq<FunctionDecl>) {
    && UniqueMarks(code)
    && (forall i, l :: 0 <= i < |code| && Hit(Jumped, code[i], l) > 0 ==> Mark(l) in code)
    && (forall i, l :: 0 <= i < |code| && Hit(Callee, code[i], l) > 0 ==>
          Mark(l) in code && exists f :: 0 <= f < |fns| && fns[f].name == l)
  }

  lemma ProgramIsClosed(p: SstProgram, n: nat)
    requires Analysed(p)
    ensures ClosedUnder(CompProgram(p, n), p.fns)
  {
    hide Tally, CompProgram, NProgram;
    var code := CompProgram(p, n);
    forall i, j | 0 <= i < j < |code| && code[i].Mark? ensures code[i] != code[j] {
      if code[i] == code[j] {
        DefinedTwice(code, i, j, code[i].l);
        ClosedProgram(p, n, code[i].l);
        assert false;
      }
    }
    forall i, l | 0 <= i < |code|
      ensures Hit(Jumped, code[i], l) > 0 ==> Mark(l) in code
      ensures Hit(Callee, code[i], l) > 0 ==> Mark(l) in code && exists f :: 0 <= f < |p.fns| && p.fns[f].name == l
    {
      ClosedProgram(p, n, l);
      TallyUse(code, i, l);
      TallyPositive(code, l);
    }
  }

  /** The function pool of a linked program; frame gives the slots a function needs. */
  function Pool(fns: seq<FunctionDecl>, code: seq<Asm>, frame: FunctionDecl -> nat): seq<Context> {
    seq(|fns|, i requires 0 <= i < |fns| =>
      Context(fns[i].name, fns[i].arity, Find(code, fns[i].name), frame(fns[i]), fns[i].isExtern, fns[i].isVariadic))
  }

  function LinkedImage(p: SstProgram, n: nat, frame: FunctionDecl -> nat, ops: HeapOps): Image
    requires Named(p.fns)
  {
    var code := CompProgram(p, n);
    Image(Source(p.fns, Env(Pool(p.fns, code, frame), ops)), code)
  }

  /** Where function f's code is in the code of the functions. */
  lemma {:induction false} FunctionIn(fns: seq<FunctionDecl>, n: nat, f: nat) returns (k: nat, m: nat)
    requires Named(fns) && f < |fns|
    ensures CodeAt(CompFunctions(fns, n).code, k, CompFunction(fns[f], m).code)
    decreases |fns|
  {
    hide CompFunction;
    var cf := CompFunction(fns[0], n);
    if f == 0 {
      k, m := 0, n;
    } else {
      k, m := FunctionIn(fns[1..], cf.next, f - 1);
      k := |cf.code| + k;
      assert fns[1..][f - 1] == fns[f];
    }
  }

  lemma FirstMark(f: FunctionDecl, n: nat)
    requires f.name.Function?
    ensures CompFunction(f, n).code != [] && CompFunction(f, n).code[0] == Mark(f.name)
  {
    hide CompStmt;
  }

  /** Linking gives every function the address of its code. */
  lemma ProgramLinks(p: SstProgram, n: nat, frame: FunctionDecl -> nat, ops: HeapOps)
    requires Analysed(p)
    ensures var c := LinkedImage(p, n, frame, ops);
      Linked(c) && c.code != [] && c.code[|c.code| - 1] == Exit
  {
    hide CompFunctions, InitCode, Find, CompFunction;
    var c := LinkedImage(p, n, frame, ops);
    ProgramIsClosed(p, n);
    var head := InitCode(p, n);
    forall f | 0 <= f < |c.u.fns| ensures FunctionAt(c, f) {
      var k, m := FunctionIn(p.fns, head.next, f);
      var frag := CompFunction(p.fns[f], m).code;
      var at := |head.code| + k;
      assert CodeAt(c.code, at, frag);
      FirstMark(p.fns[f], m);
      assert c.code[at + 0] == frag[0];
      assert Find(c.code, p.fns[f].name) == at;
    }
  }
}
