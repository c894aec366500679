/** From a program to its byte code: the peephole pass keeps labels and references, so
    linking and assembling never fail. */
module Build {
  import opened Binary
  import opened Values
  import opened Instructions
  import opened Sst
  import opened BigStep
  import opened Compile
  import opened Labelled
  import opened ClosedCode
  import opened Programs
  import opened Peephole
  import opened Labels
  import opened Bytecode
  import opened Linking
  import opened Linker

  lemma {:induction false} ZeroTally(r: Role, code: seq<Asm>, l: Label)
    requires forall i :: 0 <= i < |code| ==> Hit(r, code[i], l) == 0
    ensures Tally(r, code, l) == 0
    decreases |code|
  {
    hide Hit;
    if code != [] { ZeroTally(r, code[1..], l); }
  }

  predicate Mentions(i: Asm) {
    i.Mark? || i.Goto? || i.IfElse? || i.ForNext? || i.Try? || i.Call? || i.NewFx?
  }

  /** Instructions of patterns, and what replaces them, mention no labels. */
  lemma PatternsMentionNothing(code: seq<Asm>)
    requires code != [] && !Kind(code).Copy?
    ensures forall i :: 0 <= i < Effect(code).0 && i < |code| ==> !Mentions(code[i])
    ensures forall i :: 0 <= i < |Effect(code).1| ==> !Mentions(Effect(code).1[i])
  {
    if Kind(code).NullReturns? { assert code[2..][0] == code[2] && code[2..][1] == code[3]; }
    if Kind(code).ReturnTwice? { assert code[1..][0] == code[1] && code[1..][1] == code[2]; }
  }

  lemma MentionsHits(r: Role, i: Asm, l: Label)
    requires !Mentions(i) && r != One
    ensures Hit(r, i, l) == 0
  {
  }

  /** A pattern and its replacement mention the same labels. */
  lemma EffectTally(r: Role, code: seq<Asm>, l: Label)
    requires code != [] && r != One
    ensures Effect(code).0 <= |code| && Tally(r, code[..Effect(code).0], l) == Tally(r, Effect(code).1, l)
  {
    EffectFits(code);
    hide Rewrite, Tally, Hit, Mentions;
    if Kind(code).Copy? {
      assert code[..1] == [code[0]];
    } else {
      PatternsMentionNothing(code);
      hide Effect, Kind;
      var (n, out) := Effect(code);
      forall i | 0 <= i < n ensures Hit(r, code[..n][i], l) == 0 { MentionsHits(r, code[..n][i], l); }
      forall i | 0 <= i < |out| ensures Hit(r, out[i], l) == 0 { MentionsHits(r, out[i], l); }
      ZeroTally(r, code[..n], l);
      ZeroTally(r, out, l);
    }
  }

  lemma {:induction false} RewriteTally(r: Role, code: seq<Asm>, l: Label)
    requires r != One
    ensures Tally(r, Rewrite(code), l) == Tally(r, code, l)
    decreases |code|
  {
    if code != [] {
      hide Rewrite, Tally, Effect;
      EffectFits(code);
      EffectTally(r, code, l);
      var (n, out) := Effect(code);
      RewriteTally(r, code[n..], l);
      TallyConcat(r, code[..n], code[n..], l);
      TallyConcat(r, out, Rewrite(code[n..]), l);
      assert code == code[..n] + code[n..];
    } else {
      assert Rewrite(code) == [];
    }
  }

  /** In compiled code every label that occurs is one the linker can tell apart. */
  lemma LabelsWellNamed(p: SstProgram, n: nat, l: Label)
    requires Analysed(p)
    requires Tally(Defined, CompProgram(p, n), l) > 0 || Tally(Jumped, CompProgram(p, n), l) > 0
    ensures WellNamed(l)
  {
    hide Tally, NProgram;
    ClosedProgram(p, n, l);
    DefinedKinds(p, n, l);
  }

  lemma KindsWellNamed(kind: string)
    requires CompileKind(kind) || kind == "IIFE"
    ensures NoDigit(kind) && ')' !in kind
  {
  }

  lemma DefinedKinds(p: SstProgram, n: nat, l: Label)
    requires Analysed(p) && Tally(Defined, CompProgram(p, n), l) > 0
    ensures WellNamed(l)
  {
    hide CompArgs, CompFunctions, Tally, NExprs, NFunctions, NestedProgram, CompileKind, NoDigit;
    assert NProgram(Defined, p, l) <= 1;
    var ca := CompArgs(p.inits, n);
    var cf := CompFunctions(p.fns, ca.next);
    ClosedArgs(p.inits, n, l);
    ClosedFunctions(p.fns, ca.next, l);
    HeadsKnown(p.fns, l);
    Two(Simply(Nvll), Exit, l);
    Single(Exit, l);
    Cat(ca.code, [Simply(Nvll), Exit], l);
    Cat3(InitCode(p, n).code, cf.code, [Exit], l);
    match l
    case Jump(kind, _, _) => KindsWellNamed(kind);
    case Function(_) =>
      var i :| 0 <= i < |p.fns| && p.fns[i].name == l;
    case Except(name) =>
      var i :| 0 <= i < |p.fns| && p.fns[i].name == Function(name);
  }

  /** The code that is linked: compiled and rewritten. */
  function Linkable(p: SstProgram, n: nat): seq<Asm>
    requires Named(p.fns)
  {
    Rewrite(CompProgram(p, n))
  }

  /** One label in the code that is linked. */
  lemma LinkableLabel(p: SstProgram, n: nat, l: Label)
    requires Analysed(p)
    ensures var code := Linkable(p, n);
      && 0 <= Tally(Defined, code, l) <= 1
      && (Tally(Jumped, code, l) > 0 ==> Tally(Defined, code, l) == 1)
      && (Tally(Callee, code, l) > 0 ==>
            Tally(Defined, code, l) == 1 && exists i :: 0 <= i < |p.fns| && p.fns[i].name == l)
      && (Tally(Defined, code, l) > 0 || Tally(Jumped, code, l) > 0 ==> WellNamed(l))
  {
    hide Tally, CompProgram, Rewrite, NProgram, WellNamed;
    var code := CompProgram(p, n);
    RewriteTally(Defined, code, l);
    RewriteTally(Jumped, code, l);
    RewriteTally(Callee, code, l);
    ClosedProgram(p, n, l);
    if Tally(Defined, code, l) > 0 || Tally(Jumped, code, l) > 0 { LabelsWellNamed(p, n, l); }
  }

  /** What instruction i of the linked code says of label l. */
  lemma LinkableAt(p: SstProgram, n: nat, i: nat, l: Label)
    requires Analysed(p) && i < |Linkable(p, n)|
    ensures var code := Linkable(p, n);
      && (Hit(Jumped, code[i], l) > 0 ==> Mark(l) in code && WellNamed(l))
      && (code[i] == Mark(l) ==> WellNamed(l))
      && (Hit(Callee, code[i], l) > 0 ==> Mark(l) in code && exists f :: 0 <= f < |p.fns| && p.fns[f].name == l)
  {
    hide Tally, Linkable, NProgram, WellNamed;
    var code := Linkable(p, n);
    LinkableLabel(p, n, l);
    TallyUse(code, i, l);
    TallyPositive(code, l);
  }

  lemma LinkableUnique(p: SstProgram, n: nat)
    requires Analysed(p)
    ensures UniqueMarks(Linkable(p, n))
  {
    assert Named(p.fns);
    hide Tally, Linkable, Analysed;
    var code := Linkable(p, n);
    forall i, j | 0 <= i < j < |code| && code[i].Mark? ensures code[i] != code[j] {
      if code[i] == code[j] {
        DefinedTwice(code, i, j, code[i].l);
        LinkableLabel(p, n, code[i].l);
      }
    }
  }

  lemma LinkableIsClosed(p: SstProgram, n: nat)
    requires Analysed(p)
    ensures ClosedUnder(Linkable(p, n), p.fns) && AllWellNamed(Linkable(p, n)) && TargetsWellNamed(Linkable(p, n))
  {
    assert Named(p.fns);
    hide Linkable, WellNamed, Analysed, Hit;
    var code := Linkable(p, n);
    LinkableUnique(p, n);
    hide UniqueMarks;
    forall i, l | 0 <= i < |code| && Hit(Jumped, code[i], l) > 0 ensures Mark(l) in code && WellNamed(l) {
      LinkableAt(p, n, i, l);
    }
    forall i, l | 0 <= i < |code| && Hit(Callee, code[i], l) > 0
      ensures Mark(l) in code && exists f :: 0 <= f < |p.fns| && p.fns[f].name == l
    {
      LinkableAt(p, n, i, l);
    }
    forall i | 0 <= i < |code| && code[i].Mark? ensures WellNamed(code[i].l) { LinkableAt(p, n, i, code[i].l); }
    NamesWellFormed(p, code);
  }

  lemma NamesWellFormed(p: SstProgram, code: seq<Asm>)
    requires forall i, l :: 0 <= i < |code| && Hit(Jumped, code[i], l) > 0 ==> WellNamed(l)
    ensures TargetsWellNamed(code)
  {
    hide WellNamed;
    forall i | 0 <= i < |code| ensures
      match code[i]
      case Goto(l) => WellNamed(l)
      case IfElse(l) => WellNamed(l)
      case ForNext(l) => WellNamed(l)
      case Try(l) => WellNamed(l)
      case _ => true
    {
      match code[i]
      case Goto(l) => assert Hit(Jumped, code[i], l) > 0;
      case IfElse(l) => assert Hit(Jumped, code[i], l) > 0;
      case ForNext(l) => assert Hit(Jumped, code[i], l) > 0;
      case Try(l) => assert Hit(Jumped, code[i], l) > 0;
      case _ =>
    }
  }

  /** A name of a function in the pool is found. */
  lemma {:induction false} FindFnSome(fns: seq<Context>, f: nat)
    requires f < |fns|
    ensures FindFn(fns, fns[f].name).Some?
    decreases |fns|
  {
    if fns[0].name != fns[f].name {
      assert fns[1..][f - 1] == fns[f];
      FindFnSome(fns[1..], f - 1);
    }
  }

  lemma CalleeFound(p: SstProgram, n: nat, fns: seq<Context>, i: nat, l: Label)
    requires Analysed(p) && i < |Linkable(p, n)| && (Linkable(p, n)[i] == Call(l) || Linkable(p, n)[i] == NewFx(l))
    requires |fns| == |p.fns| && forall f :: 0 <= f < |fns| ==> fns[f].name == p.fns[f].name
    ensures FindFn(fns, l).Some?
  {
    hide Linkable, WellNamed;
    LinkableAt(p, n, i, l);
    var f :| 0 <= f < |p.fns| && p.fns[f].name == l;
    FindFnSome(fns, f);
  }

  lemma TargetFound(p: SstProgram, n: nat, table: map<string, nat>, i: nat, l: Label)
    requires Analysed(p) && i < |Linkable(p, n)| && Tabulates(table, Linkable(p, n), |Linkable(p, n)|)
    requires Hit(Jumped, Linkable(p, n)[i], l) > 0
    ensures Render(l) in table
  {
    LinkableIsClosed(p, n);
    hide Linkable, WellNamed, Tabulates, ClosedUnder, TargetsWellNamed, AllWellNamed, Render;
    LinkableAt(p, n, i, l);
    TableFinds(table, Linkable(p, n), l);
  }

  lemma ResolvableIf(i: Asm, table: map<string, nat>, fns: seq<Context>, pool: seq<string>)
    requires forall l :: Hit(Jumped, i, l) > 0 ==> Render(l) in table
    requires forall l :: i == Call(l) || i == NewFx(l) ==> FindFn(fns, l).Some?
    requires i.Prim? && i.p.NewStr? ==> PoolIndex(pool, i.p.s).Some?
    ensures Resolvable(i, table, fns, pool)
  {
    hide Render, FindFn, PoolIndex;
    match i
    case Goto(l) => assert Hit(Jumped, i, l) > 0;
    case IfElse(l) => assert Hit(Jumped, i, l) > 0;
    case ForNext(l) => assert Hit(Jumped, i, l) > 0;
    case Try(l) => assert Hit(Jumped, i, l) > 0;
    case _ =>
  }

  /** Whatever the code of an analysed program refers to can be found. */
  lemma AllResolvable(p: SstProgram, n: nat, table: map<string, nat>, fns: seq<Context>, i: nat)
    requires Analysed(p) && i < |Linkable(p, n)| && Tabulates(table, Linkable(p, n), |Linkable(p, n)|)
    requires |fns| == |p.fns| && forall f :: 0 <= f < |fns| ==> fns[f].name == p.fns[f].name
    ensures Resolvable(Linkable(p, n)[i], table, fns, StringsOf(Linkable(p, n)))
  {
    assert Named(p.fns);
    hide Linkable, Analysed, StringsOf, Tabulates, Render, FindFn, PoolIndex, Resolvable, Hit;
    var code := Linkable(p, n);
    forall l | Hit(Jumped, code[i], l) > 0 ensures Render(l) in table { TargetFound(p, n, table, i, l); }
    forall l | code[i] == Call(l) || code[i] == NewFx(l) ensures FindFn(fns, l).Some? { CalleeFound(p, n, fns, i, l); }
    if code[i].Prim? && code[i].p.NewStr? {
      StringsComplete(code);
      PoolIndexIs(StringsOf(code), code[i].p.s);
    }
    ResolvableIf(code[i], table, fns, StringsOf(code));
  }

  /** The pool of functions with their addresses. */
  method GeneratePool(p: SstProgram, n: nat, frame: FunctionDecl -> nat, table: map<string, nat>)
    returns (fns: seq<Context>)
    requires Analysed(p) && Tabulates(table, Linkable(p, n), |Linkable(p, n)|)
    ensures fns == LinkedPool(p, n, frame)
  {
    assert Named(p.fns);
    hide Linkable, Analysed, Tabulates;
    fns := [];
    for i := 0 to |p.fns|
      invariant fns == LinkedPool(p, n, frame)[..i]
    {
      PoolEntry(p, n, table, i);
      var f := p.fns[i];
      fns := fns + [Context(f.name, f.arity, table[Render(f.name)], frame(f), f.isExtern, f.isVariadic)];
    }
  }

  /** The whole back end: for an analysed program, linking and assembling always succeed. */
  method BuildProgram(p: SstProgram, n: nat, frame: FunctionDecl -> nat)
    returns (pool: seq<string>, fns: seq<Context>, bytecode: Option<seq<Byte>>)
    requires Analysed(p)
    ensures bytecode.Some?
    ensures pool == StringsOf(Linkable(p, n)) && fns == LinkedPool(p, n, frame)
    ensures bytecode.value == Assembled(Linkable(p, n), fns, pool)
  {
    assert Named(p.fns);
    hide Rewrite, CompProgram, Analysed, Assembled, Tabulates, Resolvable, StringsOf;
    var code := Transform(CompProgram(p, n));
    LinkableIsClosed(p, n);
    var table := GenerateJumpTable(code);
    fns := GeneratePool(p, n, frame, table.value);
    pool := GenerateStringPool(code);
    forall i | 0 <= i < |code| ensures Resolvable(code[i], table.value, fns, pool) {
      AllResolvable(p, n, table.value, fns, i);
    }
    bytecode := Assemble(code, table.value, fns, pool);
  }

  /** The function pool: every function at the offset of its label. */
  function LinkedPool(p: SstProgram, n: nat, frame: FunctionDecl -> nat): (r: seq<Context>)
    requires Named(p.fns)
    ensures |r| == |p.fns|
  {
    var code := Linkable(p, n);
    seq(|p.fns|, i requires 0 <= i < |p.fns| =>
      Context(p.fns[i].name, p.fns[i].arity, Offset(code, Find(code, p.fns[i].name)), frame(p.fns[i]),
              p.fns[i].isExtern, p.fns[i].isVariadic))
  }

  lemma PoolEntry(p: SstProgram, n: nat, table: map<string, nat>, f: nat)
    requires Analysed(p) && f < |p.fns| && Tabulates(table, Linkable(p, n), |Linkable(p, n)|)
    ensures var name, code := p.fns[f].name, Linkable(p, n);
      Render(name) in table && table[Render(name)] == Offset(code, Find(code, name))
  {
    LinkableIsClosed(p, n);
    FunctionsDefined(p, n, f);
    hide Linkable, Tabulates, Render, WellNamed, AllWellNamed, UniqueMarks, TargetsWellNamed, NProgram;
    TableFinds(table, Linkable(p, n), p.fns[f].name);
  }

  lemma FunctionsDefined(p: SstProgram, n: nat, f: nat)
    requires Analysed(p) && f < |p.fns|
    ensures Mark(p.fns[f].name) in Linkable(p, n) && WellNamed(p.fns[f].name)
  {
    hide Tally, CompProgram, Rewrite, CompFunctions, CompArgs, NExprs, NFunctions;
    var l := p.fns[f].name;
    var ca := CompArgs(p.inits, n);
    var cf := CompFunctions(p.fns, ca.next);
    ClosedFunctions(p.fns, ca.next, l);
    HeadsKnown(p.fns, l);
    TallyPositive(InitCode(p, n).code, l);
    TallyPositive([Exit], l);
    Cat3(InitCode(p, n).code, cf.code, [Exit], l);
    assert CompProgram(p, n) == InitCode(p, n).code + (cf.code + [Exit]) by { ProgramCodeIs(p, n); }
    RewriteTally(Defined, CompProgram(p, n), l);
    TallyPositive(Linkable(p, n), l);
  }

  lemma ProgramCodeIs(p: SstProgram, n: nat)
    requires Named(p.fns)
    ensures CompProgram(p, n) == InitCode(p, n).code + (CompFunctions(p.fns, CompArgs(p.inits, n).next).code + [Exit])
  {
  }
}
