/** The heights of whole programs: functions are entered with no operands. */
module ProgramHeights {
  import opened Values
  import opened Instructions
  import opened Machine
  import opened Sst
  import opened BigStep
  import opened Compile
  import opened WellFormed
  import opened Programs
  import opened Heights
  import opened CompiledHeights

  lemma TryTypes(fns: seq<Context>, l: Label, h: nat, outer: Outer)
    requires l in outer && outer[l] == 0
    ensures Types(fns, [Try(l)], h, h, outer)
  {
    var i: Asm := Try(l);
    forall t | Enters([i], t, h, outer) ensures Leaves([i], t, Infer(fns, [i], t), h, outer) { InferSingle(fns, i, t); }
  }

  /** The code of a body ends where control does not go on. */
  lemma BodyTypes(u: Source, sh: Shape, f: FunctionDecl, slots: nat, n: nat)
    requires WfStmt(u, sh, f.body, slots, {})
    ensures Types(u.env.fns, BodyCode(f, n), 0, 0, map[])
    ensures BodyCode(f, n) != [] && Heights.Ends(BodyCode(f, n)[|BodyCode(f, n)| - 1])
  {
    hide Types;
    var fns := u.env.fns;
    var dump: seq<Asm> := if f.isCoroutine then [CoDump] else [];
    var last: Asm := if f.isCoroutine then CoReturn else Return;
    var c := CompStmt(f.body, n).code;
    if f.isCoroutine { StepTypes(fns, CoDump, 0, map[]); } else { NoCode(fns, 0, map[]); }
    StmtTypes(u, sh, f.body, slots, {}, n, 0);
    assert Returns({}, 1) == map[];
    TypesThen(fns, dump, c, 0, 0, 0, map[]);
    PrimTypes(fns, Simple(Nvll), 0, map[]);
    TypesThen(fns, dump + c, [Simply(Nvll)], 0, 0, 1, map[]);
    EndTypes(fns, last, 1, 0, map[]);
    TypesThen(fns, dump + c + [Simply(Nvll)], [last], 0, 1, 0, map[]);
    assert dump + c + [Simply(Nvll)] + [last] == BodyCode(f, n);
  }

  lemma ExceptTypes(u: Source, sh: Shape, s: Stmt, slots: nat, n: nat)
    requires WfStmt(u, sh, s, slots, {})
    ensures Types(u.env.fns, CompStmt(s, n).code + [Simply(Nvll), Return], 0, 0, map[])
  {
    hide Types;
    var fns, c := u.env.fns, CompStmt(s, n).code;
    StmtTypes(u, sh, s, slots, {}, n, 0);
    assert Returns({}, 1) == map[];
    PrimTypes(fns, Simple(Nvll), 0, map[]);
    TypesThen(fns, c, [Simply(Nvll)], 0, 0, 1, map[]);
    EndTypes(fns, Return, 1, 0, map[]);
    TypesThen(fns, c + [Simply(Nvll)], [Return], 0, 1, 0, map[]);
    assert c + [Simply(Nvll)] + [Return] == c + [Simply(Nvll), Return];
  }

  /** After an instruction that ends control does not fall through. */
  lemma EndsNone(fns: seq<Context>, a: seq<Asm>, i: Asm, t: Track)
    requires Heights.Ends(i) && Infer(fns, a + [i], t).Some?
    ensures Infer(fns, a + [i], t).value.height == None
  {
    InferConcat(fns, a, [i], t);
    InferSingle(fns, i, Infer(fns, a, t).value);
  }

  /** What a piece of code between functions does to the track. */
  ghost predicate Across(code: seq<Asm>, t: Track, r: Option<Track>) {
    && r.Some? && r.value.height == None
    && (forall l :: l in t.at ==> l in r.value.at && r.value.at[l] == t.at[l])
    && (forall l :: l in r.value.at ==> l in t.at || Def(code, l))
    && (forall l :: l in r.value.dead ==> l in t.dead || Def(code, l))
  }

  /** A known label is where control comes in again. */
  lemma Revives(fns: seq<Context>, l: Label, b: seq<Asm>, t: Track, outer: Outer)
    requires t.height == None && l in t.at && t.at[l] == 0
    requires Types(fns, b, 0, 0, outer) && b != [] && Heights.Ends(b[|b| - 1])
    requires Once([Mark(l)] + b) && Fresh(b, t) && Heights.Outside(b, outer)
    requires forall k :: k in outer ==> k in t.at && t.at[k] == outer[k] && k !in t.dead
    ensures Across([Mark(l)] + b, t, Infer(fns, [Mark(l)] + b, t))
  {
    hide Infer, Def;
    OnceParts([Mark(l)], b);
    DefParts([Mark(l)], b);
    InferConcat(fns, [Mark(l)], b, t);
    InferSingle(fns, Mark(l), t);
    var v := Pass(fns, Mark(l), t).value;
    assert Enters(b, v, 0, outer);
    assert b == b[..|b| - 1] + [b[|b| - 1]];
    EndsNone(fns, b[..|b| - 1], b[|b| - 1], v);
  }

  lemma AcrossBoth(fns: seq<Context>, a: seq<Asm>, b: seq<Asm>, t: Track)
    requires Across(a, t, Infer(fns, a, t)) && Across(b, Infer(fns, a, t).value, Infer(fns, b, Infer(fns, a, t).value))
    ensures Across(a + b, t, Infer(fns, a + b, t))
  {
    hide Infer, Def;
    InferConcat(fns, a, b, t);
    DefParts(a, b);
  }

  predicate Heads1(f: FunctionDecl, l: Label)
    requires f.name.Function?
  {
    l == f.name || (f.except.Some? && l == ExceptLabel(f.name))
  }

  predicate IsHead(fns: seq<FunctionDecl>, l: Label)
    requires Named(fns)
  {
    fns != [] && (Heads1(fns[0], l) || IsHead(fns[1..], l))
  }

  /** The labels of functions are known with no operands; others in the code are new. */
  ghost predicate ReadyFor(code: seq<Asm>, t: Track, heads: Label -> bool) {
    && t.height == None
    && (forall l :: heads(l) ==> l in t.at && t.at[l] == 0 && l !in t.dead)
    && (forall l :: Def(code, l) && !heads(l) ==> l !in t.at && l !in t.dead)
  }

  lemma FunctionHeights(u: Source, sh: Shape, f: FunctionDecl, slots: nat, few: nat, n: nat, t: Track)
    requires f.name.Function? && WfStmt(u, sh, f.body, slots, {})
    requires f.except.Some? ==> WfStmt(u, sh, f.except.value, few, {})
    requires Once(CompFunction(f, n).code)
    requires ReadyFor(CompFunction(f, n).code, t, (l: Label) => Heads1(f, l))
    ensures Across(CompFunction(f, n).code, t, Infer(u.env.fns, CompFunction(f, n).code, t))
    ensures forall l :: Heads1(f, l) ==> Def(CompFunction(f, n).code, l)
  {
    hide Infer, Def, CompFunction, BodyCode, Types;
    var body := BodyCode(f, n);
    BodyTypes(u, sh, f, slots, n);
    if f.except.None? {
      PlainCodeIs(f, n);
      KnownHead(f.name, body, t);
      Revives(u.env.fns, f.name, body, t, map[]);
    } else {
      GuardedCodeIs(f, n);
      var ex := ExceptLabel(f.name);
      var x := CompStmt(f.except.value, CompStmt(f.body, n).next).code + [Simply(Nvll), Return];
      ExceptTypes(u, sh, f.except.value, few, CompStmt(f.body, n).next);
      assert [Mark(f.name), Try(ex)] + (body + ([Mark(ex)] + x))
          == [Mark(f.name)] + ([Try(ex)] + body) + ([Mark(ex)] + x);
      GuardedHeights(u.env.fns, f.name, ex, body, x, t);
    }
  }

  lemma KnownHead(name: Label, body: seq<Asm>, t: Track)
    requires Once([Mark(name)] + body)
    requires forall l :: Def([Mark(name)] + body, l) && l != name ==> l !in t.at && l !in t.dead
    ensures Fresh(body, t) && Def([Mark(name)] + body, name)
  {
    hide Def;
    OnceParts([Mark(name)], body);
    DefParts([Mark(name)], body);
    DefSingle(Mark(name));
  }

  lemma GuardedHeights(fns: seq<Context>, name: Label, ex: Label, body: seq<Asm>, x: seq<Asm>, t: Track)
    requires name != ex && t.height == None && Types(fns, body, 0, 0, map[]) && Types(fns, x, 0, 0, map[])
    requires body != [] && Heights.Ends(body[|body| - 1]) && x != [] && Heights.Ends(x[|x| - 1])
    requires name in t.at && t.at[name] == 0 && ex in t.at && t.at[ex] == 0 && name !in t.dead && ex !in t.dead
    requires var code := [Mark(name)] + ([Try(ex)] + body) + ([Mark(ex)] + x);
      Once(code) && forall l :: Def(code, l) && l != name && l != ex ==> l !in t.at && l !in t.dead
    ensures var code := [Mark(name)] + ([Try(ex)] + body) + ([Mark(ex)] + x);
      Across(code, t, Infer(fns, code, t)) && Def(code, name) && Def(code, ex)
  {
    hide Infer, Def, Types;
    var b := [Try(ex)] + body;
    var first, second := [Mark(name)] + b, [Mark(ex)] + x;
    OnceParts(first, second);
    DefParts(first, second);
    OnceParts([Mark(name)], b);
    DefParts([Mark(name)], b);
    DefParts([Try(ex)], body);
    DefSingle(Try(ex));
    DefSingle(Mark(name));
    DefSingle(Mark(ex));
    OnceParts([Mark(ex)], x);
    DefParts([Mark(ex)], x);
    TryTypes(fns, ex, 0, map[ex := 0]);
    TypesWiden(fns, body, 0, 0, map[], map[ex := 0]);
    TypesThen(fns, [Try(ex)], body, 0, 0, 0, map[ex := 0]);
    assert b[|b| - 1] == body[|body| - 1];
    Revives(fns, name, b, t, map[ex := 0]);
    var v := Infer(fns, first, t).value;
    Revives(fns, ex, x, v, map[]);
    AcrossBoth(fns, first, second, t);
  }

  ghost predicate AllWf(u: Source, sh: Shape, fns: seq<FunctionDecl>) {
    forall i :: 0 <= i < |fns| ==> SomeWf(u, sh, fns[i])
  }

  ghost predicate SomeWf(u: Source, sh: Shape, f: FunctionDecl) {
    exists slots: nat, few: nat :: OneWf(u, sh, f, slots, few)
  }

  ghost predicate OneWf(u: Source, sh: Shape, f: FunctionDecl, slots: nat, few: nat) {
    WfStmt(u, sh, f.body, slots, {}) && (f.except.Some? ==> WfStmt(u, sh, f.except.value, few, {}))
  }

  lemma {:induction false} FunctionsHeights(u: Source, sh: Shape, fns: seq<FunctionDecl>, n: nat, t: Track)
    requires Named(fns) && AllWf(u, sh, fns) && Once(CompFunctions(fns, n).code)
    requires ReadyFor(CompFunctions(fns, n).code, t, (l: Label) requires Named(fns) => IsHead(fns, l))
    ensures Across(CompFunctions(fns, n).code, t, Infer(u.env.fns, CompFunctions(fns, n).code, t))
    ensures forall l :: IsHead(fns, l) ==> Def(CompFunctions(fns, n).code, l)
    decreases |fns|
  {
    hide Infer, Def, CompFunction, OneWf;
    if fns == [] {
      NothingInferred(u.env.fns, t);
    } else {
      var f, rest := fns[0], fns[1..];
      var a := CompFunction(f, n);
      var b := CompFunctions(rest, a.next);
      OnceParts(a.code, b.code);
      DefParts(a.code, b.code);
      assert SomeWf(u, sh, f);
      var slots: nat, few: nat :| OneWf(u, sh, f, slots, few);
      assert ReadyFor(a.code, t, (l: Label) => Heads1(f, l)) by { HeadsElsewhere(rest, a.next, b.code); }
      WfOf(u, sh, f, slots, few);
      FunctionHeights(u, sh, f, slots, few, n, t);
      HeadsElsewhere(rest, a.next, b.code);
      var v := Infer(u.env.fns, a.code, t).value;
      assert AllWf(u, sh, rest) by { RestWf(u, sh, fns); }
      FunctionsHeights(u, sh, rest, a.next, v);
      AcrossBoth(u.env.fns, a.code, b.code, t);
    }
  }

  lemma RestWf(u: Source, sh: Shape, fns: seq<FunctionDecl>)
    requires fns != [] && AllWf(u, sh, fns)
    ensures AllWf(u, sh, fns[1..])
  {
    hide OneWf, SomeWf;
    forall i | 0 <= i < |fns[1..]| ensures SomeWf(u, sh, fns[1..][i]) {
      assert fns[1..][i] == fns[i + 1];
    }
  }

  lemma WfOf(u: Source, sh: Shape, f: FunctionDecl, slots: nat, few: nat)
    requires OneWf(u, sh, f, slots, few)
    ensures WfStmt(u, sh, f.body, slots, {}) && (f.except.Some? ==> WfStmt(u, sh, f.except.value, few, {}))
  {
  }

  lemma NothingInferred(fns: seq<Context>, t: Track)
    requires t.height == None
    ensures Across([], t, Infer(fns, [], t))
  {
  }

  lemma {:induction false} HeadsElsewhere(fns: seq<FunctionDecl>, n: nat, code: seq<Asm>)
    requires Named(fns) && code == CompFunctions(fns, n).code
    ensures forall l :: IsHead(fns, l) ==> Def(code, l)
    decreases |fns|
  {
    hide Def, CompFunction;
    if fns != [] {
      var a := CompFunction(fns[0], n);
      var b := CompFunctions(fns[1..], a.next);
      HeadsElsewhere(fns[1..], a.next, b.code);
      DefParts(a.code, b.code);
      OwnHeads(fns[0], n);
    }
  }

  lemma OwnHeads(f: FunctionDecl, n: nat)
    requires f.name.Function?
    ensures forall l :: Heads1(f, l) ==> Def(CompFunction(f, n).code, l)
  {
    hide Def, CompFunction, BodyCode;
    var body := BodyCode(f, n);
    DefSingle(Mark(f.name));
    if f.except.None? {
      PlainCodeIs(f, n);
      DefParts([Mark(f.name)], body);
    } else {
      GuardedCodeIs(f, n);
      var ex := ExceptLabel(f.name);
      var x := CompStmt(f.except.value, CompStmt(f.body, n).next).code + [Simply(Nvll), Return];
      DefSingle(Mark(ex));
      DefParts([Mark(ex)], x);
      DefParts(body, [Mark(ex)] + x);
      DefParts([Mark(f.name)], [Try(ex)]);
      var head: seq<Asm> := [Mark(f.name), Try(ex)];
      assert [Mark(f.name)] + [Try(ex)] == head;
      DefParts([Mark(f.name), Try(ex)], body + ([Mark(ex)] + x));
    }
  }

  /** The labels of functions and their except blocks, all entered with no operands. */
  function HeadHeights(fns: seq<FunctionDecl>): (m: Outer)
    requires Named(fns)
    ensures forall l :: l in m <==> IsHead(fns, l)
    ensures forall l :: l in m ==> m[l] == 0
  {
    if fns == [] then map[]
    else
      var rest := HeadHeights(fns[1..])[fns[0].name := 0];
      if fns[0].except.Some? then rest[ExceptLabel(fns[0].name) := 0] else rest
  }

  /** Where the pass over a program starts: the initialisers begin with no operands. */
  function Start(p: SstProgram): Track
    requires Named(p.fns)
  {
    Track(Some(0), HeadHeights(p.fns), {})
  }

  /** The pass over the code of a program finds heights. */
  lemma ProgramInfers(p: SstProgram, n: nat, frame: FunctionDecl -> nat, ops: HeapOps, sh: Shape)
    requires Analysed(p) && WfSource(LinkedImage(p, n, frame, ops).u, sh)
    requires WfExprs(LinkedImage(p, n, frame, ops).u, sh, p.inits, 0)
    ensures var fns, code := LinkedImage(p, n, frame, ops).u.env.fns, CompProgram(p, n);
      && code != [] && Infer(fns, code, Start(p)).Some?
      && Infer(fns, code[..|code| - 1], Start(p)).Some? && Infer(fns, code[..|code| - 1], Start(p)).value.height == None
      && forall l :: IsHead(p.fns, l) ==>
            l in Infer(fns, code, Start(p)).value.at && Infer(fns, code, Start(p)).value.at[l] == 0
  {
    hide Infer, Def, CompFunction, CompArgs, CompFunctions, Types, WfExprs, WfStmt;
    var u := LinkedImage(p, n, frame, ops).u;
    var fns := u.env.fns;
    var ci := CompArgs(p.inits, n);
    var cf := CompFunctions(p.fns, ci.next);
    var init := ci.code + [Simply(Nvll)] + [Exit];
    var t := Start(p);
    assert CompProgram(p, n) == init + cf.code + [Exit];
    ProgramOnce(p, n);
    OnceParts(init + cf.code, [Exit]);
    OnceParts(init, cf.code);
    HeadsElsewhere(p.fns, ci.next, cf.code);
    ArgsTypes(u, sh, p.inits, 0, n, 0);
    var k := Count(p.inits);
    PrimTypes(fns, Simple(Nvll), k, map[]);
    TypesThen(fns, ci.code, [Simply(Nvll)], 0, k, k + 1, map[]);
    EndTypes(fns, Exit, k + 1, 0, map[]);
    TypesThen(fns, ci.code + [Simply(Nvll)], [Exit], 0, k + 1, 0, map[]);
    InitRuns(fns, init, t, p);
    EndsNone(fns, ci.code + [Simply(Nvll)], Exit, t);
    var v := Infer(fns, init, t).value;
    FunctionsWf(p, n, frame, ops, sh);
    FunctionsHeights(u, sh, p.fns, ci.next, v);
    InferConcat(fns, init, cf.code, t);
    InferConcat(fns, init + cf.code, [Exit], t);
    InferSingle(fns, Exit, Infer(fns, cf.code, v).value);
    assert CompProgram(p, n)[..|CompProgram(p, n)| - 1] == init + cf.code;
  }

  lemma ProgramOnce(p: SstProgram, n: nat)
    requires Analysed(p)
    ensures Once(CompProgram(p, n))
  {
    hide CompProgram;
    forall l ensures ClosedCode.Tally(ClosedCode.Defined, CompProgram(p, n), l) <= 1 { ClosedProgram(p, n, l); }
  }

  lemma FunctionsWf(p: SstProgram, n: nat, frame: FunctionDecl -> nat, ops: HeapOps, sh: Shape)
    requires Analysed(p) && WfSource(LinkedImage(p, n, frame, ops).u, sh)
    ensures AllWf(LinkedImage(p, n, frame, ops).u, sh, p.fns)
  {
    hide WfStmt;
    var u := LinkedImage(p, n, frame, ops).u;
    forall i | 0 <= i < |p.fns| ensures SomeWf(u, sh, p.fns[i]) {
      assert WfFunction(u, sh, i);
      var c := u.env.fns[i];
      assert OneWf(u, sh, p.fns[i], Arity(c) + sh.captures[i] + c.frameSize, 1 + c.frameSize);
    }
  }

  lemma InitRuns(fns: seq<Context>, init: seq<Asm>, t: Track, p: SstProgram)
    requires Named(p.fns) && t == Start(p) && Types(fns, init, 0, 0, map[]) && Once(init)
    requires forall l :: IsHead(p.fns, l) ==> !Def(init, l)
    ensures Leaves(init, t, Infer(fns, init, t), 0, map[])
  {
    hide Infer, Def;
    assert Enters(init, t, 0, map[]);
  }
}
