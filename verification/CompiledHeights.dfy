/** Compiled code has heights: an expression leaves one operand more, a statement as many
    as before, a binding one less. */
module CompiledHeights {
  import opened Values
  import opened Instructions
  import opened Sst
  import opened BigStep
  import opened Compile
  import opened WellFormed
  import opened Heights

  type Outer = map<Label, nat>

  predicate OnlyEnds(outer: Outer) { forall l :: l in outer ==> WellFormed.EndLabel(l) }

  /** Cases of a switch that may be jumped to at height k. */
  function CaseLabels(arms: Arms, id: nat, i: nat, k: nat): Outer {
    match arms
    case Default(_) => map[]
    case Arm(_, _, tail) => CaseLabels(tail, id, i + 1, k)[Jmp("SWITCH", id, Case(i)) := k]
  }

  lemma {:induction false} CaseLabelsAre(arms: Arms, id: nat, i: nat, k: nat)
    ensures forall l :: l in CaseLabels(arms, id, i, k) ==>
      l.Jump? && l.kind == "SWITCH" && l.part.Case? && l.part.i >= i && CaseLabels(arms, id, i, k)[l] == k
    decreases arms
  {
    if arms.Arm? { CaseLabelsAre(arms.tail, id, i + 1, k); }
  }

  ghost predicate ArmsType(fns: seq<Context>, arms: Arms, h: nat, g: nat, outer: Outer) {
    match arms
    case Default(body) => Types(fns, body, h, g, outer)
    case Arm(test, body, tail) =>
      && Types(fns, test, h + 2, h + 3, map[]) && Types(fns, body, h, g, outer) && ArmsType(fns, tail, h, g, outer)
  }

  lemma {:induction false} TestsType(
    fns: seq<Context>, arms: Arms, id: nat, i: nat, h: nat, g: nat, o: Outer, outer: Outer)
    requires ArmsType(fns, arms, h, g, o)
    requires forall l :: l in CaseLabels(arms, id, i, h + 1) ==> l in outer && outer[l] == h + 1
    ensures Types(fns, SwitchTests(arms, id, i), h + 1, h + 1, outer)
    decreases arms
  {
    hide Types;
    match arms
    case Default(_) => NoCode(fns, h + 1, outer);
    case Arm(test, body, tail) =>
      CaseLabelsAre(tail, id, i + 1, h + 1);
      TestsType(fns, tail, id, i + 1, h, g, o, outer);
      var l := Jmp("SWITCH", id, Case(i));
      assert l in CaseLabels(arms, id, i, h + 1);
      DuplicateTypes(fns, h + 1, outer);
      TypesWiden(fns, test, h + 2, h + 3, map[], outer);
      TypesThen(fns, [Duplicate], test, h + 1, h + 2, h + 3, outer);
      PrimTypes(fns, Simple(Ueql), h + 3, outer);
      TypesThen(fns, [Duplicate] + test, [Simply(Ueql)], h + 1, h + 3, h + 2, outer);
      BranchTypes(fns, l, h + 2, outer);
      TypesThen(fns, [Duplicate] + test + [Simply(Ueql)], [IfElse(l)], h + 1, h + 2, h + 1, outer);
      TypesThen(fns, [Duplicate] + test + [Simply(Ueql)] + [IfElse(l)], SwitchTests(tail, id, i + 1), h + 1, h + 1,
        h + 1, outer);
      TestShape(test, l, SwitchTests(tail, id, i + 1));
  }

  lemma TestShape(test: seq<Asm>, l: Label, rest: seq<Asm>)
    ensures [Duplicate] + test + [Simply(Ueql)] + [IfElse(l)] + rest
         == [Duplicate] + (test + ([Simply(Ueql), IfElse(l)] + rest))
  {
  }

  /** q is the code so far, up to its jump to the end; inEnd knows the end label. */
  lemma {:induction false} BodiesType(
    fns: seq<Context>, q: seq<Asm>, arms: Arms, id: nat, i: nat, from: nat, h: nat, g: nat, outer: Outer, inEnd: Outer)
    requires OnlyEnds(outer) && inEnd == outer[Jmp("SWITCH", id, End) := g] && ArmsType(fns, arms, h, g, outer)
    requires Types(fns, q, from, g, inEnd + CaseLabels(arms, id, i, h + 1))
    ensures Types(fns, q + [Goto(Jmp("SWITCH", id, End))] + SwitchBodies(arms, id, i), from, g, inEnd)
    decreases arms
  {
    hide Types;
    var end := Jmp("SWITCH", id, End);
    var all := inEnd + CaseLabels(arms, id, i, h + 1);
    CaseLabelsAre(arms, id, i, h + 1);
    match arms
    case Default(_) =>
      assert all == inEnd;
      LeaveTypes(fns, end, g, g, inEnd);
      TypesThen(fns, q, [Goto(end)], from, g, g, inEnd);
      assert q + [Goto(end)] + SwitchBodies(arms, id, i) == q + [Goto(end)];
    case Arm(_, body, tail) =>
      var l := Jmp("SWITCH", id, Case(i));
      var rest := inEnd + CaseLabels(tail, id, i + 1, h + 1);
      CaseLabelsAre(tail, id, i + 1, h + 1);
      assert rest[l := h + 1] == all;
      LeaveTypes(fns, end, g, h + 1, all);
      TypesThen(fns, q, [Goto(end)], from, g, h + 1, all);
      StepTypes(fns, Scrap, h + 1, rest);
      TypesWiden(fns, body, h, g, outer, rest);
      TypesThen(fns, [Scrap], body, h + 1, h, g, rest);
      CloseForward(fns, q + [Goto(end)], l, [Scrap] + body, from, h + 1, g, rest);
      var q' := q + [Goto(end)] + [Mark(l)] + ([Scrap] + body);
      BodiesType(fns, q', tail, id, i + 1, from, h, g, outer, inEnd);
      assert q' + [Goto(end)] + SwitchBodies(tail, id, i + 1) == q + [Goto(end)] + SwitchBodies(arms, id, i);
  }

  lemma {:induction false} DefaultTypes(fns: seq<Context>, arms: Arms, h: nat, g: nat, outer: Outer)
    requires ArmsType(fns, arms, h, g, outer)
    ensures Types(fns, DefaultBody(arms), h, g, outer)
    decreases arms
  {
    hide Types;
    if arms.Arm? { DefaultTypes(fns, arms.tail, h, g, outer); }
  }

  lemma SwitchTypes(fns: seq<Context>, x: seq<Asm>, arms: Arms, id: nat, h: nat, g: nat, outer: Outer)
    requires OnlyEnds(outer) && Types(fns, x, h, h + 1, map[]) && ArmsType(fns, arms, h, g, outer)
    ensures Types(fns, SwitchCode(x, arms, id), h, g, outer)
  {
    hide Types, ArmsType;
    var end := Jmp("SWITCH", id, End);
    var inEnd := outer[end := g];
    var all := inEnd + CaseLabels(arms, id, 0, h + 1);
    CaseLabelsAre(arms, id, 0, h + 1);
    TypesWiden(fns, x, h, h + 1, map[], all);
    TestsType(fns, arms, id, 0, h, g, outer, all);
    var tests := SwitchTests(arms, id, 0);
    TypesThen(fns, x, tests, h, h + 1, h + 1, all);
    StepTypes(fns, Scrap, h + 1, all);
    TypesThen(fns, x + tests, [Scrap], h, h + 1, h, all);
    DefaultTypes(fns, arms, h, g, outer);
    TypesWiden(fns, DefaultBody(arms), h, g, outer, all);
    TypesThen(fns, x + tests + [Scrap], DefaultBody(arms), h, h, g, all);
    var q := x + tests + [Scrap] + DefaultBody(arms);
    BodiesType(fns, q, arms, id, 0, h, h, g, outer, inEnd);
    NoCode(fns, g, outer);
    CloseForward(fns, q + [Goto(end)] + SwitchBodies(arms, id, 0), end, [], h, g, g, outer);
    SwitchShape(x, arms, id);
  }

  lemma SwitchShape(x: seq<Asm>, arms: Arms, id: nat)
    ensures SwitchCode(x, arms, id) ==
      x + SwitchTests(arms, id, 0) + [Scrap] + DefaultBody(arms) + [Goto(Jmp("SWITCH", id, End))]
        + SwitchBodies(arms, id, 0) + [Mark(Jmp("SWITCH", id, End))] + []
  {
    hide SwitchTests, SwitchBodies, DefaultBody;
  }

  function Returns(targets: set<Label>, k: nat): Outer { map l | l in targets :: k }

  predicate AllEnds(targets: set<Label>) { forall l :: l in targets ==> WellFormed.EndLabel(l) }

  /** An expression leaves one operand more. */
  lemma {:induction false} ExprTypes(u: Source, sh: Shape, e: Expr, slots: nat, n: nat, h: nat)
    requires WfExpr(u, sh, e, slots)
    ensures Types(u.env.fns, CompExpr(e, n).code, h, h + 1, map[])
    decreases e, 1
  {
    hide Types, WfExpr, CompExpr;
    match e
    case Lit(_) => LeafTypes(u, sh, e, slots, n, h);
    case Var(_) => LeafTypes(u, sh, e, slots, n, h);
    case GlobalVar(_) => LeafTypes(u, sh, e, slots, n, h);
    case Strict(_, _) => StrictTypes(u, sh, e, slots, n, h);
    case NullTest(_) => NullTestTypes(u, sh, e, slots, n, h);
    case Logic(_, _, _) => LogicExprTypes(u, sh, e, slots, n, h);
    case Ternary(_, _, _) => TernaryTypes(u, sh, e, slots, n, h);
    case Conditional(_) => ConditionalExprTypes(u, sh, e, slots, n, h);
    case Switch(_, _) => SwitchExprTypes(u, sh, e, slots, n, h);
    case StructLit(_) => StructTypes(u, sh, e, slots, n, h);
    case MapLit(_) => MapTypes(u, sh, e, slots, n, h);
    case CallExpr(_, _) => CallTypes(u, sh, e, slots, n, h);
    case InvokeExpr(_, _) => InvokeTypes(u, sh, e, slots, n, h);
    case InvokeMember(_, _, _) => InvokeMemberTypes(u, sh, e, slots, n, h);
    case FxPointer(_, _) => FxPointerTypes(u, sh, e, slots, n, h);
    case Iife(_, _) => BlockTypes(u, sh, e, slots, n, h);
  }

  lemma LeafTypes(u: Source, sh: Shape, e: Expr, slots: nat, n: nat, h: nat)
    requires e.Lit? || e.Var? || e.GlobalVar?
    ensures Types(u.env.fns, CompExpr(e, n).code, h, h + 1, map[])
  {
    hide Types;
    var i := match e case Lit(l) => CompLit(l) case Var(a) => LoadX(a) case GlobalVar(a) => GlobalRead(a);
    StepTypes(u.env.fns, i, h, map[]);
  }

  lemma {:induction false} StrictTypes(u: Source, sh: Shape, e: Expr, slots: nat, n: nat, h: nat)
    requires e.Strict? && WfExpr(u, sh, e, slots)
    ensures Types(u.env.fns, CompExpr(e, n).code, h, h + 1, map[])
    decreases e, 0
  {
    hide Types;
    var fns := u.env.fns;
    var op: Asm := Prim(StrictOp(e.node, Count(e.args)));
    ArgsTypes(u, sh, e.args, slots, n, h);
    PrimTypes(fns, StrictOp(e.node, Count(e.args)), h + Count(e.args), map[]);
    TypesThen(fns, CompArgs(e.args, n).code, [op], h, h + Count(e.args), h + 1, map[]);
  }

  lemma {:induction false} LogicExprTypes(u: Source, sh: Shape, e: Expr, slots: nat, n: nat, h: nat)
    requires e.Logic? && WfExpr(u, sh, e, slots)
    ensures Types(u.env.fns, CompExpr(e, n).code, h, h + 1, map[])
    decreases e, 0
  {
    hide Types;
    var fns := u.env.fns;
    var cl := CompExpr(e.l, n);
    var cr := CompExpr(e.r, cl.next);
    ExprTypes(u, sh, e.l, slots, n, h);
    ExprTypes(u, sh, e.r, slots, cl.next, h);
    LogicTypes(fns, e.lop, cr.next, cl.code, cr.code, h);
  }

  lemma {:induction false} TernaryTypes(u: Source, sh: Shape, e: Expr, slots: nat, n: nat, h: nat)
    requires e.Ternary? && WfExpr(u, sh, e, slots)
    ensures Types(u.env.fns, CompExpr(e, n).code, h, h + 1, map[])
    decreases e, 0
  {
    hide Types;
    var fns := u.env.fns;
    var cc := CompExpr(e.cond, n + 1);
    var ct := CompExpr(e.thn, cc.next);
    ExprTypes(u, sh, e.cond, slots, n + 1, h);
    ExprTypes(u, sh, e.thn, slots, cc.next, h);
    ExprTypes(u, sh, e.els, slots, ct.next, h);
    ElseTypes(fns, "TERNARY", n, cc.code, ct.code, CompExpr(e.els, ct.next).code, h, h + 1, map[]);
  }

  lemma {:induction false} ConditionalExprTypes(u: Source, sh: Shape, e: Expr, slots: nat, n: nat, h: nat)
    requires e.Conditional? && WfExpr(u, sh, e, slots)
    ensures Types(u.env.fns, CompExpr(e, n).code, h, h + 1, map[])
    decreases e, 0
  {
    hide Types;
    var fns := u.env.fns;
    ConditionalTypes(u, sh, e.cases, slots, None, n, h);
  }

  lemma {:induction false} SwitchExprTypes(u: Source, sh: Shape, e: Expr, slots: nat, n: nat, h: nat)
    requires e.Switch? && WfExpr(u, sh, e, slots)
    ensures Types(u.env.fns, CompExpr(e, n).code, h, h + 1, map[])
    decreases e, 0
  {
    hide Types;
    var fns := u.env.fns;
    var cx := CompExpr(e.subject, n);
    var (arms, next) := CompArms(e.cases, cx.next);
    ExprTypes(u, sh, e.subject, slots, n, h);
    ArmsTypes(u, sh, e.cases, slots, None, cx.next, h);
    SwitchTypes(fns, cx.code, arms, next, h, h + 1, map[]);
  }

  lemma {:induction false} StructTypes(u: Source, sh: Shape, e: Expr, slots: nat, n: nat, h: nat)
    requires e.StructLit? && WfExpr(u, sh, e, slots)
    ensures Types(u.env.fns, CompExpr(e, n).code, h, h + 1, map[])
    decreases e, 0
  {
    hide Types;
    var fns := u.env.fns;
    PrimTypes(fns, Simple(NewStruct), h, map[]);
    MembersTypes(u, sh, e.members, slots, n, h + 1);
    TypesThen(fns, [Simply(NewStruct)], CompMembers(e.members, n).code, h, h + 1, h + 1, map[]);
  }

  lemma {:induction false} MapTypes(u: Source, sh: Shape, e: Expr, slots: nat, n: nat, h: nat)
    requires e.MapLit? && WfExpr(u, sh, e, slots)
    ensures Types(u.env.fns, CompExpr(e, n).code, h, h + 1, map[])
    decreases e, 0
  {
    hide Types;
    var fns := u.env.fns;
    PrimTypes(fns, Simple(NewMap), h, map[]);
    PairsTypes(u, sh, e.pairs, slots, n, h + 1);
    TypesThen(fns, [Simply(NewMap)], CompPairs(e.pairs, n).code, h, h + 1, h + 1, map[]);
  }

  lemma {:induction false} CallTypes(u: Source, sh: Shape, e: Expr, slots: nat, n: nat, h: nat)
    requires e.CallExpr? && WfExpr(u, sh, e, slots)
    ensures Types(u.env.fns, CompExpr(e, n).code, h, h + 1, map[])
    decreases e, 0
  {
    hide Types;
    var fns := u.env.fns;
    ArgsTypes(u, sh, e.args, slots, n, h);
    StepTypes(fns, Call(e.fn), h + Count(e.args), map[]);
    TypesThen(fns, CompArgs(e.args, n).code, [Call(e.fn)], h, h + Count(e.args), h + 1, map[]);
  }

  lemma {:induction false} FxPointerTypes(u: Source, sh: Shape, e: Expr, slots: nat, n: nat, h: nat)
    requires e.FxPointer? && WfExpr(u, sh, e, slots)
    ensures Types(u.env.fns, CompExpr(e, n).code, h, h + 1, map[])
    decreases e, 0
  {
    hide Types;
    var fns := u.env.fns;
    StepTypes(fns, NewFx(e.fn), h, map[]);
    CapturesTypes(u, sh, e.args, slots, n, h + 1);
    TypesThen(fns, [NewFx(e.fn)], CompCaptures(e.args, n).code, h, h + 1, h + 1, map[]);
  }

  lemma {:induction false} BlockTypes(u: Source, sh: Shape, e: Expr, slots: nat, n: nat, h: nat)
    requires e.Iife? && WfExpr(u, sh, e, slots)
    ensures Types(u.env.fns, CompExpr(e, n).code, h, h + 1, map[])
    decreases e, 0
  {
    hide Types;
    var fns := u.env.fns;
    StmtTypes(u, sh, e.body, slots, {e.end}, n, h);
    assert Returns({e.end}, h + 1) == map[e.end := h + 1];
    IifeTypes(fns, e.end, CompStmt(e.body, n).code, h);
  }

  lemma {:induction false} NullTestTypes(u: Source, sh: Shape, e: Expr, slots: nat, n: nat, h: nat)
    requires e.NullTest? && WfExpr(u, sh, e, slots)
    ensures Types(u.env.fns, CompExpr(e, n).code, h, h + 1, map[])
    decreases e, 0
  {
    hide Types;
    var fns := u.env.fns;
    var m := CompExpr(e.e, n).next;
    var x := CompExpr(e.e, m).code;
    ExprTypes(u, sh, e.e, slots, m, h);
    PrimTypes(fns, Simple(Nvll), h + 1, map[]);
    TypesThen(fns, x, [Simply(Nvll)], h, h + 1, h + 2, map[]);
    PrimTypes(fns, Simple(Ueql), h + 2, map[]);
    TypesThen(fns, x + [Simply(Nvll)], [Simply(Ueql)], h, h + 2, h + 1, map[]);
    assert x + [Simply(Nvll)] + [Simply(Ueql)] == x + [Simply(Nvll), Simply(Ueql)];
  }

  lemma {:induction false} InvokeTypes(u: Source, sh: Shape, e: Expr, slots: nat, n: nat, h: nat)
    requires e.InvokeExpr? && WfExpr(u, sh, e, slots)
    ensures Types(u.env.fns, CompExpr(e, n).code, h, h + 1, map[])
    decreases e, 0
  {
    hide Types;
    var fns, k := u.env.fns, h + Count(e.args);
    var ca := CompArgs(e.args, n);
    var cf := CompExpr(e.fnExpr, ca.next);
    ArgsTypes(u, sh, e.args, slots, n, h);
    ExprTypes(u, sh, e.fnExpr, slots, ca.next, k);
    TypesThen(fns, ca.code, cf.code, h, k, k + 1, map[]);
    InvokeStepTypes(fns, Count(e.args), k + 1, map[]);
    TypesThen(fns, ca.code + cf.code, [Invoke(Count(e.args))], h, k + 1, h + 1, map[]);
    assert ca.code + cf.code + [Invoke(Count(e.args))] == ca.code + (cf.code + [Invoke(Count(e.args))]);
  }

  lemma {:induction false} InvokeMemberTypes(u: Source, sh: Shape, e: Expr, slots: nat, n: nat, h: nat)
    requires e.InvokeMember? && WfExpr(u, sh, e, slots)
    ensures Types(u.env.fns, CompExpr(e, n).code, h, h + 1, map[])
    decreases e, 0
  {
    hide Types;
    var fns, k := u.env.fns, h + 2 + Count(e.args);
    var cx := CompExpr(e.e, n);
    var ca := CompMemberArgs(e.args, cx.next);
    var read, invoke: Asm := Prim(MemberRead(e.id)), Invoke(Count(e.args) + 1);
    ExprTypes(u, sh, e.e, slots, n, h);
    DuplicateTypes(fns, h + 1, map[]);
    TypesThen(fns, cx.code, [Duplicate], h, h + 1, h + 2, map[]);
    PrimTypes(fns, MemberRead(e.id), h + 2, map[]);
    TypesThen(fns, cx.code + [Duplicate], [read], h, h + 2, h + 2, map[]);
    MemberArgsTypes(u, sh, e.args, slots, cx.next, h + 2);
    TypesThen(fns, cx.code + [Duplicate] + [read], ca.code, h, h + 2, k, map[]);
    InvokeStepTypes(fns, Count(e.args) + 1, k, map[]);
    TypesThen(fns, cx.code + [Duplicate] + [read] + ca.code, [invoke], h, k, h + 1, map[]);
    assert cx.code + [Duplicate] + [read] + ca.code + [invoke] == cx.code + ([Duplicate, read] + (ca.code + [invoke]));
  }

  lemma {:induction false} ArgsTypes(u: Source, sh: Shape, es: Exprs, slots: nat, n: nat, h: nat)
    requires WfExprs(u, sh, es, slots)
    ensures Types(u.env.fns, CompArgs(es, n).code, h, h + Count(es), map[])
    decreases es
  {
    hide Types;
    if es.ENil? {
      NoCode(u.env.fns, h, map[]);
    } else {
      var ce := CompExpr(es.head, n);
      ExprTypes(u, sh, es.head, slots, n, h);
      ArgsTypes(u, sh, es.tail, slots, ce.next, h + 1);
      TypesThen(u.env.fns, ce.code, CompArgs(es.tail, ce.next).code, h, h + 1, h + Count(es), map[]);
    }
  }

  lemma {:induction false} MemberArgsTypes(u: Source, sh: Shape, es: Exprs, slots: nat, n: nat, h: nat)
    requires WfExprs(u, sh, es, slots) && h > 0
    ensures Types(u.env.fns, CompMemberArgs(es, n).code, h, h + Count(es), map[])
    decreases es
  {
    hide Types;
    if es.ENil? {
      NoCode(u.env.fns, h, map[]);
    } else {
      var ce := CompExpr(es.head, n);
      var rest := CompMemberArgs(es.tail, ce.next).code;
      ExprTypes(u, sh, es.head, slots, n, h);
      SwapTypes(u.env.fns, h + 1, map[]);
      TypesThen(u.env.fns, ce.code, [Swap], h, h + 1, h + 1, map[]);
      MemberArgsTypes(u, sh, es.tail, slots, ce.next, h + 1);
      TypesThen(u.env.fns, ce.code + [Swap], rest, h, h + 1, h + Count(es), map[]);
      assert ce.code + [Swap] + rest == ce.code + ([Swap] + rest);
    }
  }

  lemma {:induction false} CapturesTypes(u: Source, sh: Shape, es: Exprs, slots: nat, n: nat, h: nat)
    requires WfExprs(u, sh, es, slots) && h > 0
    ensures Types(u.env.fns, CompCaptures(es, n).code, h, h, map[])
    decreases es
  {
    hide Types;
    if es.ENil? {
      NoCode(u.env.fns, h, map[]);
    } else {
      var ce := CompExpr(es.head, n);
      var rest := CompCaptures(es.tail, ce.next).code;
      ExprTypes(u, sh, es.head, slots, n, h);
      StepTypes(u.env.fns, Capture, h + 1, map[]);
      TypesThen(u.env.fns, ce.code, [Capture], h, h + 1, h, map[]);
      CapturesTypes(u, sh, es.tail, slots, ce.next, h);
      TypesThen(u.env.fns, ce.code + [Capture], rest, h, h, h, map[]);
      assert ce.code + [Capture] + rest == ce.code + ([Capture] + rest);
    }
  }

  lemma {:induction false} MembersTypes(u: Source, sh: Shape, ms: Members, slots: nat, n: nat, h: nat)
    requires WfMembers(u, sh, ms, slots) && h > 0
    ensures Types(u.env.fns, CompMembers(ms, n).code, h, h, map[])
    decreases ms
  {
    hide Types;
    var fns := u.env.fns;
    if ms.MNil? {
      NoCode(fns, h, map[]);
    } else {
      var ce := CompExpr(ms.e, n);
      var rest := CompMembers(ms.tail, ce.next).code;
      var put: Asm := Prim(MemberWrite(ms.id));
      DuplicateTypes(fns, h, map[]);
      ExprTypes(u, sh, ms.e, slots, n, h + 1);
      TypesThen(fns, [Duplicate], ce.code, h, h + 1, h + 2, map[]);
      SwapTypes(fns, h + 2, map[]);
      TypesThen(fns, [Duplicate] + ce.code, [Swap], h, h + 2, h + 2, map[]);
      PrimTypes(fns, MemberWrite(ms.id), h + 2, map[]);
      TypesThen(fns, [Duplicate] + ce.code + [Swap], [put], h, h + 2, h, map[]);
      MembersTypes(u, sh, ms.tail, slots, ce.next, h);
      TypesThen(fns, [Duplicate] + ce.code + [Swap] + [put], rest, h, h, h, map[]);
      assert [Duplicate] + ce.code + [Swap] + [put] + rest == [Duplicate] + (ce.code + ([Swap, put] + rest));
    }
  }

  lemma {:induction false} PairsTypes(u: Source, sh: Shape, ps: Pairs, slots: nat, n: nat, h: nat)
    requires WfPairs(u, sh, ps, slots) && h > 0
    ensures Types(u.env.fns, CompPairs(ps, n).code, h, h, map[])
    decreases ps
  {
    hide Types;
    var fns := u.env.fns;
    if ps.PNil? {
      NoCode(fns, h, map[]);
    } else {
      var ce := CompExpr(ps.val, n);
      var ck := CompExpr(ps.key, ce.next);
      var rest := CompPairs(ps.tail, ck.next).code;
      DuplicateTypes(fns, h, map[]);
      ExprTypes(u, sh, ps.val, slots, n, h + 1);
      TypesThen(fns, [Duplicate], ce.code, h, h + 1, h + 2, map[]);
      SwapTypes(fns, h + 2, map[]);
      TypesThen(fns, [Duplicate] + ce.code, [Swap], h, h + 2, h + 2, map[]);
      ExprTypes(u, sh, ps.key, slots, ce.next, h + 2);
      TypesThen(fns, [Duplicate] + ce.code + [Swap], ck.code, h, h + 2, h + 3, map[]);
      PrimTypes(fns, Simple(AtWrite), h + 3, map[]);
      TypesThen(fns, [Duplicate] + ce.code + [Swap] + ck.code, [Simply(AtWrite)], h, h + 3, h, map[]);
      PairsTypes(u, sh, ps.tail, slots, ck.next, h);
      TypesThen(fns, [Duplicate] + ce.code + [Swap] + ck.code + [Simply(AtWrite)], rest, h, h, h, map[]);
      PairShape(ce.code, ck.code, rest);
    }
  }

  lemma PairShape(x: seq<Asm>, k: seq<Asm>, rest: seq<Asm>)
    ensures [Duplicate] + x + [Swap] + k + [Simply(AtWrite)] + rest
         == [Duplicate] + (x + ([Swap] + (k + ([Simply(AtWrite)] + rest))))
  {
  }

  function Kept(targets: Option<set<Label>>, h: nat): nat { if targets.None? then h + 1 else h }

  function Around(targets: Option<set<Label>>, h: nat): Outer {
    if targets.None? then map[] else Returns(targets.value, h + 1)
  }

  predicate EndsOnly(targets: Option<set<Label>>) { targets.Some? ==> AllEnds(targets.value) }

  lemma {:induction false} NodeTypes(
    u: Source, sh: Shape, x: Node, slots: nat, targets: Option<set<Label>>, n: nat, h: nat)
    requires WfNode(u, sh, x, slots, targets) && EndsOnly(targets)
    ensures Types(u.env.fns, CompNode(x, n).code, h, Kept(targets, h), Around(targets, h))
    decreases x
  {
    hide Types;
    match x
    case E(e) => ExprTypes(u, sh, e, slots, n, h);
    case S(s) => StmtTypes(u, sh, s, slots, targets.value, n, h);
  }

  lemma {:induction false} ArmsTypes(
    u: Source, sh: Shape, cs: Cases, slots: nat, targets: Option<set<Label>>, n: nat, h: nat)
    requires WfCases(u, sh, cs, slots, targets) && EndsOnly(targets)
    ensures ArmsType(u.env.fns, CompArms(cs, n).0, h, Kept(targets, h), Around(targets, h))
    decreases cs
  {
    hide Types;
    match cs
    case Otherwise(x) => NodeTypes(u, sh, x, slots, targets, n, h);
    case CCons(c, x, tail) =>
      var cc := CompExpr(c, n);
      var cb := CompNode(x, cc.next);
      ExprTypes(u, sh, c, slots, n, h + 2);
      NodeTypes(u, sh, x, slots, targets, cc.next, h);
      ArmsTypes(u, sh, tail, slots, targets, cb.next, h);
  }

  lemma {:induction false} ConditionalTypes(
    u: Source, sh: Shape, cs: Cases, slots: nat, targets: Option<set<Label>>, n: nat, h: nat)
    requires WfCases(u, sh, cs, slots, targets) && EndsOnly(targets)
    ensures Types(u.env.fns, CompCascade(cs, n, 0, n + 1).code, h, Kept(targets, h), Around(targets, h))
    decreases cs, 1
  {
    hide Types;
    var outer := Around(targets, h);
    NoCode(u.env.fns, h, outer[Jmp("CONDTIONAL", n, End) := Kept(targets, h)][Jmp("CONDTIONAL", n, Cond(1)) := h]);
    CascadeTypes(u, sh, [], cs, slots, targets, n, 0, n + 1, h);
    assert [] + CompCascade(cs, n, 0, n + 1).code == CompCascade(cs, n, 0, n + 1).code;
  }

  /** p is the code so far; from it the cases from i on are reached. */
  lemma {:induction false} CascadeTypes(
    u: Source, sh: Shape, p: seq<Asm>, cs: Cases, slots: nat, targets: Option<set<Label>>, id: nat, i: nat, n: nat,
    h: nat)
    requires WfCases(u, sh, cs, slots, targets) && EndsOnly(targets)
    requires Types(u.env.fns, p, h, h,
               Around(targets, h)[Jmp("CONDTIONAL", id, End) := Kept(targets, h)]
               [Jmp("CONDTIONAL", id, Cond(i + 1)) := h])
    ensures Types(u.env.fns, p + CompCascade(cs, id, i, n).code, h, Kept(targets, h), Around(targets, h))
    decreases cs, 0
  {
    hide Types;
    var fns, g, outer := u.env.fns, Kept(targets, h), Around(targets, h);
    var here, end := Jmp("CONDTIONAL", id, Cond(i + 1)), Jmp("CONDTIONAL", id, End);
    var inEnd := outer[end := g];
    match cs
    case Otherwise(x) =>
      var co := CompNode(x, n);
      NodeTypes(u, sh, x, slots, targets, n, h);
      TypesWiden(fns, co.code, h, g, outer, inEnd);
      CloseForward(fns, p, here, co.code, h, h, g, inEnd);
      NoCode(fns, g, outer);
      CloseForward(fns, p + [Mark(here)] + co.code, end, [], h, g, g, outer);
      assert p + [Mark(here)] + co.code + [Mark(end)] + [] == p + ([Mark(here)] + (co.code + [Mark(end)]));
    case CCons(c, x, tail) =>
      var next := Jmp("CONDTIONAL", id, Cond(i + 2));
      var inNext := inEnd[next := h];
      var cc := CompExpr(c, n);
      var cb := CompNode(x, cc.next);
      var rest := CompCascade(tail, id, i + 1, cb.next).code;
      ExprTypes(u, sh, c, slots, n, h);
      TypesWiden(fns, cc.code, h, h + 1, map[], inNext);
      BranchTypes(fns, next, h + 1, inNext);
      TypesThen(fns, cc.code, [IfElse(next)], h, h + 1, h, inNext);
      NodeTypes(u, sh, x, slots, targets, cc.next, h);
      TypesWiden(fns, cb.code, h, g, outer, inNext);
      TypesThen(fns, cc.code + [IfElse(next)], cb.code, h, h, g, inNext);
      LeaveTypes(fns, end, g, h, inNext);
      TypesThen(fns, cc.code + [IfElse(next)] + cb.code, [Goto(end)], h, g, h, inNext);
      var piece := cc.code + [IfElse(next)] + cb.code + [Goto(end)];
      TypesWiden(fns, p, h, h, inEnd[here := h], inNext[here := h]);
      CloseForward(fns, p, here, piece, h, h, h, inNext);
      CascadeTypes(u, sh, p + [Mark(here)] + piece, tail, slots, targets, id, i + 1, cb.next, h);
      CascadeShape(p, here, cc.code, next, cb.code, end, rest);
  }

  lemma CascadeShape(p: seq<Asm>, here: Label, c: seq<Asm>, next: Label, b: seq<Asm>, end: Label, rest: seq<Asm>)
    ensures p + [Mark(here)] + (c + [IfElse(next)] + b + [Goto(end)]) + rest
         == p + ([Mark(here)] + (c + ([IfElse(next)] + (b + ([Goto(end)] + rest)))))
  {
  }

  /** A binding takes the operand it binds. */
  lemma {:induction false} BindTypes(u: Source, sh: Shape, b: Binding, slots: nat, n: nat, h: nat)
    requires WfBinding(u, sh, b, slots)
    ensures Types(u.env.fns, CompBind(b, n).code, h + 1, h, map[])
    decreases b
  {
    hide Types;
    var fns := u.env.fns;
    match b
    case NewVar(a) => StepTypes(fns, StoreX(a), h + 1, map[]);
    case Local(a) => StepTypes(fns, StoreX(a), h + 1, map[]);
    case Global(a) => StepTypes(fns, GlobalWrite(a), h + 1, map[]);
    case Discard => StepTypes(fns, Scrap, h + 1, map[]);
    case Group(subs) =>
      var k := CountBindings(subs);
      StepTypes(fns, Unpack(k % 256), h + 1, map[]);
      BindsTypes(u, sh, subs, slots, n, h);
      TypesThen(fns, [Unpack(k % 256)], CompBinds(subs, n).code, h + 1, h + k, h, map[]);
    case Place(place, es) =>
      ArgsTypes(u, sh, es, slots, n, h + 1);
      PrimTypes(fns, PlaceOp(place), h + 1 + Count(es), map[]);
      TypesThen(fns, CompArgs(es, n).code, [Prim(PlaceOp(place))], h + 1, h + 1 + Count(es), h, map[]);
  }

  lemma {:induction false} BindsTypes(u: Source, sh: Shape, bs: Bindings, slots: nat, n: nat, h: nat)
    requires WfBindings(u, sh, bs, slots)
    ensures Types(u.env.fns, CompBinds(bs, n).code, h + CountBindings(bs), h, map[])
    decreases bs
  {
    hide Types;
    if bs.BNil? {
      NoCode(u.env.fns, h, map[]);
    } else {
      var k := h + CountBindings(bs.tail);
      var cb := CompBind(bs.head, n);
      BindTypes(u, sh, bs.head, slots, n, k);
      BindsTypes(u, sh, bs.tail, slots, cb.next, h);
      TypesThen(u.env.fns, cb.code, CompBinds(bs.tail, cb.next).code, k + 1, k, h, map[]);
    }
  }

  /** A statement leaves as many operands as there were; what it returns to the end of an
      immediately invoked block is one more. */
  lemma {:induction false} StmtTypes(u: Source, sh: Shape, s: Stmt, slots: nat, targets: set<Label>, n: nat, h: nat)
    requires WfStmt(u, sh, s, slots, targets) && AllEnds(targets)
    ensures Types(u.env.fns, CompStmt(s, n).code, h, h, Returns(targets, h + 1))
    decreases s, 1
  {
    hide Types;
    var fns, outer := u.env.fns, Returns(targets, h + 1);
    match s
    case NoOp => NoCode(fns, h, outer);
    case Block(ss) => StmtsTypes(u, sh, ss, slots, targets, n, h);
    case IfStmt(_, _, _) => IfTypes(u, sh, s, slots, targets, n, h);
    case While(c, b) =>
      var cc := CompExpr(c, n);
      var cb := CompStmt(b, cc.next);
      ExprTypes(u, sh, c, slots, n, h);
      StmtTypes(u, sh, b, slots, targets, cc.next, h);
      LoopTypes(fns, cb.next, cc.code, cb.code, h, outer);
    case InfiniteLoop(b) =>
      StmtTypes(u, sh, b, slots, targets, n, h);
      InfiniteTypes(fns, CompStmt(b, n).next, CompStmt(b, n).code, h, outer);
    case ForEach(bind, e, b) =>
      var ce := CompExpr(e, n + 2);
      var ci := CompBind(bind, ce.next);
      var cb := CompStmt(b, ci.next);
      ExprTypes(u, sh, e, slots, n + 2, h);
      BindTypes(u, sh, bind, slots, ce.next, h + 1);
      StmtTypes(u, sh, b, slots, {}, ci.next, h + 1);
      assert Returns({}, h + 2) == map[];
      ForEachTypes(fns, n, ce.code, ci.code, cb.code, h, outer);
    case SwitchStmt(x, cs) =>
      var cx := CompExpr(x, n);
      ExprTypes(u, sh, x, slots, n, h);
      ArmsTypes(u, sh, cs, slots, Some(targets), cx.next, h);
      SwitchTypes(fns, cx.code, CompArms(cs, cx.next).0, CompArms(cs, cx.next).1, h, h, outer);
    case ConditionalStmt(cs) => ConditionalTypes(u, sh, cs, slots, Some(targets), n, h);
    case Assign(bind, e) =>
      var ce := CompExpr(e, n);
      ExprTypes(u, sh, e, slots, n, h);
      BindTypes(u, sh, bind, slots, ce.next, h);
      TypesThen(fns, ce.code, CompBind(bind, ce.next).code, h, h + 1, h, map[]);
      TypesWiden(fns, ce.code + CompBind(bind, ce.next).code, h, h, map[], outer);
    case ReturnStmt(e, target) =>
      var ce := CompExpr(e, n);
      ExprTypes(u, sh, e, slots, n, h);
      TypesWiden(fns, ce.code, h, h + 1, map[], outer);
      if target.Some? {
        LeaveTypes(fns, target.value, h + 1, h, outer);
      } else {
        EndTypes(fns, Return, h + 1, h, outer);
      }
      TypesThen(fns, ce.code, [if target.Some? then Goto(target.value) else Return], h, h + 1, h, outer);
    case ThrowStmt(e) => LeavingTypes(u, sh, e, Throw, slots, n, h, outer);
    case CoReturnStmt(e) => LeavingTypes(u, sh, e, CoReturn, slots, n, h, outer);
    case YieldStmt(e) =>
      ExprTypes(u, sh, e, slots, n, h);
      StepTypes(fns, Yield, h + 1, map[]);
      TypesThen(fns, CompExpr(e, n).code, [Yield], h, h + 1, h, map[]);
      TypesWiden(fns, CompExpr(e, n).code + [Yield], h, h, map[], outer);
  }

  lemma {:induction false} LeavingTypes(u: Source, sh: Shape, e: Expr, i: Asm, slots: nat, n: nat, h: nat, outer: Outer)
    requires WfExpr(u, sh, e, slots) && Heights.Ends(i)
    ensures Types(u.env.fns, CompExpr(e, n).code + [i], h, h, outer)
    decreases e, 2
  {
    hide Types;
    ExprTypes(u, sh, e, slots, n, h);
    EndTypes(u.env.fns, i, h + 1, h, map[]);
    TypesThen(u.env.fns, CompExpr(e, n).code, [i], h, h + 1, h, map[]);
    TypesWiden(u.env.fns, CompExpr(e, n).code + [i], h, h, map[], outer);
  }

  lemma {:induction false} IfTypes(u: Source, sh: Shape, s: Stmt, slots: nat, targets: set<Label>, n: nat, h: nat)
    requires s.IfStmt? && WfStmt(u, sh, s, slots, targets) && AllEnds(targets)
    ensures Types(u.env.fns, CompStmt(s, n).code, h, h, Returns(targets, h + 1))
    decreases s, 0
  {
    hide Types;
    var fns, outer := u.env.fns, Returns(targets, h + 1);
    var cc := CompExpr(s.cond, n);
    var ct := CompStmt(s.thn, cc.next);
    ExprTypes(u, sh, s.cond, slots, n, h);
    StmtTypes(u, sh, s.thn, slots, targets, cc.next, h);
    if s.els.Some? && !s.els.value.NoOp? {
      StmtTypes(u, sh, s.els.value, slots, targets, ct.next + 1, h);
      ElseTypes(fns, "IF", ct.next, cc.code, ct.code, CompStmt(s.els.value, ct.next + 1).code, h, h, outer);
    } else {
      ThenTypes(fns, "IF", ct.next, cc.code, ct.code, h, outer);
    }
  }

  lemma {:induction false} StmtsTypes(u: Source, sh: Shape, ss: Stmts, slots: nat, targets: set<Label>, n: nat, h: nat)
    requires WfStmts(u, sh, ss, slots, targets) && AllEnds(targets)
    ensures Types(u.env.fns, CompStmts(ss, n).code, h, h, Returns(targets, h + 1))
    decreases ss
  {
    hide Types;
    if ss.SNil? {
      NoCode(u.env.fns, h, Returns(targets, h + 1));
    } else {
      var cs := CompStmt(ss.head, n);
      StmtTypes(u, sh, ss.head, slots, targets, n, h);
      StmtsTypes(u, sh, ss.tail, slots, targets, cs.next, h);
      TypesThen(u.env.fns, cs.code, CompStmts(ss.tail, cs.next).code, h, h, h, Returns(targets, h + 1));
    }
  }
}
