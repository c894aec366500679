/** Compiled code defines every label once and jumps only to labels it defines. */
module ClosedCode {
  import opened Values
  import opened Instructions
  import opened Sst
  import opened Compile

  /** How a label can occur in code: where it is defined, where it is jumped to, and
      where it names a function. One counts the instruction newi 1, whatever the label. */
  datatype Role = Defined | Jumped | Callee | One

  function If(b: bool): int { if b then 1 else 0 }

  function Hit(r: Role, i: Asm, l: Label): int {
    match i
    case Mark(k) => If(r == Defined && k == l)
    case Goto(k) => If(r == Jumped && k == l)
    case IfElse(k) => If(r == Jumped && k == l)
    case ForNext(k) => If(r == Jumped && k == l)
    case Try(k) => If(r == Jumped && k == l)
    case Call(k) => If(r == Callee && k == l)
    case NewFx(k) => If(r == Callee && k == l)
    case Prim(p) => If(r == One && p == NewI(1))
    case _ => 0
  }

  /** How often label l occurs in this role. */
  function Tally(r: Role, code: seq<Asm>, l: Label): int {
    if code == [] then 0 else Hit(r, code[0], l) + Tally(r, code[1..], l)
  }

  lemma Empty(l: Label)
    ensures Tally(Defined, [], l) == 0
    ensures Tally(Jumped, [], l) == 0
    ensures Tally(Callee, [], l) == 0
    ensures Tally(One, [], l) == 0
  {
  }

  lemma {:induction false} TallyConcat(r: Role, a: seq<Asm>, b: seq<Asm>, l: Label)
    ensures Tally(r, a + b, l) == Tally(r, a, l) + Tally(r, b, l)
    decreases |a|
  {
    hide Hit;
    if a == [] {
      assert a + b == b;
    } else {
      assert (a + b)[1..] == a[1..] + b;
      TallyConcat(r, a[1..], b, l);
    }
  }

  lemma Cat(a: seq<Asm>, b: seq<Asm>, l: Label)
    ensures Tally(Defined, a + b, l) == Tally(Defined, a, l) + Tally(Defined, b, l)
    ensures Tally(Jumped, a + b, l) == Tally(Jumped, a, l) + Tally(Jumped, b, l)
    ensures Tally(Callee, a + b, l) == Tally(Callee, a, l) + Tally(Callee, b, l)
    ensures Tally(One, a + b, l) == Tally(One, a, l) + Tally(One, b, l)
  {
    hide Tally;
    TallyConcat(Defined, a, b, l);
    TallyConcat(Jumped, a, b, l);
    TallyConcat(Callee, a, b, l);
    TallyConcat(One, a, b, l);
  }

  lemma Cat3(a: seq<Asm>, b: seq<Asm>, c: seq<Asm>, l: Label)
    ensures Tally(Defined, a + (b + c), l) == Tally(Defined, a, l) + Tally(Defined, b, l) + Tally(Defined, c, l)
    ensures Tally(Jumped, a + (b + c), l) == Tally(Jumped, a, l) + Tally(Jumped, b, l) + Tally(Jumped, c, l)
    ensures Tally(Callee, a + (b + c), l) == Tally(Callee, a, l) + Tally(Callee, b, l) + Tally(Callee, c, l)
    ensures Tally(One, a + (b + c), l) == Tally(One, a, l) + Tally(One, b, l) + Tally(One, c, l)
  {
    hide Tally;
    Cat(a, b + c, l);
    Cat(b, c, l);
  }

  lemma Cat4(a: seq<Asm>, b: seq<Asm>, c: seq<Asm>, d: seq<Asm>, l: Label)
    ensures Tally(Defined, a + (b + (c + d)), l)
        == Tally(Defined, a, l) + Tally(Defined, b, l) + Tally(Defined, c, l) + Tally(Defined, d, l)
    ensures Tally(Jumped, a + (b + (c + d)), l)
        == Tally(Jumped, a, l) + Tally(Jumped, b, l) + Tally(Jumped, c, l) + Tally(Jumped, d, l)
    ensures Tally(Callee, a + (b + (c + d)), l)
        == Tally(Callee, a, l) + Tally(Callee, b, l) + Tally(Callee, c, l) + Tally(Callee, d, l)
    ensures Tally(One, a + (b + (c + d)), l)
        == Tally(One, a, l) + Tally(One, b, l) + Tally(One, c, l) + Tally(One, d, l)
  {
    hide Tally;
    Cat(a, b + (c + d), l);
    Cat3(b, c, d, l);
  }

  lemma Cat6(a: seq<Asm>, b: seq<Asm>, c: seq<Asm>, d: seq<Asm>, e: seq<Asm>, f: seq<Asm>, l: Label)
    ensures Tally(Defined, a + (b + (c + (d + (e + f)))), l)
        == Tally(Defined, a, l) + Tally(Defined, b, l) + Tally(Defined, c, l) + Tally(Defined, d, l)
          + Tally(Defined, e, l) + Tally(Defined, f, l)
    ensures Tally(Jumped, a + (b + (c + (d + (e + f)))), l)
        == Tally(Jumped, a, l) + Tally(Jumped, b, l) + Tally(Jumped, c, l) + Tally(Jumped, d, l)
          + Tally(Jumped, e, l) + Tally(Jumped, f, l)
    ensures Tally(Callee, a + (b + (c + (d + (e + f)))), l)
        == Tally(Callee, a, l) + Tally(Callee, b, l) + Tally(Callee, c, l) + Tally(Callee, d, l)
          + Tally(Callee, e, l) + Tally(Callee, f, l)
    ensures Tally(One, a + (b + (c + (d + (e + f)))), l)
        == Tally(One, a, l) + Tally(One, b, l) + Tally(One, c, l) + Tally(One, d, l) + Tally(One, e, l)
          + Tally(One, f, l)
  {
    hide Tally;
    Cat3(a, b, c + (d + (e + f)), l);
    Cat4(c, d, e, f, l);
  }

  lemma Single(i: Asm, l: Label)
    ensures Tally(Defined, [i], l) == Hit(Defined, i, l)
    ensures Tally(Jumped, [i], l) == Hit(Jumped, i, l)
    ensures Tally(Callee, [i], l) == Hit(Callee, i, l)
    ensures Tally(One, [i], l) == Hit(One, i, l)
  {
    assert [i][1..] == [];
  }

  lemma Two(i: Asm, j: Asm, l: Label)
    ensures Tally(Defined, [i, j], l) == Hit(Defined, i, l) + Hit(Defined, j, l)
    ensures Tally(Jumped, [i, j], l) == Hit(Jumped, i, l) + Hit(Jumped, j, l)
    ensures Tally(Callee, [i, j], l) == Hit(Callee, i, l) + Hit(Callee, j, l)
    ensures Tally(One, [i, j], l) == Hit(One, i, l) + Hit(One, j, l)
  {
    hide Tally, Hit;
    Single(i, l);
    Single(j, l);
    Cat([i], [j], l);
    assert [i, j] == [i] + [j];
  }

  lemma Three(i: Asm, j: Asm, k: Asm, l: Label)
    ensures Tally(Defined, [i, j, k], l) == Hit(Defined, i, l) + Hit(Defined, j, l) + Hit(Defined, k, l)
    ensures Tally(Jumped, [i, j, k], l) == Hit(Jumped, i, l) + Hit(Jumped, j, l) + Hit(Jumped, k, l)
    ensures Tally(Callee, [i, j, k], l) == Hit(Callee, i, l) + Hit(Callee, j, l) + Hit(Callee, k, l)
    ensures Tally(One, [i, j, k], l) == Hit(One, i, l) + Hit(One, j, l) + Hit(One, k, l)
  {
    hide Tally, Hit;
    Single(i, l);
    Two(j, k, l);
    Cat([i], [j, k], l);
    assert [i, j, k] == [i] + [j, k];
  }

  lemma Four(i: Asm, j: Asm, k: Asm, m: Asm, l: Label)
    ensures Tally(Defined, [i, j, k, m], l)
        == Hit(Defined, i, l) + Hit(Defined, j, l) + Hit(Defined, k, l) + Hit(Defined, m, l)
    ensures Tally(Jumped, [i, j, k, m], l)
        == Hit(Jumped, i, l) + Hit(Jumped, j, l) + Hit(Jumped, k, l) + Hit(Jumped, m, l)
    ensures Tally(Callee, [i, j, k, m], l)
        == Hit(Callee, i, l) + Hit(Callee, j, l) + Hit(Callee, k, l) + Hit(Callee, m, l)
    ensures Tally(One, [i, j, k, m], l) == Hit(One, i, l) + Hit(One, j, l) + Hit(One, k, l) + Hit(One, m, l)
  {
    hide Tally, Hit;
    Two(i, j, l);
    Two(k, m, l);
    Cat([i, j], [k, m], l);
    assert [i, j, k, m] == [i, j] + [k, m];
  }

  /** How often the tree itself names the label: as the end of an immediately invoked
      block, as the target of a return, as a function. */
  function NExpr(r: Role, e: Expr, l: Label): nat
    decreases e
  {
    match e
    case Lit(_) => 0
    case Var(_) => 0
    case GlobalVar(_) => 0
    case Strict(_, es) => NExprs(r, es, l)
    case NullTest(x) => NExpr(r, x, l)
    case Logic(_, a, b) => NExpr(r, a, l) + NExpr(r, b, l)
    case Ternary(c, t, f) => NExpr(r, c, l) + NExpr(r, t, l) + NExpr(r, f, l)
    case Conditional(cs) => NCases(r, cs, l)
    case Switch(x, cs) => NExpr(r, x, l) + NCases(r, cs, l)
    case StructLit(ms) => NMembers(r, ms, l)
    case MapLit(ps) => NPairs(r, ps, l)
    case CallExpr(f, es) => NExprs(r, es, l) + If(r == Callee && f == l)
    case InvokeExpr(x, es) => NExpr(r, x, l) + NExprs(r, es, l)
    case InvokeMember(x, _, es) => NExpr(r, x, l) + NExprs(r, es, l)
    case FxPointer(f, es) => NExprs(r, es, l) + If(r == Callee && f == l)
    case Iife(end, b) => NStmt(r, b, l) + If(r == Defined && end == l)
  }

  function NExprs(r: Role, es: Exprs, l: Label): nat
    decreases es
  {
    match es case ENil => 0 case ECons(e, tail) => NExpr(r, e, l) + NExprs(r, tail, l)
  }

  function NMembers(r: Role, ms: Members, l: Label): nat
    decreases ms
  {
    match ms case MNil => 0 case MCons(_, e, tail) => NExpr(r, e, l) + NMembers(r, tail, l)
  }

  function NPairs(r: Role, ps: Pairs, l: Label): nat
    decreases ps
  {
    match ps case PNil => 0 case PCons(k, e, tail) => NExpr(r, k, l) + NExpr(r, e, l) + NPairs(r, tail, l)
  }

  function NNode(r: Role, n: Node, l: Label): nat
    decreases n
  {
    match n case E(e) => NExpr(r, e, l) case S(s) => NStmt(r, s, l)
  }

  function NCases(r: Role, cs: Cases, l: Label): nat
    decreases cs
  {
    match cs
    case Otherwise(b) => NNode(r, b, l)
    case CCons(c, b, tail) => NExpr(r, c, l) + NNode(r, b, l) + NCases(r, tail, l)
  }

  function NBind(r: Role, b: Binding, l: Label): nat
    decreases b
  {
    match b
    case Group(subs) => NBinds(r, subs, l)
    case Place(_, es) => NExprs(r, es, l)
    case _ => 0
  }

  function NBinds(r: Role, bs: Bindings, l: Label): nat
    decreases bs
  {
    match bs case BNil => 0 case BCons(b, tail) => NBind(r, b, l) + NBinds(r, tail, l)
  }

  function NStmt(r: Role, s: Stmt, l: Label): nat
    decreases s
  {
    match s
    case NoOp => 0
    case Block(ss) => NStmts(r, ss, l)
    case IfStmt(c, t, e) => NExpr(r, c, l) + NStmt(r, t, l) + (if e.Some? then NStmt(r, e.value, l) else 0)
    case While(c, b) => NExpr(r, c, l) + NStmt(r, b, l)
    case InfiniteLoop(b) => NStmt(r, b, l)
    case ForEach(bind, e, b) => NExpr(r, e, l) + NBind(r, bind, l) + NStmt(r, b, l)
    case SwitchStmt(x, cs) => NExpr(r, x, l) + NCases(r, cs, l)
    case ConditionalStmt(cs) => NCases(r, cs, l)
    case Assign(bind, e) => NExpr(r, e, l) + NBind(r, bind, l)
    case ReturnStmt(e, t) => NExpr(r, e, l) + If(r == Jumped && t == Some(l))
    case ThrowStmt(e) => NExpr(r, e, l)
    case YieldStmt(e) => NExpr(r, e, l)
    case CoReturnStmt(e) => NExpr(r, e, l)
  }

  function NStmts(r: Role, ss: Stmts, l: Label): nat
    decreases ss
  {
    match ss case SNil => 0 case SCons(s, tail) => NStmt(r, s, l) + NStmts(r, tail, l)
  }

  /** Labels numbered from n up to m; IIFE labels are numbered before compiling starts. */
  predicate Own(l: Label, n: nat, m: nat) {
    l.Jump? && CompileKind(l.kind) && n <= l.id < m
  }

  /** The words that jump labels of compiled code start with. */
  predicate CompileKind(kind: string) {
    kind in {"AND", "OR", "ELVIS", "NULLCO", "TERNARY", "CONDTIONAL", "SWITCH", "IF", "WHILE", "INFINETE_LOOP",
             "FOREACH_END", "FOREACH_BODY"}
  }

  /** What is to be shown of code that uses the numbers from n up to m, about one label the
      tree names this often: it is defined once for each block that ends there, and at most
      once more if it is one of the code's own; it is jumped to only if it is defined or a
      return names it. */
  predicate Closed(code: seq<Asm>, n: nat, m: nat, l: Label, ends: int, rets: int, callees: int) {
    && n <= m && 0 <= rets && 0 <= callees
    && 0 <= ends <= Tally(Defined, code, l) <= ends + If(Own(l, n, m))
    && (Tally(Jumped, code, l) > 0 ==> Tally(Defined, code, l) > 0 || rets > 0)
    && (Tally(Callee, code, l) > 0 ==> callees > 0)
    && Tally(One, code, l) == 0
  }

  predicate ClosedCg(g: Cg, n: nat, l: Label, ends: int, rets: int, callees: int) {
    Closed(g.code, n, g.next, l, ends, rets, callees)
  }

  lemma Before(i: Asm, code: seq<Asm>, l: Label)
    ensures Tally(Defined, [i] + code, l) == Hit(Defined, i, l) + Tally(Defined, code, l)
    ensures Tally(Jumped, [i] + code, l) == Hit(Jumped, i, l) + Tally(Jumped, code, l)
    ensures Tally(Callee, [i] + code, l) == Hit(Callee, i, l) + Tally(Callee, code, l)
    ensures Tally(One, [i] + code, l) == Hit(One, i, l) + Tally(One, code, l)
  {
    hide Tally;
    Single(i, l);
    Cat([i], code, l);
  }

  lemma EndLabel(code: seq<Asm>, end: Label, l: Label)
    ensures Tally(Defined, code + [Simply(Nvll), Mark(end)], l) == Tally(Defined, code, l) + If(end == l)
    ensures Tally(Jumped, code + [Simply(Nvll), Mark(end)], l) == Tally(Jumped, code, l)
    ensures Tally(Callee, code + [Simply(Nvll), Mark(end)], l) == Tally(Callee, code, l)
    ensures Tally(One, code + [Simply(Nvll), Mark(end)], l) == Tally(One, code, l)
  {
    hide Tally;
    Two(Simply(Nvll), Mark(end), l);
    Cat(code, [Simply(Nvll), Mark(end)], l);
  }

  lemma {:induction false} ClosedExpr(e: Expr, n: nat, l: Label)
    ensures ClosedCg(CompExpr(e, n), n, l, NExpr(Defined, e, l), NExpr(Jumped, e, l), NExpr(Callee, e, l))
    decreases e, 3
  {
    if e.NullTest? || e.Logic? || e.Ternary? || e.Conditional? || e.Switch? || e.InvokeExpr? || e.InvokeMember? {
      ClosedComposite(e, n, l);
    } else if e.StructLit? || e.MapLit? || e.FxPointer? || e.Iife? {
      ClosedBuild(e, n, l);
    } else {
      ClosedFlat(e, n, l);
    }
  }

  lemma {:induction false} ClosedComposite(e: Expr, n: nat, l: Label)
    requires e.NullTest? || e.Logic? || e.Ternary? || e.Conditional? || e.Switch? || e.InvokeExpr? || e.InvokeMember?
    ensures ClosedCg(CompExpr(e, n), n, l, NExpr(Defined, e, l), NExpr(Jumped, e, l), NExpr(Callee, e, l))
    decreases e, 2
  {
    hide CompCascade, CompArms, CompArgs, CompStmt, CompLogic, CompTernary, CompInvoke, CompInvokeMember, CompNullTest,
      SwitchCode, NStmt, NExprs, NCases, Tally;
    match e
    case NullTest(_) => ClosedNullTest(e, n, l);
    case Logic(_, _, _) => ClosedLogic(e, n, l);
    case Ternary(_, _, _) => ClosedTernary(e, n, l);
    case Conditional(cs) => ClosedConditional(cs, n, l);
    case Switch(x, cs) =>
      var cx := CompExpr(x, n);
      ClosedExpr(x, n, l);
      ClosedSwitch(cx.code, cs, n, cx.next, l, NExpr(Defined, x, l), NExpr(Jumped, x, l), NExpr(Callee, x, l));
    case InvokeExpr(_, _) => ClosedInvoke(e, n, l);
    case InvokeMember(_, _, _) => ClosedInvokeMember(e, n, l);
  }

  lemma LitLabels(lit: Literal, l: Label)
    ensures Tally(Defined, [CompLit(lit)], l) == 0
    ensures Tally(Jumped, [CompLit(lit)], l) == 0
    ensures Tally(Callee, [CompLit(lit)], l) == 0
    ensures Tally(One, [CompLit(lit)], l) == 0
  {
    Single(CompLit(lit), l);
  }

  lemma {:induction false} ClosedFlat(e: Expr, n: nat, l: Label)
    requires e.Lit? || e.Var? || e.GlobalVar? || e.Strict? || e.CallExpr?
    ensures ClosedCg(CompExpr(e, n), n, l, NExpr(Defined, e, l), NExpr(Jumped, e, l), NExpr(Callee, e, l))
    decreases e, 2
  {
    hide CompArgs, NExprs, Tally, CompLit;
    match e
    case Lit(lit) => LitLabels(lit, l);
    case Var(a) => Single(LoadX(a), l);
    case GlobalVar(a) => Single(GlobalRead(a), l);
    case Strict(node, es) => ClosedArgsThen(es, Prim(StrictOp(node, Count(es))), n, l);
    case CallExpr(f, es) => ClosedArgsThen(es, Call(f), n, l);
  }

  lemma {:induction false} ClosedBuild(e: Expr, n: nat, l: Label)
    requires e.StructLit? || e.MapLit? || e.FxPointer? || e.Iife?
    ensures ClosedCg(CompExpr(e, n), n, l, NExpr(Defined, e, l), NExpr(Jumped, e, l), NExpr(Callee, e, l))
    decreases e, 2
  {
    hide *;
    if e.StructLit? { ClosedStruct(e, n, l); }
    else if e.MapLit? { ClosedMap(e, n, l); }
    else if e.FxPointer? { ClosedFxPointer(e, n, l); }
    else { ClosedIife(e, n, l); }
  }

  lemma {:induction false} ClosedStruct(e: Expr, n: nat, l: Label)
    requires e.StructLit?
    ensures ClosedCg(CompExpr(e, n), n, l, NExpr(Defined, e, l), NExpr(Jumped, e, l), NExpr(Callee, e, l))
    decreases e, 1
  {
    hide CompMembers, NMembers, Tally;
    ClosedMembers(e.members, n, l);
    Before(Simply(NewStruct), CompMembers(e.members, n).code, l);
  }

  lemma {:induction false} ClosedMap(e: Expr, n: nat, l: Label)
    requires e.MapLit?
    ensures ClosedCg(CompExpr(e, n), n, l, NExpr(Defined, e, l), NExpr(Jumped, e, l), NExpr(Callee, e, l))
    decreases e, 1
  {
    hide CompPairs, NPairs, Tally;
    ClosedPairs(e.pairs, n, l);
    Before(Simply(NewMap), CompPairs(e.pairs, n).code, l);
  }

  lemma {:induction false} ClosedFxPointer(e: Expr, n: nat, l: Label)
    requires e.FxPointer?
    ensures ClosedCg(CompExpr(e, n), n, l, NExpr(Defined, e, l), NExpr(Jumped, e, l), NExpr(Callee, e, l))
    decreases e, 1
  {
    hide CompCaptures, NExprs, Tally;
    ClosedCaptures(e.args, n, l);
    Before(NewFx(e.fn), CompCaptures(e.args, n).code, l);
  }

  lemma {:induction false} ClosedIife(e: Expr, n: nat, l: Label)
    requires e.Iife?
    ensures ClosedCg(CompExpr(e, n), n, l, NExpr(Defined, e, l), NExpr(Jumped, e, l), NExpr(Callee, e, l))
    decreases e, 1
  {
    hide CompStmt, NStmt, Tally;
    ClosedStmt(e.body, n, l);
    EndLabel(CompStmt(e.body, n).code, e.end, l);
  }

  lemma {:induction false} ClosedNullTest(e: Expr, n: nat, l: Label)
    requires e.NullTest?
    ensures ClosedCg(CompNullTest(e, n), n, l, NExpr(Defined, e, l), NExpr(Jumped, e, l), NExpr(Callee, e, l))
    decreases e, 0
  {
    hide Tally, CompExpr;
    assert NExpr(Defined, e, l) == NExpr(Defined, e.e, l);
    assert NExpr(Jumped, e, l) == NExpr(Jumped, e.e, l);
    assert NExpr(Callee, e, l) == NExpr(Callee, e.e, l);
    hide NExpr;
    ClosedExpr(e.e, n, l);
    ClosedExpr(e.e, CompExpr(e.e, n).next, l);
    var tail: seq<Asm> := [Simply(Nvll), Simply(Ueql)];
    Two(Simply(Nvll), Simply(Ueql), l);
    Cat(CompExpr(e.e, CompExpr(e.e, n).next).code, tail, l);
  }

  /** The glue of a logic operator: it defines labels of its own and jumps to them. */
  function LogicDefined(op: LogicOp, part: Part): nat {
    if part == End || (op.And? && part == False_) || (op.Or? && part == True_)
        || ((op.Elvis? || op.NullCo?) && part == Else)
    then 1 else 0
  }

  lemma TestLabels(op: LogicOp, id: nat, l: Label)
    ensures var t := LogicTest(op, id);
      && Tally(Callee, t, l) == 0
      && Tally(One, t, l) == 0
      && Tally(Defined, t, l) == (if (op.Elvis? || op.NullCo?) && l == Jmp(LogicName(op), id, Else) then 1 else 0)
      && (Tally(Jumped, t, l) > 0 ==> l.Jump? && l.kind == LogicName(op) && l.id == id && LogicDefined(op, l.part) == 1)
  {
    hide Tally;
    match op
    case And => Single(IfElse(Jmp("AND", id, False_)), l);
    case Or => Two(Simply(Not), IfElse(Jmp("OR", id, True_)), l);
    case Elvis => ElvisLabels(id, l);
    case NullCo => NullCoLabels(id, l);
  }

  lemma ElvisLabels(id: nat, l: Label)
    ensures var t := LogicTest(Elvis, id);
      && Tally(Callee, t, l) == 0
      && Tally(One, t, l) == 0
      && Tally(Defined, t, l) == If(l == Jmp("ELVIS", id, Else))
      && (Tally(Jumped, t, l) > 0 ==> l == Jmp("ELVIS", id, Else) || l == Jmp("ELVIS", id, End))
  {
    hide Tally;
    var a: seq<Asm> := [Duplicate, IfElse(Jmp("ELVIS", id, Else))];
    Two(a[0], a[1], l);
    ElseStart("ELVIS", id, a, l);
    assert LogicTest(Elvis, id) == a + [Goto(Jmp("ELVIS", id, End)), Mark(Jmp("ELVIS", id, Else)), Scrap];
  }

  lemma NullCoLabels(id: nat, l: Label)
    ensures var t := LogicTest(NullCo, id);
      && Tally(Callee, t, l) == 0
      && Tally(One, t, l) == 0
      && Tally(Defined, t, l) == If(l == Jmp("NULLCO", id, Else))
      && (Tally(Jumped, t, l) > 0 ==> l == Jmp("NULLCO", id, Else) || l == Jmp("NULLCO", id, End))
  {
    hide Tally;
    var a: seq<Asm> := [Duplicate, Simply(Nvll), Simply(Ueql), IfElse(Jmp("NULLCO", id, Else))];
    Four(a[0], a[1], a[2], a[3], l);
    ElseStart("NULLCO", id, a, l);
    assert LogicTest(NullCo, id) == a + [Goto(Jmp("NULLCO", id, End)), Mark(Jmp("NULLCO", id, Else)), Scrap];
  }

  lemma ElseStart(kind: string, id: nat, a: seq<Asm>, l: Label)
    ensures var b: seq<Asm> := a + [Goto(Jmp(kind, id, End)), Mark(Jmp(kind, id, Else)), Scrap];
      && Tally(Defined, b, l) == Tally(Defined, a, l) + If(l == Jmp(kind, id, Else))
      && Tally(Jumped, b, l) == Tally(Jumped, a, l) + If(l == Jmp(kind, id, End))
      && Tally(Callee, b, l) == Tally(Callee, a, l)
      && Tally(One, b, l) == Tally(One, a, l)
  {
    hide Tally;
    var b: seq<Asm> := [Goto(Jmp(kind, id, End)), Mark(Jmp(kind, id, Else)), Scrap];
    Three(b[0], b[1], b[2], l);
    Cat(a, b, l);
  }

  lemma TailLabels(op: LogicOp, id: nat, l: Label)
    ensures var t := LogicTail(op, id);
      && Tally(Callee, t, l) == 0
      && Tally(One, t, l) == 0
      && Tally(Defined, t, l)
          == (if l.Jump? && l.kind == LogicName(op) && l.id == id && l.part != Else then LogicDefined(op, l.part)
            else 0)
      && (Tally(Jumped, t, l) > 0 ==> l == Jmp(LogicName(op), id, End))
  {
    hide Tally;
    var end := Jmp(LogicName(op), id, End);
    if op.And? || op.Or? {
      var here := if op.And? then Jmp("AND", id, False_) else Jmp("OR", id, True_);
      var a: seq<Asm> := [Simply(CastBool), Goto(end)];
      var b: seq<Asm> := [Mark(here), Simply(if op.And? then False else True), Mark(end)];
      Two(a[0], a[1], l);
      Three(b[0], b[1], b[2], l);
      Cat(a, b, l);
      assert LogicTail(op, id) == a + b;
    } else {
      Single(Mark(end), l);
    }
  }

  lemma {:induction false} ClosedLogic(e: Expr, n: nat, l: Label)
    requires e.Logic?
    ensures ClosedCg(CompLogic(e, n), n, l, NExpr(Defined, e, l), NExpr(Jumped, e, l), NExpr(Callee, e, l))
    decreases e, 0
  {
    hide Tally, CompExpr;
    assert NExpr(Defined, e, l) == NExpr(Defined, e.l, l) + NExpr(Defined, e.r, l);
    assert NExpr(Jumped, e, l) == NExpr(Jumped, e.l, l) + NExpr(Jumped, e.r, l);
    assert NExpr(Callee, e, l) == NExpr(Callee, e.l, l) + NExpr(Callee, e.r, l);
    hide NExpr;
    ClosedExpr(e.l, n, l);
    ClosedExpr(e.r, CompExpr(e.l, n).next, l);
    var cr := CompExpr(e.r, CompExpr(e.l, n).next);
    var t, q := LogicTest(e.lop, cr.next), LogicTail(e.lop, cr.next);
    TestLabels(e.lop, cr.next, l);
    TailLabels(e.lop, cr.next, l);
    hide LogicTest, LogicTail;
    Cat4(CompExpr(e.l, n).code, t, cr.code, q, l);
  }

  lemma ElseLabels(kind: string, id: nat, c: seq<Asm>, t: seq<Asm>, e: seq<Asm>, l: Label)
    ensures var code, own := ElseCode(kind, id, c, t, e), l == Jmp(kind, id, Else) || l == Jmp(kind, id, End);
      && Tally(Defined, code, l)
            == Tally(Defined, c, l) + Tally(Defined, t, l) + Tally(Defined, e, l) + (if own then 1 else 0)
      && Tally(Jumped, code, l)
            == Tally(Jumped, c, l) + Tally(Jumped, t, l) + Tally(Jumped, e, l) + (if own then 1 else 0)
      && Tally(Callee, code, l) == Tally(Callee, c, l) + Tally(Callee, t, l) + Tally(Callee, e, l)
      && Tally(One, code, l) == Tally(One, c, l) + Tally(One, t, l) + Tally(One, e, l)
  {
    hide Tally;
    var els, end := Jmp(kind, id, Else), Jmp(kind, id, End);
    Single(IfElse(els), l);
    Two(Goto(end), Mark(els), l);
    Single(Mark(end), l);
    Cat6(c, [IfElse(els)], t, [Goto(end), Mark(els)], e, [Mark(end)], l);
  }

  lemma ThenLabels(kind: string, id: nat, c: seq<Asm>, t: seq<Asm>, l: Label)
    ensures var code, own := ThenCode(kind, id, c, t), if l == Jmp(kind, id, Else) then 1 else 0;
      && Tally(Defined, code, l) == Tally(Defined, c, l) + Tally(Defined, t, l) + own
      && Tally(Jumped, code, l) == Tally(Jumped, c, l) + Tally(Jumped, t, l) + own
      && Tally(Callee, code, l) == Tally(Callee, c, l) + Tally(Callee, t, l)
      && Tally(One, code, l) == Tally(One, c, l) + Tally(One, t, l)
  {
    hide Tally;
    var els := Jmp(kind, id, Else);
    Single(IfElse(els), l);
    Single(Mark(els), l);
    Cat4(c, [IfElse(els)], t, [Mark(els)], l);
  }

  lemma {:induction false} ClosedTernary(e: Expr, n: nat, l: Label)
    requires e.Ternary?
    ensures ClosedCg(CompTernary(e, n), n, l, NExpr(Defined, e, l), NExpr(Jumped, e, l), NExpr(Callee, e, l))
    decreases e, 0
  {
    hide Tally, CompExpr;
    assert NExpr(Defined, e, l) == NExpr(Defined, e.cond, l) + NExpr(Defined, e.thn, l) + NExpr(Defined, e.els, l);
    assert NExpr(Jumped, e, l) == NExpr(Jumped, e.cond, l) + NExpr(Jumped, e.thn, l) + NExpr(Jumped, e.els, l);
    assert NExpr(Callee, e, l) == NExpr(Callee, e.cond, l) + NExpr(Callee, e.thn, l) + NExpr(Callee, e.els, l);
    hide NExpr;
    var cc := CompExpr(e.cond, n + 1);
    var ct := CompExpr(e.thn, cc.next);
    ClosedExpr(e.cond, n + 1, l);
    ClosedExpr(e.thn, cc.next, l);
    ClosedExpr(e.els, ct.next, l);
    var cf := CompExpr(e.els, ct.next);
    ElseLabels("TERNARY", n, cc.code, ct.code, cf.code, l);
    hide ElseCode;
  }

  lemma {:induction false} ClosedInvoke(e: Expr, n: nat, l: Label)
    requires e.InvokeExpr?
    ensures ClosedCg(CompInvoke(e, n), n, l, NExpr(Defined, e, l), NExpr(Jumped, e, l), NExpr(Callee, e, l))
    decreases e, 0
  {
    hide Tally, CompExpr, CompArgs;
    assert NExpr(Defined, e, l) == NExpr(Defined, e.fnExpr, l) + NExprs(Defined, e.args, l);
    assert NExpr(Jumped, e, l) == NExpr(Jumped, e.fnExpr, l) + NExprs(Jumped, e.args, l);
    assert NExpr(Callee, e, l) == NExpr(Callee, e.fnExpr, l) + NExprs(Callee, e.args, l);
    hide NExpr, NExprs;
    ClosedArgs(e.args, n, l);
    ClosedExpr(e.fnExpr, CompArgs(e.args, n).next, l);
    var ca := CompArgs(e.args, n);
    Single(Invoke(Count(e.args)), l);
    Cat3(ca.code, CompExpr(e.fnExpr, ca.next).code, [Invoke(Count(e.args))], l);
  }

  lemma MemberCallNames(e: Expr, l: Label)
    requires e.InvokeMember?
    ensures forall r :: NExpr(r, e, l) == NExpr(r, e.e, l) + NExprs(r, e.args, l)
  {
  }

  lemma {:induction false} ClosedInvokeMember(e: Expr, n: nat, l: Label)
    requires e.InvokeMember?
    ensures ClosedCg(CompInvokeMember(e, n), n, l, NExpr(Defined, e, l), NExpr(Jumped, e, l), NExpr(Callee, e, l))
    decreases e, 0
  {
    hide Tally, CompExpr, CompMemberArgs, NExpr, NExprs;
    MemberCallNames(e, l);
    ClosedExpr(e.e, n, l);
    ClosedMemberArgs(e.args, CompExpr(e.e, n).next, l);
    var cx := CompExpr(e.e, n);
    var read: seq<Asm> := [Duplicate, Prim(MemberRead(e.id))];
    Two(Duplicate, Prim(MemberRead(e.id)), l);
    Single(Invoke(Count(e.args) + 1), l);
    Cat4(cx.code, read, CompMemberArgs(e.args, cx.next).code, [Invoke(Count(e.args) + 1)], l);
  }

  lemma {:induction false} ClosedConditional(cs: Cases, n: nat, l: Label)
    ensures ClosedCg(CompCascade(cs, n, 0, n + 1), n, l, NCases(Defined, cs, l), NCases(Jumped, cs, l),
      NCases(Callee, cs, l))
    decreases cs, 2
  {
    hide Tally, CompCascade, NCases;
    ClosedCascade(cs, n, 0, n + 1, l);

  }

  lemma {:induction false} ClosedArgs(es: Exprs, n: nat, l: Label)
    ensures ClosedCg(CompArgs(es, n), n, l, NExprs(Defined, es, l), NExprs(Jumped, es, l), NExprs(Callee, es, l))
    decreases es, 0
  {
    hide CompExpr, NExpr, Tally;
    Empty(l);
    if es.ECons? {
      var ce := CompExpr(es.head, n);
      ClosedExpr(es.head, n, l);
      ClosedArgs(es.tail, ce.next, l);
      Cat(ce.code, CompArgs(es.tail, ce.next).code, l);
    }
  }

  /** Operands and one more instruction. */
  lemma {:induction false} ClosedArgsThen(es: Exprs, i: Asm, n: nat, l: Label)
    ensures ClosedCg(CompArgs(es, n), n, l, NExprs(Defined, es, l), NExprs(Jumped, es, l), NExprs(Callee, es, l))
    ensures Tally(Defined, CompArgs(es, n).code + [i], l)
        == Tally(Defined, CompArgs(es, n).code, l) + Hit(Defined, i, l)
    ensures Tally(Jumped, CompArgs(es, n).code + [i], l) == Tally(Jumped, CompArgs(es, n).code, l) + Hit(Jumped, i, l)
    ensures Tally(Callee, CompArgs(es, n).code + [i], l) == Tally(Callee, CompArgs(es, n).code, l) + Hit(Callee, i, l)
    ensures Tally(One, CompArgs(es, n).code + [i], l) == Tally(One, CompArgs(es, n).code, l) + Hit(One, i, l)
    decreases es, 1
  {
    hide CompArgs, NExprs, Tally;
    ClosedArgs(es, n, l);
    Single(i, l);
    Cat(CompArgs(es, n).code, [i], l);
  }

  lemma {:induction false} ClosedMemberArgs(es: Exprs, n: nat, l: Label)
    ensures ClosedCg(CompMemberArgs(es, n), n, l, NExprs(Defined, es, l), NExprs(Jumped, es, l), NExprs(Callee, es, l))
    decreases es, 0
  {
    hide CompExpr, NExpr, Tally;
    Empty(l);
    if es.ECons? {
      var ce := CompExpr(es.head, n);
      ClosedExpr(es.head, n, l);
      ClosedMemberArgs(es.tail, ce.next, l);
      Single(Swap, l);
      Cat3(ce.code, [Swap], CompMemberArgs(es.tail, ce.next).code, l);
    }
  }

  lemma {:induction false} ClosedCaptures(es: Exprs, n: nat, l: Label)
    ensures ClosedCg(CompCaptures(es, n), n, l, NExprs(Defined, es, l), NExprs(Jumped, es, l), NExprs(Callee, es, l))
    decreases es, 0
  {
    hide CompExpr, NExpr, Tally;
    Empty(l);
    if es.ECons? {
      var ce := CompExpr(es.head, n);
      ClosedExpr(es.head, n, l);
      ClosedCaptures(es.tail, ce.next, l);
      Single(Capture, l);
      Cat3(ce.code, [Capture], CompCaptures(es.tail, ce.next).code, l);
    }
  }

  lemma {:induction false} ClosedMembers(ms: Members, n: nat, l: Label)
    ensures ClosedCg(CompMembers(ms, n), n, l, NMembers(Defined, ms, l), NMembers(Jumped, ms, l),
      NMembers(Callee, ms, l))
    decreases ms, 0
  {
    hide CompExpr, NExpr, Tally;
    Empty(l);
    if ms.MCons? {
      var ce := CompExpr(ms.e, n);
      ClosedExpr(ms.e, n, l);
      ClosedMembers(ms.tail, ce.next, l);
      Single(Duplicate, l);
      Two(Swap, Prim(MemberWrite(ms.id)), l);
      Cat4([Duplicate], ce.code, [Swap, Prim(MemberWrite(ms.id))], CompMembers(ms.tail, ce.next).code, l);
    }
  }

  lemma {:induction false} ClosedPairs(ps: Pairs, n: nat, l: Label)
    ensures ClosedCg(CompPairs(ps, n), n, l, NPairs(Defined, ps, l), NPairs(Jumped, ps, l), NPairs(Callee, ps, l))
    decreases ps, 0
  {
    hide CompExpr, NExpr, Tally;
    Empty(l);
    if ps.PCons? {
      var ce := CompExpr(ps.val, n);
      var ck := CompExpr(ps.key, ce.next);
      ClosedExpr(ps.val, n, l);
      ClosedExpr(ps.key, ce.next, l);
      ClosedPairs(ps.tail, ck.next, l);
      Single(Duplicate, l);
      Single(Swap, l);
      Single(Simply(AtWrite), l);
      Cat6([Duplicate], ce.code, [Swap], ck.code, [Simply(AtWrite)], CompPairs(ps.tail, ck.next).code, l);
    }
  }

  lemma {:induction false} ClosedNode(b: Node, n: nat, l: Label)
    ensures ClosedCg(CompNode(b, n), n, l, NNode(Defined, b, l), NNode(Jumped, b, l), NNode(Callee, b, l))
    decreases b, 0
  {
    hide CompExpr, NExpr, CompStmt, NStmt;
    match b
    case E(e) => ClosedExpr(e, n, l);
    case S(s) => ClosedStmt(s, n, l);
  }

  /** The labels of cascade id from case i on. */
  predicate CascadeLabel(l: Label, id: nat, i: nat) {
    l == Jmp("CONDTIONAL", id, End) || (l.Jump? && l.kind == "CONDTIONAL" && l.id == id && l.part.Cond? && l.part.i > i)
  }

  lemma {:induction false} ClosedCascade(cs: Cases, id: nat, i: nat, n: nat, l: Label)
    requires id < n
    ensures var g := CompCascade(cs, id, i, n);
      && n <= g.next && 0 <= NCases(Jumped, cs, l) && 0 <= NCases(Callee, cs, l)
      && 0 <= NCases(Defined, cs, l) <= Tally(Defined, g.code, l)
         <= NCases(Defined, cs, l) + (if Own(l, n, g.next) || CascadeLabel(l, id, i) then 1 else 0)
      && (l == Jmp("CONDTIONAL", id, End) || l == Jmp("CONDTIONAL", id, Cond(i + 1)) ==> Tally(Defined, g.code, l) > 0)
      && (Tally(Jumped, g.code, l) > 0 ==> Tally(Defined, g.code, l) > 0 || NCases(Jumped, cs, l) > 0)
      && (Tally(Callee, g.code, l) > 0 ==> NCases(Callee, cs, l) > 0)
      && Tally(One, g.code, l) == 0
    decreases cs, 1
  {
    hide CompExpr, NExpr, CompNode, NNode, Tally;
    var here := Mark(Jmp("CONDTIONAL", id, Cond(i + 1)));
    var end := Jmp("CONDTIONAL", id, End);
    Single(here, l);
    match cs
    case Otherwise(b) =>
      ClosedNode(b, n, l);
      Single(Mark(end), l);
      Cat3([here], CompNode(b, n).code, [Mark(end)], l);
    case CCons(c, b, tail) =>
      var cc := CompExpr(c, n);
      var cb := CompNode(b, cc.next);
      var ct := CompCascade(tail, id, i + 1, cb.next);
      var test: seq<Asm> := [IfElse(Jmp("CONDTIONAL", id, Cond(i + 2)))];
      ClosedExpr(c, n, l);
      ClosedNode(b, cc.next, l);
      ClosedCascade(tail, id, i + 1, cb.next, l);
      Single(test[0], l);
      Single(Goto(end), l);
      Cat6([here], cc.code, test, cb.code, [Goto(end)], ct.code, l);
  }

  /** What is to be shown of the parts of a switch: tests and bodies together. */
  function ArmsTally(r: Role, arms: Arms, l: Label): int {
    match arms
    case Default(b) => Tally(r, b, l)
    case Arm(t, b, tail) => Tally(r, t, l) + Tally(r, b, l) + ArmsTally(r, tail, l)
  }

  lemma {:induction false} ClosedArms(cs: Cases, n: nat, l: Label)
    ensures var (arms, m) := CompArms(cs, n);
      && n <= m && 0 <= NCases(Jumped, cs, l) && 0 <= NCases(Callee, cs, l)
      && 0 <= NCases(Defined, cs, l) <= ArmsTally(Defined, arms, l) <= NCases(Defined, cs, l)
            + (if Own(l, n, m) then 1 else 0)
      && (ArmsTally(Jumped, arms, l) > 0 ==> ArmsTally(Defined, arms, l) > 0 || NCases(Jumped, cs, l) > 0)
      && (ArmsTally(Callee, arms, l) > 0 ==> NCases(Callee, cs, l) > 0)
      && ArmsTally(One, arms, l) == 0
    decreases cs, 0
  {
    hide Tally, CompExpr, NExpr, CompNode, NNode;
    match cs
    case Otherwise(b) => ClosedNode(b, n, l);
    case CCons(c, b, tail) =>
      var cc := CompExpr(c, n);
      var cb := CompNode(b, cc.next);
      ClosedExpr(c, n, l);
      ClosedNode(b, cc.next, l);
      ClosedArms(tail, cb.next, l);

  }

  /** One if l is the label of a case of switch id numbered from i up to j. */
  function CaseCount(l: Label, id: nat, i: nat, j: nat): nat {
    if l.Jump? && l.kind == "SWITCH" && l.id == id && l.part.Case? && i <= l.part.i < j then 1 else 0
  }

  /** The tests, the default and the bodies of a switch define what the arms define, and
      one label for each case, which is what the tests jump to. */
  lemma {:induction false} SwitchParts(arms: Arms, id: nat, i: nat, l: Label)
    ensures var t, b, d := SwitchTests(arms, id, i), SwitchBodies(arms, id, i), DefaultBody(arms);
      && Tally(Defined, t, l) + Tally(Defined, d, l) + Tally(Defined, b, l)
         == ArmsTally(Defined, arms, l) + CaseCount(l, id, i, i + Length(arms))
      && Tally(Jumped, t, l) + Tally(Jumped, d, l) + Tally(Jumped, b, l)
         == ArmsTally(Jumped, arms, l) + CaseCount(l, id, i, i + Length(arms))
             + (if l == Jmp("SWITCH", id, End) then Length(arms) else 0)
      && Tally(Callee, t, l) + Tally(Callee, d, l) + Tally(Callee, b, l) == ArmsTally(Callee, arms, l)
      && Tally(One, t, l) + Tally(One, d, l) + Tally(One, b, l) == ArmsTally(One, arms, l)
    decreases arms
  {
    hide Tally;
    match arms
    case Default(b) => Empty(l);
    case Arm(test, body, tail) =>
      SwitchParts(tail, id, i + 1, l);
      Single(Duplicate, l);
      Two(Simply(Ueql), IfElse(Jmp("SWITCH", id, Case(i))), l);
      Cat4([Duplicate], test, [Simply(Ueql), IfElse(Jmp("SWITCH", id, Case(i)))], SwitchTests(tail, id, i + 1), l);
      Two(Mark(Jmp("SWITCH", id, Case(i))), Scrap, l);
      Single(Goto(Jmp("SWITCH", id, End)), l);
      Cat4([Mark(Jmp("SWITCH", id, Case(i))), Scrap], body, [Goto(Jmp("SWITCH", id, End))],
        SwitchBodies(tail, id, i + 1), l);
  }

  function Length(arms: Arms): nat { if arms.Default? then 0 else 1 + Length(arms.tail) }

  /** A switch whose subject has this code. */
  lemma {:induction false} ClosedSwitch(
    subject: seq<Asm>, cs: Cases, n: nat, m: nat, l: Label, ends: int, rets: int, callees: int)
    requires Closed(subject, n, m, l, ends, rets, callees)
    ensures var (arms, id) := CompArms(cs, m);
      Closed(SwitchCode(subject, arms, id), n, id + 1, l,
        ends + NCases(Defined, cs, l), rets + NCases(Jumped, cs, l), callees + NCases(Callee, cs, l))
    decreases cs, 1
  {
    hide CompArms, NCases, Tally;
    ClosedArms(cs, m, l);
    var (arms, id) := CompArms(cs, m);
    SwitchParts(arms, id, 0, l);
    hide SwitchTests, SwitchBodies, DefaultBody, ArmsTally;
    var go: seq<Asm> := [Goto(Jmp("SWITCH", id, End))];
    var end: seq<Asm> := [Mark(Jmp("SWITCH", id, End))];
    var tail := DefaultBody(arms) + (go + (SwitchBodies(arms, id, 0) + end));
    Single(Scrap, l);
    Single(go[0], l);
    Single(end[0], l);
    Cat4(subject, SwitchTests(arms, id, 0), [Scrap], tail, l);
    Cat4(DefaultBody(arms), go, SwitchBodies(arms, id, 0), end, l);
  }

  lemma {:induction false} ClosedBind(b: Binding, n: nat, l: Label)
    ensures ClosedCg(CompBind(b, n), n, l, NBind(Defined, b, l), NBind(Jumped, b, l), NBind(Callee, b, l))
    decreases b, 1
  {
    hide CompBinds, CompArgs, NBinds, NExprs, Tally;
    match b
    case Group(subs) =>
      ClosedBinds(subs, n, l);
      Single(Unpack(CountBindings(subs) % 256), l);
      Cat([Unpack(CountBindings(subs) % 256)], CompBinds(subs, n).code, l);
    case Place(place, es) =>
      ClosedArgs(es, n, l);
      Single(Prim(PlaceOp(place)), l);
      Cat(CompArgs(es, n).code, [Prim(PlaceOp(place))], l);
    case _ => Single(CompBind(b, n).code[0], l);
  }

  lemma {:induction false} ClosedBinds(bs: Bindings, n: nat, l: Label)
    ensures ClosedCg(CompBinds(bs, n), n, l, NBinds(Defined, bs, l), NBinds(Jumped, bs, l), NBinds(Callee, bs, l))
    decreases bs, 0
  {
    hide CompBind, NBind, Tally;
    Empty(l);
    if bs.BCons? {
      var cb := CompBind(bs.head, n);
      ClosedBind(bs.head, n, l);
      ClosedBinds(bs.tail, cb.next, l);
      Cat(cb.code, CompBinds(bs.tail, cb.next).code, l);
    }
  }

  lemma {:induction false} ClosedStmt(s: Stmt, n: nat, l: Label)
    ensures ClosedCg(CompStmt(s, n), n, l, NStmt(Defined, s, l), NStmt(Jumped, s, l), NStmt(Callee, s, l))
    decreases s, 3
  {
    if s.ReturnStmt? {
      ClosedReturn(s, n, l);
    } else if s.ThrowStmt? || s.YieldStmt? || s.CoReturnStmt? {
      ClosedSimple(s, n, l);
    } else {
      ClosedNested(s, n, l);
    }
  }

  lemma {:induction false} ClosedNested(s: Stmt, n: nat, l: Label)
    requires !(s.ReturnStmt? || s.ThrowStmt? || s.YieldStmt? || s.CoReturnStmt?)
    ensures ClosedCg(CompStmt(s, n), n, l, NStmt(Defined, s, l), NStmt(Jumped, s, l), NStmt(Callee, s, l))
    decreases s, 2
  {
    hide CompCascade, CompArms, CompExpr, CompStmts, CompIf, CompWhile, CompForEach, CompBind, SwitchCode, NExpr,
      NStmts, NBind, NCases, Tally;
    match s
    case Assign(bind, e) =>
      var ce := CompExpr(e, n);
      ClosedExpr(e, n, l);
      ClosedBind(bind, ce.next, l);
      Cat(ce.code, CompBind(bind, ce.next).code, l);
    case NoOp => Empty(l);
    case Block(ss) => ClosedStmts(ss, n, l);
    case IfStmt(_, _, _) => ClosedIf(s, n, l);
    case While(_, _) => ClosedWhile(s, n, l);
    case InfiniteLoop(b) => ClosedInfinite(s, n, l);
    case ForEach(_, _, _) => ClosedForEach(s, n, l);
    case SwitchStmt(x, cs) =>
      var cx := CompExpr(x, n);
      ClosedExpr(x, n, l);
      ClosedSwitch(cx.code, cs, n, cx.next, l, NExpr(Defined, x, l), NExpr(Jumped, x, l), NExpr(Callee, x, l));
    case ConditionalStmt(cs) => ClosedConditional(cs, n, l);
  }

  lemma {:induction false} ClosedReturn(s: Stmt, n: nat, l: Label)
    requires s.ReturnStmt?
    ensures ClosedCg(CompStmt(s, n), n, l, NStmt(Defined, s, l), NStmt(Jumped, s, l), NStmt(Callee, s, l))
    decreases s, 2
  {
    hide CompExpr, NExpr, Tally;
    ClosedThen(s.e, if s.target.Some? then Goto(s.target.value) else Return, n, l);
  }

  lemma {:induction false} ClosedSimple(s: Stmt, n: nat, l: Label)
    requires s.ThrowStmt? || s.YieldStmt? || s.CoReturnStmt?
    ensures ClosedCg(CompStmt(s, n), n, l, NStmt(Defined, s, l), NStmt(Jumped, s, l), NStmt(Callee, s, l))
    decreases s, 2
  {
    hide CompExpr, NExpr, Tally;
    match s
    case ThrowStmt(e) => ClosedThen(e, Throw, n, l);
    case YieldStmt(e) => ClosedThen(e, Yield, n, l);
    case CoReturnStmt(e) => ClosedThen(e, CoReturn, n, l);
  }

  /** An operand and one more instruction. */
  lemma {:induction false} ClosedThen(e: Expr, i: Asm, n: nat, l: Label)
    ensures ClosedCg(CompExpr(e, n), n, l, NExpr(Defined, e, l), NExpr(Jumped, e, l), NExpr(Callee, e, l))
    ensures Tally(Defined, CompExpr(e, n).code + [i], l) == Tally(Defined, CompExpr(e, n).code, l) + Hit(Defined, i, l)
    ensures Tally(Jumped, CompExpr(e, n).code + [i], l) == Tally(Jumped, CompExpr(e, n).code, l) + Hit(Jumped, i, l)
    ensures Tally(Callee, CompExpr(e, n).code + [i], l) == Tally(Callee, CompExpr(e, n).code, l) + Hit(Callee, i, l)
    ensures Tally(One, CompExpr(e, n).code + [i], l) == Tally(One, CompExpr(e, n).code, l) + Hit(One, i, l)
    decreases e, 4
  {
    hide CompExpr, NExpr, Tally;
    ClosedExpr(e, n, l);
    Single(i, l);
    Cat(CompExpr(e, n).code, [i], l);
  }

  lemma {:induction false} ClosedInfinite(s: Stmt, n: nat, l: Label)
    requires s.InfiniteLoop?
    ensures ClosedCg(CompStmt(s, n), n, l, NStmt(Defined, s, l), NStmt(Jumped, s, l), NStmt(Callee, s, l))
    decreases s, 0
  {
    hide Tally;
    assert NStmt(Defined, s, l) == NStmt(Defined, s.body, l);
    assert NStmt(Jumped, s, l) == NStmt(Jumped, s.body, l);
    assert NStmt(Callee, s, l) == NStmt(Callee, s.body, l);
    hide NStmt;
    var cb := CompStmt(s.body, n);
    var top := Jmp("INFINETE_LOOP", cb.next, Whole);
    assert CompStmt(s, n) == Cg([Mark(top)] + (cb.code + [Goto(top)]), cb.next + 1);
    hide CompStmt;
    ClosedStmt(s.body, n, l);
    Single(Mark(top), l);
    Single(Goto(top), l);
    Cat3([Mark(top)], cb.code, [Goto(top)], l);
  }

  lemma IfNames(s: Stmt, l: Label)
    requires s.IfStmt?
    ensures forall r :: NStmt(r, s, l) ==
                        NExpr(r, s.cond, l) + NStmt(r, s.thn, l)
                        + (if s.els.Some? then NStmt(r, s.els.value, l) else 0)
  {
  }

  lemma {:induction false} ClosedIf(s: Stmt, n: nat, l: Label)
    requires s.IfStmt?
    ensures ClosedCg(CompIf(s, n), n, l, NStmt(Defined, s, l), NStmt(Jumped, s, l), NStmt(Callee, s, l))
    decreases s, 0
  {
    hide Tally, CompExpr, CompStmt, NStmt, NExpr;
    IfNames(s, l);
    var cc := CompExpr(s.cond, n);
    var ct := CompStmt(s.thn, cc.next);
    ClosedExpr(s.cond, n, l);
    ClosedStmt(s.thn, cc.next, l);
    if s.els.Some? {
      ClosedStmt(s.els.value, ct.next + 1, l);
      if s.els.value.NoOp? { NoOpNames(l); }
    }
    if s.els.Some? && !s.els.value.NoOp? {
      ElseLabels("IF", ct.next, cc.code, ct.code, CompStmt(s.els.value, ct.next + 1).code, l);
    } else {
      ThenLabels("IF", ct.next, cc.code, ct.code, l);
    }
    hide ElseCode, ThenCode;
  }

  lemma NoOpNames(l: Label)
    ensures NStmt(Defined, NoOp, l) == 0
    ensures NStmt(Jumped, NoOp, l) == 0
    ensures NStmt(Callee, NoOp, l) == 0
  {
  }

  lemma {:induction false} ClosedWhile(s: Stmt, n: nat, l: Label)
    requires s.While?
    ensures ClosedCg(CompWhile(s, n), n, l, NStmt(Defined, s, l), NStmt(Jumped, s, l), NStmt(Callee, s, l))
    decreases s, 0
  {
    hide Tally, CompExpr, CompStmt;
    assert NStmt(Defined, s, l) == NExpr(Defined, s.cond, l) + NStmt(Defined, s.body, l);
    assert NStmt(Jumped, s, l) == NExpr(Jumped, s.cond, l) + NStmt(Jumped, s.body, l);
    assert NStmt(Callee, s, l) == NExpr(Callee, s.cond, l) + NStmt(Callee, s.body, l);
    hide NStmt, NExpr;
    ClosedExpr(s.cond, n, l);
    ClosedStmt(s.body, CompExpr(s.cond, n).next, l);
    var cb := CompStmt(s.body, CompExpr(s.cond, n).next);
    var begin, end := Jmp("WHILE", cb.next, Begin), Jmp("WHILE", cb.next, End);
    Single(Mark(begin), l);
    Single(IfElse(end), l);
    Two(Goto(begin), Mark(end), l);
    Cat3([Mark(begin)], CompExpr(s.cond, n).code, [IfElse(end)] + (cb.code + [Goto(begin), Mark(end)]), l);
    Cat3([IfElse(end)], cb.code, [Goto(begin), Mark(end)], l);
  }

  lemma ForEachLabels(id: nat, e: seq<Asm>, bind: seq<Asm>, b: seq<Asm>, l: Label)
    ensures var code, own := ForEachCode(id, e, bind, b),
        If(l == Jmp("FOREACH_END", id, Whole) || l == Jmp("FOREACH_BODY", id + 1, Whole));
      && Tally(Defined, code, l) == Tally(Defined, e, l) + Tally(Defined, bind, l) + Tally(Defined, b, l) + own
      && Tally(Jumped, code, l) == Tally(Jumped, e, l) + Tally(Jumped, bind, l) + Tally(Jumped, b, l) + own
      && Tally(Callee, code, l) == Tally(Callee, e, l) + Tally(Callee, bind, l) + Tally(Callee, b, l)
      && Tally(One, code, l) == Tally(One, e, l) + Tally(One, bind, l) + Tally(One, b, l)
  {
    hide Tally;
    var end, top := Jmp("FOREACH_END", id, Whole), Jmp("FOREACH_BODY", id + 1, Whole);
    Three(Simply(Iter), Mark(top), ForNext(end), l);
    Four(Goto(top), Mark(end), Scrap, Scrap, l);
    Cat4(e, [Simply(Iter), Mark(top), ForNext(end)], bind, b + [Goto(top), Mark(end), Scrap, Scrap], l);
    Cat(b, [Goto(top), Mark(end), Scrap, Scrap], l);
  }

  lemma {:induction false} ClosedForEach(s: Stmt, n: nat, l: Label)
    requires s.ForEach?
    ensures ClosedCg(CompForEach(s, n), n, l, NStmt(Defined, s, l), NStmt(Jumped, s, l), NStmt(Callee, s, l))
    decreases s, 0
  {
    hide Tally, CompExpr, CompStmt, CompBind;
    assert NStmt(Defined, s, l) == NExpr(Defined, s.e, l) + NBind(Defined, s.bind, l) + NStmt(Defined, s.body, l);
    assert NStmt(Jumped, s, l) == NExpr(Jumped, s.e, l) + NBind(Jumped, s.bind, l) + NStmt(Jumped, s.body, l);
    assert NStmt(Callee, s, l) == NExpr(Callee, s.e, l) + NBind(Callee, s.bind, l) + NStmt(Callee, s.body, l);
    hide NStmt, NExpr, NBind;
    var ce := CompExpr(s.e, n + 2);
    var ci := CompBind(s.bind, ce.next);
    ClosedExpr(s.e, n + 2, l);
    ClosedBind(s.bind, ce.next, l);
    ClosedStmt(s.body, ci.next, l);
    var cb := CompStmt(s.body, ci.next);
    ForEachLabels(n, ce.code, ci.code, cb.code, l);
    hide ForEachCode;
  }

  lemma {:induction false} ClosedStmts(ss: Stmts, n: nat, l: Label)
    ensures ClosedCg(CompStmts(ss, n), n, l, NStmts(Defined, ss, l), NStmts(Jumped, ss, l), NStmts(Callee, ss, l))
    decreases ss, 0
  {
    hide CompStmt, NStmt, Tally;
    Empty(l);
    if ss.SCons? {
      var cs := CompStmt(ss.head, n);
      ClosedStmt(ss.head, n, l);
      ClosedStmts(ss.tail, cs.next, l);
      Cat(cs.code, CompStmts(ss.tail, cs.next).code, l);
    }
  }
}
