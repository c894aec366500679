/** The code generator as it works: it fills buffers in sequence and draws jump numbers
    from a counter. It produces the code that Compile specifies. */
module Codegen {
  import opened Values
  import opened Instructions
  import opened Sst
  import opened Compile

  type Buffer = seq<Asm>
  type CaseCode = (Buffer, Buffer)

  /** The cases compiled so far in front of the others. */
  function InFront(cases: seq<CaseCode>, rest: Arms): Arms {
    if cases == [] then rest else Arm(cases[0].0, cases[0].1, InFront(cases[1..], rest))
  }

  lemma {:induction false} InFrontMore(cases: seq<CaseCode>, c: CaseCode, rest: Arms)
    ensures InFront(cases + [c], rest) == InFront(cases, Arm(c.0, c.1, rest))
    decreases |cases|
  {
    if cases == [] {
      assert [] + [c] == [c] && [c][1..] == [];
    } else {
      InFrontMore(cases[1..], c, rest);
      assert (cases + [c])[1..] == cases[1..] + [c];
    }
  }

  lemma {:induction false} InFrontDefault(cases: seq<CaseCode>, body: Buffer)
    ensures DefaultBody(InFront(cases, Default(body))) == body
    decreases |cases|
  {
    if cases != [] { InFrontDefault(cases[1..], body); }
  }

  class Generator {
    /** The number make_jump_id gives next. */
    var counter: nat

    constructor (first: nat)
      ensures counter == first
    {
      counter := first;
    }

    method MakeJumpId() returns (id: nat)
      modifies this
      ensures id == old(counter) && counter == id + 1
    {
      id := counter;
      counter := counter + 1;
    }

    /** compile_conditional. */
    method CompileConditional(kind: string, id: nat, condition: Buffer, branch: Buffer, otherwise: Option<Buffer>)
      returns (buf: Buffer)
      ensures buf == match otherwise
        case Some(y) => ElseCode(kind, id, condition, branch, y)
        case None => ThenCode(kind, id, condition, branch)
    {
      var toElse, toEnd := Jmp(kind, id, Else), Jmp(kind, id, End);
      buf := condition + [IfElse(toElse)];
      buf := buf + branch;
      match otherwise
      case Some(y) =>
        buf := buf + [Goto(toEnd)] + [Mark(toElse)] + y + [Mark(toEnd)];
      case None =>
        buf := buf + [Mark(toElse)];
    }

    /** any_switch: one loop for the tests, one for the bodies. */
    method AnySwitch(subject: Buffer, cases: seq<CaseCode>, otherwise: Buffer) returns (buf: Buffer)
      modifies this
      ensures buf == SwitchCode(subject, InFront(cases, Default(otherwise)), old(counter))
          && counter == old(counter) + 1
    {
      var id := MakeJumpId();
      var end := Jmp("SWITCH", id, End);
      ghost var arms := InFront(cases, Default(otherwise));
      buf := subject;
      assert cases[0..] == cases;
      for i := 0 to |cases|
        invariant counter == id + 1
        invariant buf + SwitchTests(InFront(cases[i..], Default(otherwise)), id, i)
            == subject + SwitchTests(arms, id, 0)
      {
        ghost var was := buf;
        assert cases[i..][1..] == cases[i + 1..];
        buf := buf + [Duplicate] + cases[i].0 + [Simply(Ueql)] + [IfElse(Jmp("SWITCH", id, Case(i)))];
        MoreTests(was, cases[i].0, id, i, InFront(cases[i + 1..], Default(otherwise)), cases[i].1);
      }
      buf := buf + [Scrap] + otherwise + [Goto(end)];
      ghost var front := subject + SwitchTests(arms, id, 0) + [Scrap] + otherwise + [Goto(end)];
      assert buf == front;
      for i := 0 to |cases|
        invariant counter == id + 1
        invariant buf + SwitchBodies(InFront(cases[i..], Default(otherwise)), id, i)
            == front + SwitchBodies(arms, id, 0)
      {
        ghost var was := buf;
        assert cases[i..][1..] == cases[i + 1..];
        buf := buf + [Mark(Jmp("SWITCH", id, Case(i)))] + [Scrap] + cases[i].1 + [Goto(end)];
        MoreBodies(was, cases[i].1, id, i, InFront(cases[i + 1..], Default(otherwise)), cases[i].0);
      }
      buf := buf + [Mark(end)];
      InFrontDefault(cases, otherwise);
      WholeSwitch(subject, arms, id);
    }

    /** Code of an expression. */
    method CompileExpression(e: Expr) returns (buf: Buffer)
      modifies this
      ensures buf == CompExpr(e, old(counter)).code && counter == CompExpr(e, old(counter)).next
      decreases e, 3
    {
      match e
      case Lit(l) => buf := [CompLit(l)];
      case Var(a) => buf := [LoadX(a)];
      case GlobalVar(a) => buf := [GlobalRead(a)];
      case Strict(node, es) =>
        buf := CompileArguments(es);
        buf := buf + [Prim(StrictOp(node, Count(es)))];
      case NullTest(x) =>
        var unused := CompileExpression(x);
        buf := CompileExpression(x);
        buf := buf + [Simply(Nvll)] + [Simply(Ueql)];
        assert [Simply(Nvll)] + [Simply(Ueql)] == [Simply(Nvll), Simply(Ueql)];
      case Logic(op, l, r) => buf := CompileLogic(e);
      case Ternary(c, t, f) =>
        var id := MakeJumpId();
        var condition := CompileExpression(c);
        var branch := CompileExpression(t);
        var otherwise := CompileExpression(f);
        buf := CompileConditional("TERNARY", id, condition, branch, Some(otherwise));
      case Conditional(cs) => buf := CompileCascade(cs);
      case Switch(x, cs) =>
        var subject := CompileExpression(x);
        var cases, otherwise := CompileCases(cs);
        buf := AnySwitch(subject, cases, otherwise);
      case StructLit(ms) =>
        buf := CompileMembers(ms);
      case MapLit(ps) =>
        buf := CompilePairs(ps);
      case CallExpr(l, es) =>
        buf := CompileArguments(es);
        buf := buf + [Call(l)];
      case InvokeExpr(x, es) =>
        buf := CompileArguments(es);
        var pointer := CompileExpression(x);
        buf := buf + pointer + [Invoke(Count(es))];
      case InvokeMember(_, _, _) => buf := CompileInvokeMember(e);
      case FxPointer(l, es) => buf := CompileCaptures(l, es);
      case Iife(end, body) =>
        buf := CompileStatement(body);
        buf := buf + [Simply(Nvll)] + [Mark(end)];
        IifeShape(CompStmt(body, old(counter)).code, end);
    }

    method CompileLogic(e: Expr) returns (buf: Buffer)
      requires e.Logic?
      modifies this
      ensures buf == CompExpr(e, old(counter)).code && counter == CompExpr(e, old(counter)).next
      decreases e, 0
    {
      var l := CompileExpression(e.l);
      var r := CompileExpression(e.r);
      match e.lop
      case And => buf := LogAnd(l, r);
      case Or => buf := LogOr(l, r);
      case Elvis => buf := ElvisCode(l, r);
      case NullCo => buf := NullCoCode(l, r);
    }

    method LogAnd(l: Buffer, r: Buffer) returns (buf: Buffer)
      modifies this
      ensures buf == l + (LogicTest(And, old(counter)) + (r + LogicTail(And, old(counter))))
          && counter == old(counter) + 1
    {
      var id := MakeJumpId();
      var end := Jmp("AND", id, End);
      buf := l + [IfElse(Jmp("AND", id, False_))] + r + [Simply(CastBool)] + [Goto(end)];
      buf := buf + [Mark(Jmp("AND", id, False_))] + [Simply(False)] + [Mark(end)];
    }

    method LogOr(l: Buffer, r: Buffer) returns (buf: Buffer)
      modifies this
      ensures buf == l + (LogicTest(Or, old(counter)) + (r + LogicTail(Or, old(counter))))
          && counter == old(counter) + 1
    {
      var id := MakeJumpId();
      var end := Jmp("OR", id, End);
      buf := l + [Simply(Not)] + [IfElse(Jmp("OR", id, True_))] + r + [Simply(CastBool)] + [Goto(end)];
      buf := buf + [Mark(Jmp("OR", id, True_))] + [Simply(True)] + [Mark(end)];
    }

    method ElvisCode(l: Buffer, r: Buffer) returns (buf: Buffer)
      modifies this
      ensures buf == l + (LogicTest(Elvis, old(counter)) + (r + LogicTail(Elvis, old(counter))))
          && counter == old(counter) + 1
    {
      var id := MakeJumpId();
      var end := Jmp("ELVIS", id, End);
      buf := l + [Duplicate] + [IfElse(Jmp("ELVIS", id, Else))] + [Goto(end)];
      buf := buf + [Mark(Jmp("ELVIS", id, Else))] + [Scrap] + r + [Mark(end)];
    }

    method NullCoCode(l: Buffer, r: Buffer) returns (buf: Buffer)
      modifies this
      ensures buf == l + (LogicTest(NullCo, old(counter)) + (r + LogicTail(NullCo, old(counter))))
          && counter == old(counter) + 1
    {
      var id := MakeJumpId();
      var end := Jmp("NULLCO", id, End);
      buf := l + [Duplicate] + [Simply(Nvll)] + [Simply(Ueql)] + [IfElse(Jmp("NULLCO", id, Else))] + [Goto(end)];
      buf := buf + [Mark(Jmp("NULLCO", id, Else))] + [Scrap] + r + [Mark(end)];
    }

    method CompileInvokeMember(e: Expr) returns (buf: Buffer)
      requires e.InvokeMember?
      modifies this
      ensures buf == CompExpr(e, old(counter)).code && counter == CompExpr(e, old(counter)).next
      decreases e, 0
    {
      var holder := CompileExpression(e.e);
      var args := CompileMemberArguments(e.args);
      buf := holder + [Duplicate] + [Prim(MemberRead(e.id))] + args;
      buf := buf + [Invoke(Count(e.args) + 1)];
      MemberShape(holder, e.id, args, Count(e.args) + 1);
    }

    /** Each argument is swapped below the member. */
    method CompileMemberArguments(es: Exprs) returns (buf: Buffer)
      modifies this
      ensures buf == CompMemberArgs(es, old(counter)).code && counter == CompMemberArgs(es, old(counter)).next
      decreases es, 0
    {
      buf := [];
      var rest := es;
      while rest.ECons?
        invariant rest == es || rest < es
        invariant buf + CompMemberArgs(rest, counter).code == CompMemberArgs(es, old(counter)).code
        invariant CompMemberArgs(rest, counter).next == CompMemberArgs(es, old(counter)).next
        decreases rest
      {
        ghost var was := buf;
        var arg := CompileExpression(rest.head);
        buf := buf + arg + [Swap];
        SwapMore(was, arg, CompMemberArgs(rest.tail, counter).code);
        rest := rest.tail;
      }
    }

    method CompileArguments(es: Exprs) returns (buf: Buffer)
      modifies this
      ensures buf == CompArgs(es, old(counter)).code && counter == CompArgs(es, old(counter)).next
      decreases es, 0
    {
      buf := [];
      var rest := es;
      while rest.ECons?
        invariant rest == es || rest < es
        invariant buf + CompArgs(rest, counter).code == CompArgs(es, old(counter)).code
        invariant CompArgs(rest, counter).next == CompArgs(es, old(counter)).next
        decreases rest
      {
        ghost var was := buf;
        var arg := CompileExpression(rest.head);
        buf := buf + arg;
        Regroup(was, arg, CompArgs(rest.tail, counter).code);
        rest := rest.tail;
      }
    }

    method CompileCaptures(l: Label, es: Exprs) returns (buf: Buffer)
      modifies this
      ensures buf == [NewFx(l)] + CompCaptures(es, old(counter)).code && counter == CompCaptures(es, old(counter)).next
      decreases es, 0
    {
      buf := [NewFx(l)];
      var rest := es;
      while rest.ECons?
        invariant rest == es || rest < es
        invariant buf + CompCaptures(rest, counter).code == [NewFx(l)] + CompCaptures(es, old(counter)).code
        invariant CompCaptures(rest, counter).next == CompCaptures(es, old(counter)).next
        decreases rest
      {
        ghost var was := buf;
        var arg := CompileExpression(rest.head);
        buf := buf + arg + [Capture];
        CaptureMore(was, arg, CompCaptures(rest.tail, counter).code);
        rest := rest.tail;
      }
    }

    method CompileMembers(ms: Members) returns (buf: Buffer)
      modifies this
      ensures buf == [Simply(NewStruct)] + CompMembers(ms, old(counter)).code
          && counter == CompMembers(ms, old(counter)).next
      decreases ms, 0
    {
      buf := [Simply(NewStruct)];
      var rest := ms;
      while rest.MCons?
        invariant rest == ms || rest < ms
        invariant buf + CompMembers(rest, counter).code == [Simply(NewStruct)] + CompMembers(ms, old(counter)).code
        invariant CompMembers(rest, counter).next == CompMembers(ms, old(counter)).next
        decreases rest
      {
        ghost var was := buf;
        buf := buf + [Duplicate];
        var value := CompileExpression(rest.e);
        buf := buf + value + [Swap] + [Prim(MemberWrite(rest.id))];
        MemberMore(was, value, rest.id, CompMembers(rest.tail, counter).code);
        rest := rest.tail;
      }
    }

    method CompilePairs(ps: Pairs) returns (buf: Buffer)
      modifies this
      ensures buf == [Simply(NewMap)] + CompPairs(ps, old(counter)).code && counter == CompPairs(ps, old(counter)).next
      decreases ps, 0
    {
      buf := [Simply(NewMap)];
      var rest := ps;
      while rest.PCons?
        invariant rest == ps || rest < ps
        invariant buf + CompPairs(rest, counter).code == [Simply(NewMap)] + CompPairs(ps, old(counter)).code
        invariant CompPairs(rest, counter).next == CompPairs(ps, old(counter)).next
        decreases rest
      {
        ghost var was := buf;
        buf := buf + [Duplicate];
        var value := CompileExpression(rest.val);
        buf := buf + value + [Swap];
        var key := CompileExpression(rest.key);
        buf := buf + key + [Simply(AtWrite)];
        PairMore(was, value, key, CompPairs(rest.tail, counter).code);
        rest := rest.tail;
      }
    }

    method CompileBody(x: Node) returns (buf: Buffer)
      modifies this
      ensures buf == CompNode(x, old(counter)).code && counter == CompNode(x, old(counter)).next
      decreases x, 0
    {
      match x
      case E(e) => buf := CompileExpression(e);
      case S(s) => buf := CompileStatement(s);
    }

    /** compile_cases, and the default after them. */
    method CompileCases(cs: Cases) returns (cases: seq<CaseCode>, otherwise: Buffer)
      modifies this
      ensures (InFront(cases, Default(otherwise)), counter) == CompArms(cs, old(counter))
      decreases cs, 0
    {
      cases := [];
      var rest := cs;
      while rest.CCons?
        invariant rest == cs || rest < cs
        invariant InFront(cases, CompArms(rest, counter).0) == CompArms(cs, old(counter)).0
        invariant CompArms(rest, counter).1 == CompArms(cs, old(counter)).1
        decreases rest
      {
        var test := CompileExpression(rest.cond);
        var body := CompileBody(rest.body);
        InFrontMore(cases, (test, body), CompArms(rest.tail, counter).0);
        cases := cases + [(test, body)];
        rest := rest.tail;
      }
      otherwise := CompileBody(rest.body);
    }

    /** compile_conditional_cascade. */
    method CompileCascade(cs: Cases) returns (buf: Buffer)
      modifies this
      ensures var g := CompCascade(cs, old(counter), 0, old(counter) + 1); buf == g.code && counter == g.next
      decreases cs, 1
    {
      buf := [];
      var id := MakeJumpId();
      var end := Jmp("CONDTIONAL", id, End);
      var i, rest := 0, cs;
      while rest.CCons?
        invariant rest == cs || rest < cs
        invariant buf + CompCascade(rest, id, i, counter).code == CompCascade(cs, id, 0, id + 1).code
        invariant CompCascade(rest, id, i, counter).next == CompCascade(cs, id, 0, id + 1).next
        decreases rest
      {
        ghost var was := buf;
        buf := buf + [Mark(Jmp("CONDTIONAL", id, Cond(i + 1)))];
        var condition := CompileExpression(rest.cond);
        buf := buf + condition + [IfElse(Jmp("CONDTIONAL", id, Cond(i + 2)))];
        var body := CompileBody(rest.body);
        buf := buf + body + [Goto(end)];
        CascadeMore(was, Jmp("CONDTIONAL", id, Cond(i + 1)), condition, Jmp("CONDTIONAL", id, Cond(i + 2)), body, end,
          CompCascade(rest.tail, id, i + 1, counter).code);
        i, rest := i + 1, rest.tail;
      }
      ghost var was := buf;
      buf := buf + [Mark(Jmp("CONDTIONAL", id, Cond(i + 1)))];
      var body := CompileBody(rest.body);
      buf := buf + body + [Mark(end)];
      CascadeEnd(was, Jmp("CONDTIONAL", id, Cond(i + 1)), body, end);
    }

    /** compile_binding. */
    method CompileBinding(b: Binding) returns (buf: Buffer)
      modifies this
      ensures buf == CompBind(b, old(counter)).code && counter == CompBind(b, old(counter)).next
      decreases b
    {
      match b
      case NewVar(a) => buf := [StoreX(a)];
      case Local(a) => buf := [StoreX(a)];
      case Global(a) => buf := [GlobalWrite(a)];
      case Discard => buf := [Scrap];
      case Group(subs) =>
        buf := [Unpack(CountBindings(subs) % 256)];
        ghost var front := buf;
        var rest := subs;
        while rest.BCons?
          invariant rest == subs || rest < subs
          invariant buf + CompBinds(rest, counter).code == front + CompBinds(subs, old(counter)).code
          invariant CompBinds(rest, counter).next == CompBinds(subs, old(counter)).next
          decreases rest
        {
          ghost var was := buf;
          var sub := CompileBinding(rest.head);
          buf := buf + sub;
          Regroup(was, sub, CompBinds(rest.tail, counter).code);
          rest := rest.tail;
        }
      case Place(place, es) =>
        buf := CompileArguments(es);
        buf := buf + [Prim(PlaceOp(place))];
    }

    /** Code of a statement. */
    method CompileStatement(s: Stmt) returns (buf: Buffer)
      modifies this
      ensures buf == CompStmt(s, old(counter)).code && counter == CompStmt(s, old(counter)).next
      decreases s, 3
    {
      match s
      case NoOp => buf := [];
      case Block(ss) => buf := CompileBlock(ss);
      case IfStmt(_, _, _) => buf := CompileIfElse(s);
      case While(c, b) =>
        var condition := CompileExpression(c);
        var body := CompileStatement(b);
        var id := MakeJumpId();
        var begin, end := Jmp("WHILE", id, Begin), Jmp("WHILE", id, End);
        buf := [Mark(begin)] + condition + [IfElse(end)] + body + [Goto(begin)] + [Mark(end)];
        LoopShape(id, condition, body);
      case InfiniteLoop(b) =>
        var body := CompileStatement(b);
        var id := MakeJumpId();
        var jump := Jmp("INFINETE_LOOP", id, Whole);
        buf := [Mark(jump)] + body + [Goto(jump)];
        assert buf == [Mark(jump)] + (body + [Goto(jump)]);
      case ForEach(_, _, _) => buf := CompileForEach(s);
      case SwitchStmt(x, cs) =>
        var subject := CompileExpression(x);
        var cases, otherwise := CompileCases(cs);
        buf := AnySwitch(subject, cases, otherwise);
      case ConditionalStmt(cs) => buf := CompileCascade(cs);
      case Assign(bind, e) =>
        var value := CompileExpression(e);
        var binding := CompileBinding(bind);
        buf := value + binding;
      case ReturnStmt(e, target) =>
        buf := CompileExpression(e);
        if target.Some? { buf := buf + [Goto(target.value)]; } else { buf := buf + [Return]; }
      case ThrowStmt(e) =>
        buf := CompileExpression(e);
        buf := buf + [Throw];
      case YieldStmt(e) =>
        buf := CompileExpression(e);
        buf := buf + [Yield];
      case CoReturnStmt(e) =>
        buf := CompileExpression(e);
        buf := buf + [CoReturn];
    }

    method CompileBlock(ss: Stmts) returns (buf: Buffer)
      modifies this
      ensures buf == CompStmts(ss, old(counter)).code && counter == CompStmts(ss, old(counter)).next
      decreases ss, 0
    {
      buf := [];
      var rest := ss;
      while rest.SCons?
        invariant rest == ss || rest < ss
        invariant buf + CompStmts(rest, counter).code == CompStmts(ss, old(counter)).code
        invariant CompStmts(rest, counter).next == CompStmts(ss, old(counter)).next
        decreases rest
      {
        ghost var was := buf;
        var code := CompileStatement(rest.head);
        buf := buf + code;
        Regroup(was, code, CompStmts(rest.tail, counter).code);
        rest := rest.tail;
      }
    }

    method CompileIfElse(s: Stmt) returns (buf: Buffer)
      requires s.IfStmt?
      modifies this
      ensures buf == CompStmt(s, old(counter)).code && counter == CompStmt(s, old(counter)).next
      decreases s, 0
    {
      var condition := CompileExpression(s.cond);
      var branch := CompileStatement(s.thn);
      var id := MakeJumpId();
      if s.els.Some? && !s.els.value.NoOp? {
        var otherwise := CompileStatement(s.els.value);
        buf := CompileConditional("IF", id, condition, branch, Some(otherwise));
      } else {
        buf := CompileConditional("IF", id, condition, branch, None);
      }
    }

    method CompileForEach(s: Stmt) returns (buf: Buffer)
      requires s.ForEach?
      modifies this
      ensures buf == CompStmt(s, old(counter)).code && counter == CompStmt(s, old(counter)).next
      decreases s, 0
    {
      var n := MakeJumpId();
      var m := MakeJumpId();
      var end, top := Jmp("FOREACH_END", n, Whole), Jmp("FOREACH_BODY", m, Whole);
      var iterable := CompileExpression(s.e);
      buf := iterable + [Simply(Iter)] + [Mark(top)] + [ForNext(end)];
      var binding := CompileBinding(s.bind);
      var body := CompileStatement(s.body);
      buf := buf + binding + body + [Goto(top)];
      buf := buf + [Mark(end)] + [Scrap] + [Scrap];
      ForEachShape(n, iterable, binding, body);
    }

    /** compile_function. */
    method CompileFunction(f: FunctionDecl) returns (buf: Buffer)
      requires f.name.Function?
      modifies this
      ensures buf == CompFunction(f, old(counter)).code && counter == CompFunction(f, old(counter)).next
    {
      buf := [Mark(f.name)];
      if f.except.Some? { buf := buf + [Try(ExceptLabel(f.name))]; }
      if f.isCoroutine { buf := buf + [CoDump]; }
      ghost var head := buf;
      var body := CompileStatement(f.body);
      buf := buf + body + [Simply(Nvll)];
      if f.isCoroutine { buf := buf + [CoReturn]; } else { buf := buf + [Return]; }
      ghost var last: Asm := if f.isCoroutine then CoReturn else Return;
      assert buf == head + (body + [Simply(Nvll), last]);
      if f.except.Some? {
        var code := CompileExcept(f.except.value, ExceptLabel(f.name));
        buf := buf + code;
      }
    }

    method CompileExcept(s: Stmt, l: Label) returns (buf: Buffer)
      modifies this
      ensures buf == [Mark(l)] + (CompStmt(s, old(counter)).code + [Simply(Nvll), Return])
      ensures counter == CompStmt(s, old(counter)).next
    {
      buf := [Mark(l)];
      var body := CompileStatement(s);
      buf := buf + body + [Simply(Nvll)] + [Return];
    }
  }

  lemma Regroup(a: Buffer, b: Buffer, c: Buffer)
    ensures a + (b + c) == a + b + c
  {
  }

  lemma SwapMore(was: Buffer, arg: Buffer, rest: Buffer)
    ensures was + (arg + ([Swap] + rest)) == was + arg + [Swap] + rest
  {
  }

  lemma CaptureMore(was: Buffer, arg: Buffer, rest: Buffer)
    ensures was + (arg + ([Capture] + rest)) == was + arg + [Capture] + rest
  {
  }

  lemma MemberMore(was: Buffer, value: Buffer, id: nat, rest: Buffer)
    ensures was + ([Duplicate] + (value + ([Swap, Prim(MemberWrite(id))] + rest)))
         == was + [Duplicate] + value + [Swap] + [Prim(MemberWrite(id))] + rest
  {
  }

  lemma MemberShape(x: Buffer, id: nat, args: Buffer, n: nat)
    ensures x + [Duplicate] + [Prim(MemberRead(id))] + args + [Invoke(n)]
         == x + ([Duplicate, Prim(MemberRead(id))] + (args + [Invoke(n)]))
  {
  }

  lemma PairMore(was: Buffer, value: Buffer, key: Buffer, rest: Buffer)
    ensures was + ([Duplicate] + (value + ([Swap] + (key + ([Simply(AtWrite)] + rest)))))
         == was + [Duplicate] + value + [Swap] + key + [Simply(AtWrite)] + rest
  {
  }

  lemma CascadeMore(was: Buffer, here: Label, c: Buffer, next: Label, b: Buffer, end: Label, rest: Buffer)
    ensures was + ([Mark(here)] + (c + ([IfElse(next)] + (b + ([Goto(end)] + rest)))))
         == was + [Mark(here)] + c + [IfElse(next)] + b + [Goto(end)] + rest
  {
  }

  lemma CascadeEnd(was: Buffer, here: Label, b: Buffer, end: Label)
    ensures was + ([Mark(here)] + (b + [Mark(end)])) == was + [Mark(here)] + b + [Mark(end)]
  {
  }

  lemma MoreTests(was: Buffer, test: Buffer, id: nat, i: nat, rest: Arms, body: Buffer)
    ensures was + SwitchTests(Arm(test, body, rest), id, i)
         == was + [Duplicate] + test + [Simply(Ueql)] + [IfElse(Jmp("SWITCH", id, Case(i)))]
             + SwitchTests(rest, id, i + 1)
  {
  }

  lemma MoreBodies(was: Buffer, body: Buffer, id: nat, i: nat, rest: Arms, test: Buffer)
    ensures was + SwitchBodies(Arm(test, body, rest), id, i)
         == was + [Mark(Jmp("SWITCH", id, Case(i)))] + [Scrap] + body + [Goto(Jmp("SWITCH", id, End))]
             + SwitchBodies(rest, id, i + 1)
  {
  }

  lemma WholeSwitch(subject: Buffer, arms: Arms, id: nat)
    ensures SwitchCode(subject, arms, id) ==
      subject + SwitchTests(arms, id, 0) + [Scrap] + DefaultBody(arms) + [Goto(Jmp("SWITCH", id, End))]
        + SwitchBodies(arms, id, 0) + [Mark(Jmp("SWITCH", id, End))]
  {
    hide SwitchTests, SwitchBodies, DefaultBody;
  }

  lemma IifeShape(body: Buffer, end: Label)
    ensures body + [Simply(Nvll)] + [Mark(end)] == body + [Simply(Nvll), Mark(end)]
  {
  }

  lemma LoopShape(id: nat, c: Buffer, b: Buffer)
    ensures var begin, end := Jmp("WHILE", id, Begin), Jmp("WHILE", id, End);
      [Mark(begin)] + c + [IfElse(end)] + b + [Goto(begin)] + [Mark(end)] == LoopCode(id, c, b)
  {
  }

  lemma ForEachShape(id: nat, e: Buffer, bind: Buffer, b: Buffer)
    ensures var end, top := Jmp("FOREACH_END", id, Whole), Jmp("FOREACH_BODY", id + 1, Whole);
      e + [Simply(Iter)] + [Mark(top)] + [ForNext(end)] + bind + b + [Goto(top)] + [Mark(end)] + [Scrap] + [Scrap]
        == ForEachCode(id, e, bind, b)
  {
  }
}
