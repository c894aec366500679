/** A static condition under which evaluation always stays within what BigStep
    describes: operand counts fit, slots exist, and no return to the end of an
    immediately invoked block leaves a for-each loop. */
module WellFormed {
  import opened Values
  import opened Instructions
  import opened Machine
  import opened Sst
  import opened BigStep

  /** What the analysis knows of a program: how many values each function captures, how
      many globals there are, and whether there are coroutines. */
  datatype Shape = Shape(captures: seq<nat>, globals: nat, suspends: bool)

  /** The labels that the ends of immediately invoked blocks get. */
  predicate EndLabel(l: Label) { l.Jump? && l.kind == "IIFE" }

  predicate WfExpr(u: Source, sh: Shape, e: Expr, slots: nat)
    decreases e
  {
    match e
    case Lit(_) => true
    case Var(a) => a < slots
    case GlobalVar(a) => a < sh.globals
    case Strict(node, es) =>
      && WfExprs(u, sh, es, slots) && Pops(StrictOp(node, Count(es))) == Count(es)
      && Pushes(StrictOp(node, Count(es)))
    case NullTest(x) => WfExpr(u, sh, x, slots)
    case Logic(_, l, r) => WfExpr(u, sh, l, slots) && WfExpr(u, sh, r, slots)
    case Ternary(c, t, f) => WfExpr(u, sh, c, slots) && WfExpr(u, sh, t, slots) && WfExpr(u, sh, f, slots)
    case Conditional(cs) => WfCases(u, sh, cs, slots, None)
    case Switch(x, cs) => WfExpr(u, sh, x, slots) && WfCases(u, sh, cs, slots, None)
    case StructLit(ms) => WfMembers(u, sh, ms, slots)
    case MapLit(ps) => WfPairs(u, sh, ps, slots)
    case CallExpr(l, es) =>
      var f := FindFn(u.env.fns, l);
      && WfExprs(u, sh, es, slots) && f.Some? && f.value < |u.env.fns|
      && Count(es) == Arity(u.env.fns[f.value]) && f.value < |sh.captures| && sh.captures[f.value] == 0
    case InvokeExpr(x, es) => WfExpr(u, sh, x, slots) && WfExprs(u, sh, es, slots) && Count(es) < 256
    case InvokeMember(x, _, es) => WfExpr(u, sh, x, slots) && WfExprs(u, sh, es, slots) && Count(es) < 255
    case FxPointer(l, es) =>
      var f := FindFn(u.env.fns, l);
      && WfExprs(u, sh, es, slots) && f.Some? && f.value < |u.env.fns|
      && f.value < |sh.captures| && sh.captures[f.value] == Count(es)
    case Iife(end, body) => EndLabel(end) && WfStmt(u, sh, body, slots, {end})
  }

  predicate WfExprs(u: Source, sh: Shape, es: Exprs, slots: nat)
    decreases es
  {
    es.ECons? ==> WfExpr(u, sh, es.head, slots) && WfExprs(u, sh, es.tail, slots)
  }

  predicate WfMembers(u: Source, sh: Shape, ms: Members, slots: nat)
    decreases ms
  {
    ms.MCons? ==> WfExpr(u, sh, ms.e, slots) && WfMembers(u, sh, ms.tail, slots)
  }

  predicate WfPairs(u: Source, sh: Shape, ps: Pairs, slots: nat)
    decreases ps
  {
    ps.PCons? ==> WfExpr(u, sh, ps.key, slots) && WfExpr(u, sh, ps.val, slots) && WfPairs(u, sh, ps.tail, slots)
  }

  /** The arms of an expression (no targets) or of a statement, which may return to targets. */
  predicate WfNode(u: Source, sh: Shape, n: Node, slots: nat, targets: Option<set<Label>>)
    decreases n
  {
    match n
    case E(e) => targets.None? && WfExpr(u, sh, e, slots)
    case S(s) => targets.Some? && WfStmt(u, sh, s, slots, targets.value)
  }

  predicate WfCases(u: Source, sh: Shape, cs: Cases, slots: nat, targets: Option<set<Label>>)
    decreases cs
  {
    match cs
    case Otherwise(b) => WfNode(u, sh, b, slots, targets)
    case CCons(c, b, tail) =>
      WfExpr(u, sh, c, slots) && WfNode(u, sh, b, slots, targets) && WfCases(u, sh, tail, slots, targets)
  }

  predicate WfBinding(u: Source, sh: Shape, b: Binding, slots: nat)
    decreases b
  {
    match b
    case NewVar(a) => a < slots
    case Local(a) => a < slots
    case Global(a) => a < sh.globals
    case Discard => true
    case Group(subs) => WfBindings(u, sh, subs, slots) && CountBindings(subs) < 256
    case Place(place, es) => WfExprs(u, sh, es, slots) && Pops(PlaceOp(place)) == Count(es) + 1
  }

  predicate WfBindings(u: Source, sh: Shape, bs: Bindings, slots: nat)
    decreases bs
  {
    bs.BCons? ==> WfBinding(u, sh, bs.head, slots) && WfBindings(u, sh, bs.tail, slots)
  }

  /** targets are the ends of immediately invoked blocks the statement may return to;
      inside a for-each there is none. */
  predicate WfStmt(u: Source, sh: Shape, s: Stmt, slots: nat, targets: set<Label>)
    decreases s
  {
    match s
    case NoOp => true
    case Block(ss) => WfStmts(u, sh, ss, slots, targets)
    case IfStmt(c, t, e) =>
      && WfExpr(u, sh, c, slots) && WfStmt(u, sh, t, slots, targets)
      && (e.Some? ==> WfStmt(u, sh, e.value, slots, targets))
    case While(c, b) => WfExpr(u, sh, c, slots) && WfStmt(u, sh, b, slots, targets)
    case InfiniteLoop(b) => WfStmt(u, sh, b, slots, targets)
    case ForEach(bind, e, b) => WfBinding(u, sh, bind, slots) && WfExpr(u, sh, e, slots) && WfStmt(u, sh, b, slots, {})
    case SwitchStmt(x, cs) => WfExpr(u, sh, x, slots) && WfCases(u, sh, cs, slots, Some(targets))
    case ConditionalStmt(cs) => WfCases(u, sh, cs, slots, Some(targets))
    case Assign(bind, e) => WfBinding(u, sh, bind, slots) && WfExpr(u, sh, e, slots)
    case ReturnStmt(e, target) => WfExpr(u, sh, e, slots) && (target.Some? ==> target.value in targets)
    case ThrowStmt(e) => WfExpr(u, sh, e, slots)
    case YieldStmt(e) => sh.suspends && WfExpr(u, sh, e, slots)
    case CoReturnStmt(e) => sh.suspends && WfExpr(u, sh, e, slots)
  }

  predicate WfStmts(u: Source, sh: Shape, ss: Stmts, slots: nat, targets: set<Label>)
    decreases ss
  {
    ss.SCons? ==> WfStmt(u, sh, ss.head, slots, targets) && WfStmts(u, sh, ss.tail, slots, targets)
  }

  /** A body sees its parameters, its captures and the slots its frame adds; an except
      block sees the exception in place of the parameters. */
  predicate WfFunction(u: Source, sh: Shape, f: nat)
    requires f < |u.fns| && f < |u.env.fns| && f < |sh.captures|
  {
    var fn, c := u.fns[f], u.env.fns[f];
    && (fn.isCoroutine ==> sh.suspends)
    && WfStmt(u, sh, fn.body, Arity(c) + sh.captures[f] + c.frameSize, {})
    && (fn.except.Some? ==> WfStmt(u, sh, fn.except.value, 1 + c.frameSize, {}))
  }

  predicate WfSource(u: Source, sh: Shape) {
    && |u.fns| == |u.env.fns| == |sh.captures|
    && forall f :: 0 <= f < |u.fns| ==> WfFunction(u, sh, f)
  }

  /** No coroutines, and every function pointer carries its captures. */
  predicate Sane(sh: Shape, v: Value) {
    match v
    case Fn(f, vs) => f < |sh.captures| && |vs| == sh.captures[f] && forall i :: 0 <= i < |vs| ==> Sane(sh, vs[i])
    case Co(_) => false
    case _ => true
  }

  predicate AllSane(sh: Shape, vs: seq<Value>) {
    forall i :: 0 <= i < |vs| ==> Sane(sh, vs[i])
  }

  predicate SaneHeap(sh: Shape, h: Heap) {
    forall id :: id in h ==> AllSane(sh, h[id])
  }

  predicate SaneResult(sh: Shape, r: PrimResult) {
    match r
    case Ok(v, h) => Sane(sh, v) && SaneHeap(sh, h)
    case Err(x, h) => Sane(sh, x) && SaneHeap(sh, h)
  }

  /** The primitives make up neither coroutines nor function pointers. */
  ghost predicate SaneOps(sh: Shape, ops: HeapOps) {
    && (forall p, args, h :: |args| == Pops(p) && AllSane(sh, args) && SaneHeap(sh, h) ==>
          SaneResult(sh, ops.op(p, args, h)))
    && (forall v, h :: Sane(sh, v) && SaneHeap(sh, h) ==> SaneResult(sh, ops.next(v, h)))
    && (forall v, h :: Sane(sh, v) && SaneHeap(sh, h) && ops.elements(v, h).Some? ==>
          AllSane(sh, ops.elements(v, h).value))
  }

  predicate SaneWorld(sh: Shape, w: World, slots: nat) {
    |w.globals| == sh.globals && AllSane(sh, w.globals) && |w.locals| == slots && AllSane(sh, w.locals)
        && SaneHeap(sh, w.heap)
  }

  /** An outcome the semantics describes; count values are left on the stack. */
  predicate Good(sh: Shape, r: Res, slots: nat, count: nat, targets: set<Label>) {
    match r.out
    case Done(vs) => |vs| == count && AllSane(sh, vs) && SaneWorld(sh, r.w, slots)
    case Raised(x) => Sane(sh, x) && SaneWorld(sh, r.w, slots)
    case Returned(v) => Sane(sh, v) && SaneWorld(sh, r.w, slots)
    case Left(l, v, pending) => l in targets && pending == [] && Sane(sh, v) && SaneWorld(sh, r.w, slots)
    case OutOfFuel => true
    case Outside => false
  }

  ghost predicate Setting(u: Source, sh: Shape, w: World, slots: nat) {
    !sh.suspends && WfSource(u, sh) && SaneOps(sh, u.env.ops) && SaneWorld(sh, w, slots)
  }

  lemma KnownSane(sh: Shape, p: PrimOp, args: seq<Value>, h: Heap)
    requires |args| == Pops(p) && AllSane(sh, args) && SaneHeap(sh, h)
    ensures Known(p, args, h).Some? ==> SaneResult(sh, Known(p, args, h).value)
  {
  }

  lemma PrimGood(u: Source, sh: Shape, p: PrimOp, args: seq<Value>, w: World, slots: nat)
    requires SaneOps(sh, u.env.ops) && SaneWorld(sh, w, slots) && |args| == Pops(p) && AllSane(sh, args)
    ensures Good(sh, PrimOut(u, p, args, w), slots, if Pushes(p) then 1 else 0, {})
  {
    KnownSane(sh, p, args, w.heap);
    hide Known, Sane;
    assert SaneResult(sh, Apply(u.env.ops, p, args, w.heap));
  }

  lemma GoodLit(u: Source, sh: Shape, l: Literal, w: World, slots: nat)
    requires Setting(u, sh, w, slots)
    ensures Good(sh, EvalLit(u, l, w), slots, 1, {})
  {
    match l
    case FloatLit(bits) => PrimGood(u, sh, NewF(bits), [], w, slots);
    case TypeLit(code) => PrimGood(u, sh, NewType(code), [], w, slots);
    case _ =>
  }

  lemma {:induction false} GoodExpr(u: Source, sh: Shape, e: Expr, w: World, slots: nat, fuel: nat)
    requires Setting(u, sh, w, slots) && WfExpr(u, sh, e, slots)
    ensures Good(sh, EvalExpr(u, e, w, fuel), slots, 1, {})
    decreases fuel, e, 3
  {
    hide Sane, EvalCascade, EvalArms, EvalStrict, EvalNullTest, EvalLogic, EvalTernary, EvalStruct, EvalMap,
      EvalCallExpr, EvalInvokeExpr, EvalInvokeMember, EvalFxPointer, EvalIife, PrimOut, EvalLit, WfStmt, WfFunction,
      SaneOps;
    match e
    case Lit(l) => GoodLit(u, sh, l, w, slots);
    case Var(a) =>
    case GlobalVar(a) =>
    case Strict(_, _) => GoodStrict(u, sh, e, w, slots, fuel);
    case NullTest(_) => GoodNullTest(u, sh, e, w, slots, fuel);
    case Logic(_, _, _) => GoodLogic(u, sh, e, w, slots, fuel);
    case Ternary(_, _, _) => GoodTernary(u, sh, e, w, slots, fuel);
    case Conditional(cs) => GoodCascade(u, sh, cs, w, slots, None, fuel);
    case Switch(x, cs) =>
      GoodExpr(u, sh, x, w, slots, fuel);
      var rx := EvalExpr(u, x, w, fuel);
      if rx.out.Done? { GoodArms(u, sh, rx.out.vs[0], cs, rx.w, slots, None, fuel); }
    case StructLit(_) => GoodStruct(u, sh, e, w, slots, fuel);
    case MapLit(_) => GoodMap(u, sh, e, w, slots, fuel);
    case CallExpr(_, _) => GoodCallExpr(u, sh, e, w, slots, fuel);
    case InvokeExpr(_, _) => GoodInvoke(u, sh, e, w, slots, fuel);
    case InvokeMember(_, _, _) => GoodInvokeMember(u, sh, e, w, slots, fuel);
    case FxPointer(_, _) => GoodFxPointer(u, sh, e, w, slots, fuel);
    case Iife(_, _) => GoodIife(u, sh, e, w, slots, fuel);
  }

  lemma {:induction false} GoodStrict(u: Source, sh: Shape, e: Expr, w: World, slots: nat, fuel: nat)
    requires e.Strict? && Setting(u, sh, w, slots) && WfExpr(u, sh, e, slots)
    ensures Good(sh, EvalStrict(u, e, w, fuel), slots, 1, {})
    decreases fuel, e, 0
  {
    hide Sane, WfFunction, SaneOps, EvalArgs, PrimOut, WfExprs;
    GoodArgs(u, sh, e.args, w, slots, fuel);
    var ra := EvalArgs(u, e.args, w, fuel);
    if ra.out.Done? { PrimGood(u, sh, StrictOp(e.node, Count(e.args)), ra.out.vs, ra.w, slots); }
  }

  lemma {:induction false} GoodNullTest(u: Source, sh: Shape, e: Expr, w: World, slots: nat, fuel: nat)
    requires e.NullTest? && Setting(u, sh, w, slots) && WfExpr(u, sh, e, slots)
    ensures Good(sh, EvalNullTest(u, e, w, fuel), slots, 1, {})
    decreases fuel, e, 0
  {
    hide Sane, WfFunction, SaneOps, EvalExpr, WfStmt;
    GoodExpr(u, sh, e.e, w, slots, fuel);
    assert forall b :: Sane(sh, Bool(b)) by { AtomsSane(sh); }
  }

  lemma {:induction false} GoodLogic(u: Source, sh: Shape, e: Expr, w: World, slots: nat, fuel: nat)
    requires e.Logic? && Setting(u, sh, w, slots) && WfExpr(u, sh, e, slots)
    ensures Good(sh, EvalLogic(u, e, w, fuel), slots, 1, {})
    decreases fuel, e, 0
  {
    hide Sane, WfFunction, SaneOps, EvalExpr;
    AtomsSane(sh);
    GoodExpr(u, sh, e.l, w, slots, fuel);
    var rl := EvalExpr(u, e.l, w, fuel);
    if rl.out.Done? { GoodExpr(u, sh, e.r, rl.w, slots, fuel); }
  }

  lemma {:induction false} GoodTernary(u: Source, sh: Shape, e: Expr, w: World, slots: nat, fuel: nat)
    requires e.Ternary? && Setting(u, sh, w, slots) && WfExpr(u, sh, e, slots)
    ensures Good(sh, EvalTernary(u, e, w, fuel), slots, 1, {})
    decreases fuel, e, 0
  {
    hide Sane, WfFunction, SaneOps, EvalExpr;
    GoodExpr(u, sh, e.cond, w, slots, fuel);
    var rc := EvalExpr(u, e.cond, w, fuel);
    if rc.out.Done? {
      if Truthy(rc.out.vs[0]) {
        GoodExpr(u, sh, e.thn, rc.w, slots, fuel);
      } else {
        GoodExpr(u, sh, e.els, rc.w, slots, fuel);
      }
    }
  }

  lemma {:induction false} GoodStruct(u: Source, sh: Shape, e: Expr, w: World, slots: nat, fuel: nat)
    requires e.StructLit? && Setting(u, sh, w, slots) && WfExpr(u, sh, e, slots)
    ensures Good(sh, EvalStruct(u, e, w, fuel), slots, 1, {})
    decreases fuel, e, 0
  {
    hide Sane, WfFunction, SaneOps, EvalMembers, PrimOut, WfMembers;
    PrimGood(u, sh, Simple(NewStruct), [], w, slots);
    var ro := PrimOut(u, Simple(NewStruct), [], w);
    if ro.out.Done? { GoodMembers(u, sh, ro.out.vs[0], e.members, ro.w, slots, fuel); }
  }

  lemma {:induction false} GoodMap(u: Source, sh: Shape, e: Expr, w: World, slots: nat, fuel: nat)
    requires e.MapLit? && Setting(u, sh, w, slots) && WfExpr(u, sh, e, slots)
    ensures Good(sh, EvalMap(u, e, w, fuel), slots, 1, {})
    decreases fuel, e, 0
  {
    hide Sane, WfFunction, SaneOps, EvalPairs, PrimOut, WfPairs;
    PrimGood(u, sh, Simple(NewMap), [], w, slots);
    var ro := PrimOut(u, Simple(NewMap), [], w);
    if ro.out.Done? { GoodPairs(u, sh, ro.out.vs[0], e.pairs, ro.w, slots, fuel); }
  }

  lemma {:induction false} GoodCallExpr(u: Source, sh: Shape, e: Expr, w: World, slots: nat, fuel: nat)
    requires e.CallExpr? && Setting(u, sh, w, slots) && WfExpr(u, sh, e, slots)
    ensures Good(sh, EvalCallExpr(u, e, w, fuel), slots, 1, {})
    decreases fuel, e, 0
  {
    hide Sane, WfFunction, SaneOps, EvalArgs, EvalCall, WfExprs;
    GoodArgs(u, sh, e.args, w, slots, fuel);
    var ra := EvalArgs(u, e.args, w, fuel);
    if ra.out.Done? && fuel > 0 {
      var f := FindFn(u.env.fns, e.fn).value;
      GoodCall(u, sh, Target(f, ra.out.vs, ra.w.heap), ra.w, slots, fuel - 1);
    }
  }

  lemma {:induction false} GoodInvoke(u: Source, sh: Shape, e: Expr, w: World, slots: nat, fuel: nat)
    requires e.InvokeExpr? && Setting(u, sh, w, slots) && WfExpr(u, sh, e, slots)
    ensures Good(sh, EvalInvokeExpr(u, e, w, fuel), slots, 1, {})
    decreases fuel, e, 0
  {
    hide Sane, WfFunction, SaneOps, EvalArgs, EvalExpr, EvalCall, Resolve, WfExprs;
    GoodArgs(u, sh, e.args, w, slots, fuel);
    var ra := EvalArgs(u, e.args, w, fuel);
    if ra.out.Done? {
      GoodExpr(u, sh, e.fnExpr, ra.w, slots, fuel);
      var rf := EvalExpr(u, e.fnExpr, ra.w, fuel);
      if rf.out.Done? && fuel > 0 {
        GoodResolve(u, sh, rf.out.vs[0], ra.out.vs, rf.w, slots);
        GoodCall(u, sh, Resolve(u, rf.out.vs[0], ra.out.vs, rf.w), rf.w, slots, fuel - 1);
      }
    }
  }

  lemma {:induction false} GoodInvokeMember(u: Source, sh: Shape, e: Expr, w: World, slots: nat, fuel: nat)
    requires e.InvokeMember? && Setting(u, sh, w, slots) && WfExpr(u, sh, e, slots)
    ensures Good(sh, EvalInvokeMember(u, e, w, fuel), slots, 1, {})
    decreases fuel, e, 0
  {
    hide Sane, WfFunction, SaneOps, EvalArgs, EvalExpr, EvalCall, Resolve, PrimOut, WfExprs;
    GoodExpr(u, sh, e.e, w, slots, fuel);
    var rx := EvalExpr(u, e.e, w, fuel);
    if !rx.out.Done? { return; }
    PrimGood(u, sh, MemberRead(e.id), rx.out.vs, rx.w, slots);
    var rf := PrimOut(u, MemberRead(e.id), rx.out.vs, rx.w);
    if !rf.out.Done? { return; }
    GoodArgs(u, sh, e.args, rf.w, slots, fuel);
    var ra := EvalArgs(u, e.args, rf.w, fuel);
    if ra.out.Done? && fuel > 0 {
      GoodResolve(u, sh, rf.out.vs[0], rx.out.vs + ra.out.vs, ra.w, slots);
      GoodCall(u, sh, Resolve(u, rf.out.vs[0], rx.out.vs + ra.out.vs, ra.w), ra.w, slots, fuel - 1);
    }
  }

  lemma {:induction false} GoodFxPointer(u: Source, sh: Shape, e: Expr, w: World, slots: nat, fuel: nat)
    requires e.FxPointer? && Setting(u, sh, w, slots) && WfExpr(u, sh, e, slots)
    ensures Good(sh, EvalFxPointer(u, e, w, fuel), slots, 1, {})
    decreases fuel, e, 0
  {
    hide WfFunction, SaneOps, EvalArgs, WfExprs;
    GoodArgs(u, sh, e.args, w, slots, fuel);
  }

  lemma {:induction false} GoodIife(u: Source, sh: Shape, e: Expr, w: World, slots: nat, fuel: nat)
    requires e.Iife? && Setting(u, sh, w, slots) && WfExpr(u, sh, e, slots)
    ensures Good(sh, EvalIife(u, e, w, fuel), slots, 1, {})
    decreases fuel, e, 0
  {
    hide Sane, WfFunction, SaneOps, EvalStmt, WfStmt;
    AtomsSane(sh);
    GoodStmt(u, sh, e.body, w, slots, {e.end}, fuel);
  }

  lemma AtomsSane(sh: Shape)
    ensures Sane(sh, Null) && (forall b :: Sane(sh, Bool(b))) && (forall m :: Sane(sh, Str(m)))
  {
  }

  lemma {:induction false} GoodArgs(u: Source, sh: Shape, es: Exprs, w: World, slots: nat, fuel: nat)
    requires Setting(u, sh, w, slots) && WfExprs(u, sh, es, slots)
    ensures Good(sh, EvalArgs(u, es, w, fuel), slots, Count(es), {})
    decreases fuel, es, 0
  {
    hide Sane, WfFunction, SaneOps, EvalExpr, WfExpr;
    if es.ECons? {
      GoodExpr(u, sh, es.head, w, slots, fuel);
      var re := EvalExpr(u, es.head, w, fuel);
      if re.out.Done? { GoodArgs(u, sh, es.tail, re.w, slots, fuel); }
    }
  }

  lemma {:induction false} GoodMembers(u: Source, sh: Shape, o: Value, ms: Members, w: World, slots: nat, fuel: nat)
    requires Setting(u, sh, w, slots) && WfMembers(u, sh, ms, slots) && Sane(sh, o)
    ensures Good(sh, EvalMembers(u, o, ms, w, fuel), slots, 1, {})
    decreases fuel, ms, 0
  {
    hide Sane, WfFunction, SaneOps, EvalExpr, WfExpr, PrimOut;
    if ms.MCons? {
      GoodExpr(u, sh, ms.e, w, slots, fuel);
      var re := EvalExpr(u, ms.e, w, fuel);
      if !re.out.Done? { return; }
      PrimGood(u, sh, MemberWrite(ms.id), re.out.vs + [o], re.w, slots);
      var rw := PrimOut(u, MemberWrite(ms.id), re.out.vs + [o], re.w);
      if rw.out.Done? { GoodMembers(u, sh, o, ms.tail, rw.w, slots, fuel); }
    }
  }

  lemma {:induction false} GoodPairs(u: Source, sh: Shape, o: Value, ps: Pairs, w: World, slots: nat, fuel: nat)
    requires Setting(u, sh, w, slots) && WfPairs(u, sh, ps, slots) && Sane(sh, o)
    ensures Good(sh, EvalPairs(u, o, ps, w, fuel), slots, 1, {})
    decreases fuel, ps, 0
  {
    hide Sane, WfFunction, SaneOps, EvalExpr, WfExpr, PrimOut;
    if ps.PCons? {
      GoodExpr(u, sh, ps.val, w, slots, fuel);
      var re := EvalExpr(u, ps.val, w, fuel);
      if !re.out.Done? { return; }
      GoodExpr(u, sh, ps.key, re.w, slots, fuel);
      var rk := EvalExpr(u, ps.key, re.w, fuel);
      if !rk.out.Done? { return; }
      var args := re.out.vs + [o] + rk.out.vs;
      PrimGood(u, sh, Simple(AtWrite), args, rk.w, slots);
      var rw := PrimOut(u, Simple(AtWrite), args, rk.w);
      if rw.out.Done? { GoodPairs(u, sh, o, ps.tail, rw.w, slots, fuel); }
    }
  }

  function Width(targets: Option<set<Label>>): nat { if targets.None? then 1 else 0 }
  function Ends(targets: Option<set<Label>>): set<Label> { if targets.None? then {} else targets.value }

  lemma {:induction false} GoodNode(
    u: Source, sh: Shape, n: Node, w: World, slots: nat, targets: Option<set<Label>>, fuel: nat)
    requires Setting(u, sh, w, slots) && WfNode(u, sh, n, slots, targets)
    ensures Good(sh, EvalNode(u, n, w, fuel), slots, Width(targets), Ends(targets))
    decreases fuel, n, 0
  {
    hide Sane, WfFunction, SaneOps, EvalExpr, WfExpr, EvalStmt, WfStmt;
    match n
    case E(e) => GoodExpr(u, sh, e, w, slots, fuel);
    case S(x) => GoodStmt(u, sh, x, w, slots, targets.value, fuel);
  }

  lemma {:induction false} GoodCascade(
    u: Source, sh: Shape, cs: Cases, w: World, slots: nat, targets: Option<set<Label>>, fuel: nat)
    requires Setting(u, sh, w, slots) && WfCases(u, sh, cs, slots, targets)
    ensures Good(sh, EvalCascade(u, cs, w, fuel), slots, Width(targets), Ends(targets))
    decreases fuel, cs, 0
  {
    hide Sane, WfFunction, SaneOps, EvalExpr, WfExpr, EvalNode, WfNode;
    match cs
    case Otherwise(b) => GoodNode(u, sh, b, w, slots, targets, fuel);
    case CCons(c, b, tail) =>
      GoodExpr(u, sh, c, w, slots, fuel);
      var rc := EvalExpr(u, c, w, fuel);
      if rc.out.Done? {
        if Truthy(rc.out.vs[0]) { GoodNode(u, sh, b, rc.w, slots, targets, fuel); }
        else { GoodCascade(u, sh, tail, rc.w, slots, targets, fuel); }
      }
  }

  lemma {:induction false} GoodArms(
    u: Source, sh: Shape, v: Value, cs: Cases, w: World, slots: nat, targets: Option<set<Label>>, fuel: nat)
    requires Setting(u, sh, w, slots) && WfCases(u, sh, cs, slots, targets) && Sane(sh, v)
    ensures Good(sh, EvalArms(u, v, cs, w, fuel), slots, Width(targets), Ends(targets))
    decreases fuel, cs, 0
  {
    hide Sane, WfFunction, SaneOps, EvalExpr, WfExpr, EvalNode, WfNode, PrimOut;
    match cs
    case Otherwise(b) => GoodNode(u, sh, b, w, slots, targets, fuel);
    case CCons(c, b, tail) =>
      GoodExpr(u, sh, c, w, slots, fuel);
      var rc := EvalExpr(u, c, w, fuel);
      if !rc.out.Done? { return; }
      PrimGood(u, sh, Simple(Ueql), [v] + rc.out.vs, rc.w, slots);
      var rq := PrimOut(u, Simple(Ueql), [v] + rc.out.vs, rc.w);
      if rq.out.Done? {
        if Truthy(rq.out.vs[0]) { GoodArms(u, sh, v, tail, rq.w, slots, targets, fuel); }
        else { GoodNode(u, sh, b, rq.w, slots, targets, fuel); }
      }
  }

  ghost predicate GoodTarget(u: Source, sh: Shape, i: Invocation) {
    match i
    case Target(f, vs, h) =>
      f < |u.env.fns| && f < |sh.captures| && |vs| == Arity(u.env.fns[f]) + sh.captures[f] && AllSane(sh, vs)
          && SaneHeap(sh, h)
    case NoTarget(out, h) => out.Raised? && Sane(sh, out.x) && SaneHeap(sh, h)
  }

  /** A sane value and arguments resolve to a call with as many slots as the function names. */
  lemma GoodResolve(u: Source, sh: Shape, fv: Value, args: seq<Value>, w: World, slots: nat)
    requires Setting(u, sh, w, slots) && Sane(sh, fv) && AllSane(sh, args) && |args| < 256
    ensures GoodTarget(u, sh, Resolve(u, fv, args, w))
  {
    if fv.Fn? && u.env.fns[fv.index].isVariadic && |args| >= u.env.fns[fv.index].arity {
      var n := u.env.fns[fv.index].arity;
      assert SaneResult(sh, u.env.ops.op(NewTuple(|args| - n), args[n..], w.heap));
    }
  }

  lemma {:induction false} GoodCall(u: Source, sh: Shape, i: Invocation, w: World, slots: nat, fuel: nat)
    requires Setting(u, sh, w, slots) && GoodTarget(u, sh, i)
    ensures Good(sh, EvalCall(u, i, w, fuel), slots, 1, {})
    decreases fuel
  {
    hide Sane, SaneOps, EvalStmt, WfStmt;
    AtomsSane(sh);
    if i.Target? {
      assert WfFunction(u, sh, i.f);
      var c := u.env.fns[i.f];
      var w0 := World(w.globals, i.slots + Nulls(c.frameSize), i.heap);
      var n := Arity(c) + sh.captures[i.f] + c.frameSize;
      GoodStmt(u, sh, u.fns[i.f].body, w0, n, {}, fuel);
      var rb := EvalStmt(u, u.fns[i.f].body, w0, fuel);
      if rb.out.Raised? && u.fns[i.f].except.Some? {
        GoodStmt(u, sh, u.fns[i.f].except.value, rb.w.(locals := [rb.out.x] + Nulls(c.frameSize)), 1 + c.frameSize,
          {}, fuel);
      }
    }
  }

  lemma {:induction false} GoodBind(u: Source, sh: Shape, b: Binding, v: Value, w: World, slots: nat, fuel: nat)
    requires Setting(u, sh, w, slots) && WfBinding(u, sh, b, slots) && Sane(sh, v)
    ensures Good(sh, EvalBind(u, b, v, w, fuel), slots, 0, {})
    decreases fuel, b, 2
  {
    hide Sane, WfFunction, EvalBinds, EvalArgs, WfBindings, WfExprs, PrimOut;
    AtomsSane(sh);
    match b
    case Group(subs) =>
      var n := CountBindings(subs);
      var vs := u.env.ops.elements(v, w.heap);
      if vs.Some? && |vs.value| >= n { GoodBinds(u, sh, subs, vs.value[..n], w, slots, fuel); }
    case Place(place, es) =>
      GoodArgs(u, sh, es, w, slots, fuel);
      var ra := EvalArgs(u, es, w, fuel);
      if ra.out.Done? { PrimGood(u, sh, PlaceOp(place), [v] + ra.out.vs, ra.w, slots); }
    case _ =>
  }

  lemma {:induction false} GoodBinds(
    u: Source, sh: Shape, bs: Bindings, vs: seq<Value>, w: World, slots: nat, fuel: nat)
    requires Setting(u, sh, w, slots) && WfBindings(u, sh, bs, slots) && AllSane(sh, vs) && |vs| == CountBindings(bs)
    ensures Good(sh, EvalBinds(u, bs, vs, w, fuel), slots, 0, {})
    decreases fuel, bs, 0
  {
    hide Sane, WfFunction, SaneOps, EvalBind, WfBinding;
    if bs.BCons? {
      GoodBind(u, sh, bs.head, vs[0], w, slots, fuel);
      var rb := EvalBind(u, bs.head, vs[0], w, fuel);
      if rb.out.Done? { GoodBinds(u, sh, bs.tail, vs[1..], rb.w, slots, fuel); }
    }
  }

  lemma {:induction false} GoodStmt(u: Source, sh: Shape, x: Stmt, w: World, slots: nat, targets: set<Label>, fuel: nat)
    requires Setting(u, sh, w, slots) && WfStmt(u, sh, x, slots, targets)
    ensures Good(sh, EvalStmt(u, x, w, fuel), slots, 0, targets)
    decreases fuel, x, 3
  {
    hide Sane, EvalCascade, EvalArms, EvalIf, EvalWhile, EvalInfinite, EvalForEach, EvalAssign, EvalStmts, EvalExpr,
      WfFunction, SaneOps, WfExpr, WfCases, WfBinding, WfStmts;
    match x
    case NoOp =>
    case Block(ss) => GoodStmts(u, sh, ss, w, slots, targets, fuel);
    case IfStmt(_, _, _) => GoodIf(u, sh, x, w, slots, targets, fuel);
    case While(_, _) => GoodWhile(u, sh, x, w, slots, targets, fuel);
    case InfiniteLoop(_) => GoodInfinite(u, sh, x, w, slots, targets, fuel);
    case ForEach(_, _, _) => GoodForEach(u, sh, x, w, slots, targets, fuel);
    case SwitchStmt(e, cs) =>
      GoodExpr(u, sh, e, w, slots, fuel);
      var rx := EvalExpr(u, e, w, fuel);
      if rx.out.Done? { GoodArms(u, sh, rx.out.vs[0], cs, rx.w, slots, Some(targets), fuel); }
    case ConditionalStmt(cs) => GoodCascade(u, sh, cs, w, slots, Some(targets), fuel);
    case Assign(_, _) => GoodAssign(u, sh, x, w, slots, targets, fuel);
    case ReturnStmt(e, target) => GoodExpr(u, sh, e, w, slots, fuel);
    case ThrowStmt(e) => GoodExpr(u, sh, e, w, slots, fuel);
    case YieldStmt(_) =>
    case CoReturnStmt(_) =>
  }

  lemma {:induction false} GoodIf(u: Source, sh: Shape, x: Stmt, w: World, slots: nat, targets: set<Label>, fuel: nat)
    requires x.IfStmt? && Setting(u, sh, w, slots) && WfStmt(u, sh, x, slots, targets)
    ensures Good(sh, EvalIf(u, x, w, fuel), slots, 0, targets)
    decreases fuel, x, 0
  {
    hide Sane, WfFunction, SaneOps, EvalExpr, EvalStmt, WfExpr;
    GoodExpr(u, sh, x.cond, w, slots, fuel);
    var rc := EvalExpr(u, x.cond, w, fuel);
    if rc.out.Done? {
      if Truthy(rc.out.vs[0]) { GoodStmt(u, sh, x.thn, rc.w, slots, targets, fuel); }
      else if x.els.Some? { GoodStmt(u, sh, x.els.value, rc.w, slots, targets, fuel); }
    }
  }

  lemma {:induction false} GoodWhile(
    u: Source, sh: Shape, x: Stmt, w: World, slots: nat, targets: set<Label>, fuel: nat)
    requires x.While? && Setting(u, sh, w, slots) && WfStmt(u, sh, x, slots, targets)
    ensures Good(sh, EvalWhile(u, x, w, fuel), slots, 0, targets)
    decreases fuel, x, 0
  {
    hide Sane, WfFunction, SaneOps, EvalExpr, EvalStmt, WfExpr;
    GoodExpr(u, sh, x.cond, w, slots, fuel);
    var rc := EvalExpr(u, x.cond, w, fuel);
    if rc.out.Done? && Truthy(rc.out.vs[0]) {
      GoodStmt(u, sh, x.body, rc.w, slots, targets, fuel);
      var rb := EvalStmt(u, x.body, rc.w, fuel);
      if rb.out.Done? && fuel > 0 { GoodStmt(u, sh, x, rb.w, slots, targets, fuel - 1); }
    }
  }

  lemma {:induction false} GoodInfinite(
    u: Source, sh: Shape, x: Stmt, w: World, slots: nat, targets: set<Label>, fuel: nat)
    requires x.InfiniteLoop? && Setting(u, sh, w, slots) && WfStmt(u, sh, x, slots, targets)
    ensures Good(sh, EvalInfinite(u, x, w, fuel), slots, 0, targets)
    decreases fuel, x, 0
  {
    hide Sane, WfFunction, SaneOps, EvalStmt;
    GoodStmt(u, sh, x.body, w, slots, targets, fuel);
    var rb := EvalStmt(u, x.body, w, fuel);
    if rb.out.Done? && fuel > 0 { GoodStmt(u, sh, x, rb.w, slots, targets, fuel - 1); }
  }

  lemma {:induction false} GoodForEach(
    u: Source, sh: Shape, x: Stmt, w: World, slots: nat, targets: set<Label>, fuel: nat)
    requires x.ForEach? && Setting(u, sh, w, slots) && WfStmt(u, sh, x, slots, targets)
    ensures Good(sh, EvalForEach(u, x, w, fuel), slots, 0, targets)
    decreases fuel, x, 0
  {
    hide Sane, WfFunction, SaneOps, EvalExpr, EvalRounds, WfExpr, PrimOut;
    GoodExpr(u, sh, x.e, w, slots, fuel);
    var re := EvalExpr(u, x.e, w, fuel);
    if !re.out.Done? { return; }
    PrimGood(u, sh, Simple(Iter), re.out.vs, re.w, slots);
    var ri := PrimOut(u, Simple(Iter), re.out.vs, re.w);
    if ri.out.Done? && fuel > 0 { GoodRounds(u, sh, ri.out.vs[0], x.bind, x.body, ri.w, slots, fuel - 1); }
  }

  lemma {:induction false} GoodRounds(
    u: Source, sh: Shape, it: Value, bind: Binding, b: Stmt, w: World, slots: nat, fuel: nat)
    requires Setting(u, sh, w, slots) && Sane(sh, it) && WfBinding(u, sh, bind, slots) && WfStmt(u, sh, b, slots, {})
    ensures Good(sh, EvalRounds(u, it, bind, b, w, fuel), slots, 0, {})
    decreases fuel
  {
    hide Sane, WfFunction, EvalBind, EvalStmt, WfBinding, WfStmt;
    assert SaneResult(sh, u.env.ops.next(it, w.heap));
    match u.env.ops.next(it, w.heap)
    case Err(_, _) =>
    case Ok(v, h) =>
      if v.Stop? { return; }
      GoodBind(u, sh, bind, v, w.(heap := h), slots, fuel);
      var rv := EvalBind(u, bind, v, w.(heap := h), fuel);
      if !rv.out.Done? { return; }
      GoodStmt(u, sh, b, rv.w, slots, {}, fuel);
      var rb := EvalStmt(u, b, rv.w, fuel);
      if rb.out.Done? && fuel > 0 { GoodRounds(u, sh, it, bind, b, rb.w, slots, fuel - 1); }
  }

  lemma {:induction false} GoodAssign(
    u: Source, sh: Shape, x: Stmt, w: World, slots: nat, targets: set<Label>, fuel: nat)
    requires x.Assign? && Setting(u, sh, w, slots) && WfStmt(u, sh, x, slots, targets)
    ensures Good(sh, EvalAssign(u, x, w, fuel), slots, 0, targets)
    decreases fuel, x, 0
  {
    hide Sane, WfFunction, SaneOps, EvalExpr, EvalBind, WfExpr, WfBinding;
    GoodExpr(u, sh, x.e, w, slots, fuel);
    var re := EvalExpr(u, x.e, w, fuel);
    if re.out.Done? { GoodBind(u, sh, x.bind, re.out.vs[0], re.w, slots, fuel); }
  }

  lemma {:induction false} GoodStmts(
    u: Source, sh: Shape, ss: Stmts, w: World, slots: nat, targets: set<Label>, fuel: nat)
    requires Setting(u, sh, w, slots) && WfStmts(u, sh, ss, slots, targets)
    ensures Good(sh, EvalStmts(u, ss, w, fuel), slots, 0, targets)
    decreases fuel, ss, 0
  {
    hide Sane, WfFunction, SaneOps, EvalStmt, WfStmt;
    if ss.SCons? {
      GoodStmt(u, sh, ss.head, w, slots, targets, fuel);
      var rs := EvalStmt(u, ss.head, w, fuel);
      if rs.out.Done? { GoodStmts(u, sh, ss.tail, rs.w, slots, targets, fuel); }
    }
  }
}
