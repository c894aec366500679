/** Operand heights: how many operands are on the stack before each instruction does not
    depend on how control gets there. A pass over the code finds these heights. */
module Heights {
  import opened Values
  import opened Instructions
  import opened Machine
  import opened Sst
  import opened BigStep
  import opened Compile
  import opened ClosedCode

  /** While code is passed over: the height where control can be (None where it cannot
      come by falling through), the heights of the labels jumped to so far, and the labels
      that were passed when nothing had led to them. */
  datatype Track = Track(height: Option<nat>, at: map<Label, nat>, dead: set<Label>)

  /** Control goes to l with this height. */
  function Meet(t: Track, l: Label, h: nat): Option<Track> {
    if l in t.dead || (l in t.at && t.at[l] != h) then None else Some(t.(at := t.at[l := h]))
  }

  function Then(t: Option<Track>, height: Option<nat>): Option<Track> {
    match t case None => None case Some(u) => Some(u.(height := height))
  }

  /** Operands taken and left by an instruction that goes on to the next; None if it does
      not name a function of the pool. */
  function Moves(fns: seq<Context>, i: Asm): Option<(nat, nat)> {
    match i
    case Call(f) =>
      (match FindFn(fns, f)
       case None => None
       case Some(k) => if k < |fns| then Some((Arity(fns[k]), 1)) else None)
    case NewFx(f) => if FindFn(fns, f).Some? && FindFn(fns, f).value < |fns| then Some((0, 1)) else None
    case Capture => Some((2, 1))
    case Invoke(n) => Some((n + 1, 1))
    case Yield => Some((1, 0))
    case CoDump => Some((0, 0))
    case Scrap => Some((1, 0))
    case Duplicate => Some((1, 2))
    case Swap => Some((2, 2))
    case Unpack(n) => Some((1, n))
    case LoadX(_) => Some((0, 1))
    case StoreX(_) => Some((1, 0))
    case LoadK(_) => Some((0, 1))
    case StoreK(_) => Some((1, 0))
    case GlobalRead(_) => Some((0, 1))
    case GlobalWrite(_) => Some((1, 0))
    case Prim(p) => Some((Pops(p), if Pushes(p) then 1 else 0))
    case _ => None
  }

  predicate Ends(i: Asm) { i.Return? || i.ReturnNull? || i.Throw? || i.CoReturn? || i.Exit? }

  /** One instruction; None if its height is not met. */
  function Pass(fns: seq<Context>, i: Asm, t: Track): Option<Track> {
    match t.height
    case None =>
      if i.Mark? then
        if i.l in t.at then Some(t.(height := Some(t.at[i.l]))) else Some(t.(dead := t.dead + {i.l}))
      else Some(t)
    case Some(h) =>
      if i.Mark? then Meet(t, i.l, h)
      else if i.Goto? then Then(Meet(t, i.l, h), None)
      else if i.IfElse? then if h == 0 then None else Then(Meet(t, i.l, h - 1), Some(h - 1))
      else if i.ForNext? then if h == 0 then None else Then(Meet(t, i.l, h + 1), Some(h + 1))
      else if i.Try? then Meet(t, i.l, 0)
      else if Ends(i) then if h == 0 && !i.ReturnNull? then None else Some(t.(height := None))
      else match Moves(fns, i)
        case None => None
        case Some((taken, left)) => if h < taken then None else Some(t.(height := Some(h - taken + left)))
  }

  function Infer(fns: seq<Context>, code: seq<Asm>, t: Track): Option<Track>
    decreases |code|
  {
    if code == [] then Some(t)
    else match Pass(fns, code[0], t)
      case None => None
      case Some(u) => Infer(fns, code[1..], u)
  }

  lemma {:induction false} InferConcat(fns: seq<Context>, a: seq<Asm>, b: seq<Asm>, t: Track)
    ensures Infer(fns, a + b, t) == match Infer(fns, a, t) case None => None case Some(u) => Infer(fns, b, u)
    decreases |a|
  {
    hide Pass;
    if a == [] {
      assert a + b == b;
    } else {
      assert (a + b)[1..] == a[1..] + b && (a + b)[0] == a[0];
      match Pass(fns, a[0], t)
      case None =>
      case Some(u) => InferConcat(fns, a[1..], b, u);
    }
  }

  predicate Def(code: seq<Asm>, l: Label) { Tally(Defined, code, l) > 0 }

  /** Labels of the code are new where the pass comes from. */
  ghost predicate Fresh(code: seq<Asm>, t: Track) {
    forall l :: Def(code, l) ==> l !in t.at && l !in t.dead
  }

  /** Control comes in at height h. Outer labels that the code may jump to have been met
      at their heights so far. */
  ghost predicate Enters(code: seq<Asm>, t: Track, h: nat, outer: map<Label, nat>) {
    && t.height == Some(h) && Fresh(code, t)
    && (forall l :: l in outer ==> l !in t.dead && (l in t.at ==> t.at[l] == outer[l]))
  }

  ghost predicate Leaves(code: seq<Asm>, t: Track, r: Option<Track>, g: nat, outer: map<Label, nat>) {
    && r.Some? && (r.value.height == None || r.value.height == Some(g))
    && (forall l :: l in t.at ==> l in r.value.at && r.value.at[l] == t.at[l])
    && (forall l :: l in r.value.at ==> l in t.at || Def(code, l) || (l in outer && r.value.at[l] == outer[l]))
    && (forall l :: l in r.value.dead ==> l in t.dead || Def(code, l))
  }

  ghost predicate Once(code: seq<Asm>) {
    forall l :: Tally(Defined, code, l) <= 1
  }

  ghost predicate Outside(code: seq<Asm>, outer: map<Label, nat>) {
    forall l :: l in outer ==> !Def(code, l)
  }

  /** The code takes height h to height g, if each label in it is defined once. */
  ghost predicate Types(fns: seq<Context>, code: seq<Asm>, h: nat, g: nat, outer: map<Label, nat>) {
    Once(code) && Outside(code, outer) ==>
      forall t :: Enters(code, t, h, outer) ==> Leaves(code, t, Infer(fns, code, t), g, outer)
  }

  lemma OnceParts(a: seq<Asm>, b: seq<Asm>)
    requires Once(a + b)
    ensures Once(a) && Once(b) && forall l :: Def(a, l) ==> !Def(b, l)
  {
    forall l
      ensures Tally(Defined, a, l) <= 1 && Tally(Defined, b, l) <= 1 && (Def(a, l) ==> !Def(b, l))
    {
      TallyConcat(Defined, a, b, l);
      TallyAtLeast(a, l);
      TallyAtLeast(b, l);
      assert Tally(Defined, a + b, l) <= 1;
    }
  }

  lemma {:induction false} TallyAtLeast(code: seq<Asm>, l: Label)
    ensures Tally(Defined, code, l) >= 0
    decreases |code|
  {
    if code != [] { TallyAtLeast(code[1..], l); }
  }

  lemma DefParts(a: seq<Asm>, b: seq<Asm>)
    ensures forall l :: Def(a + b, l) <==> Def(a, l) || Def(b, l)
  {
    forall l ensures Def(a + b, l) <==> Def(a, l) || Def(b, l) {
      TallyConcat(Defined, a, b, l);
      TallyAtLeast(a, l);
      TallyAtLeast(b, l);
    }
  }

  lemma DefFirst(code: seq<Asm>, l: Label)
    requires code != []
    ensures Def(code, l) <==> code[0] == Mark(l) || Def(code[1..], l)
  {
    TallyAtLeast(code[1..], l);
  }

  /** Where control cannot come by falling through and no label is known, it does not come. */
  lemma {:induction false} NoneStays(fns: seq<Context>, code: seq<Asm>, t: Track)
    requires t.height == None && Fresh(code, t) && Once(code)
    ensures var r := Infer(fns, code, t);
      && r.Some? && r.value.height == None && r.value.at == t.at
      && forall l :: l in r.value.dead <==> l in t.dead || Def(code, l)
    decreases |code|
  {
    hide Def;
    if code == [] {
      assert forall l :: !Def(code, l) by { NothingDefined(); }
    } else {
      forall l ensures Def(code, l) <==> code[0] == Mark(l) || Def(code[1..], l) { DefFirst(code, l); }
      assert [code[0]] + code[1..] == code;
      OnceParts([code[0]], code[1..]);
      DefSingle(code[0]);
      NoneStays(fns, code[1..], Pass(fns, code[0], t).value);
    }
  }

  lemma NothingDefined()
    ensures forall l :: !Def([], l)
  {
  }

  lemma DefSingle(i: Asm)
    ensures forall l :: Def([i], l) <==> i == Mark(l)
  {
    forall l ensures Def([i], l) <==> i == Mark(l) {
      NothingDefined();
      DefFirst([i], l);
      assert [i][1..] == [];
    }
  }

  lemma TypesThen(fns: seq<Context>, a: seq<Asm>, b: seq<Asm>, h: nat, g: nat, k: nat, outer: map<Label, nat>)
    requires Types(fns, a, h, g, outer) && Types(fns, b, g, k, outer)
    ensures Types(fns, a + b, h, k, outer)
  {
    hide Infer, Def;
    if Once(a + b) && Outside(a + b, outer) {
      OnceParts(a, b);
      DefParts(a, b);
      forall t | Enters(a + b, t, h, outer) ensures Leaves(a + b, t, Infer(fns, a + b, t), k, outer) {
        InferConcat(fns, a, b, t);
        assert Enters(a, t, h, outer);
        var u := Infer(fns, a, t);
        assert Leaves(a, t, u, g, outer);
        if u.value.height == None {
          NoneStays(fns, b, u.value);
        } else {
          assert Enters(b, u.value, g, outer);
        }
      }
    }
  }

  /** Code may stand where there are more outer labels. */
  lemma TypesWiden(fns: seq<Context>, code: seq<Asm>, h: nat, g: nat, few: map<Label, nat>, outer: map<Label, nat>)
    requires Types(fns, code, h, g, few) && forall l :: l in few ==> l in outer && outer[l] == few[l]
    ensures Types(fns, code, h, g, outer)
  {
    hide Infer, Def;
    if Once(code) && Outside(code, outer) {
      forall t | Enters(code, t, h, outer) ensures Leaves(code, t, Infer(fns, code, t), g, outer) {
        assert Enters(code, t, h, few);
      }
    }
  }

  /** A label behind the code that jumps to it. */
  lemma CloseForward(
    fns: seq<Context>, a: seq<Asm>, l: Label, b: seq<Asm>, h: nat, k: nat, g: nat, outer: map<Label, nat>)
    requires l !in outer ==> Types(fns, a, h, k, outer[l := k])
    requires Types(fns, b, k, g, outer)
    ensures Types(fns, a + [Mark(l)] + b, h, g, outer)
  {
    hide Infer, Def;
    var code := a + [Mark(l)] + b;
    if Once(code) && Outside(code, outer) {
      OnceParts(a + [Mark(l)], b);
      OnceParts(a, [Mark(l)]);
      DefParts(a + [Mark(l)], b);
      DefParts(a, [Mark(l)]);
      DefSingle(Mark(l));
      assert l !in outer;
      forall t | Enters(code, t, h, outer) ensures Leaves(code, t, Infer(fns, code, t), g, outer) {
        InferConcat(fns, a + [Mark(l)], b, t);
        InferConcat(fns, a, [Mark(l)], t);
        assert Enters(a, t, h, outer[l := k]);
        var u := Infer(fns, a, t);
        assert Leaves(a, t, u, k, outer[l := k]);
        InferSingle(fns, Mark(l), u.value);
        var v := Pass(fns, Mark(l), u.value);
        assert v.Some?;
        if v.value.height == None {
          NoneStays(fns, b, v.value);
        } else {
          assert Enters(b, v.value, k, outer);
        }
      }
    }
  }

  lemma InferSingle(fns: seq<Context>, i: Asm, t: Track)
    ensures Infer(fns, [i], t) == Pass(fns, i, t)
  {
    assert [i][1..] == [];
  }

  /** A label in front of the code that jumps to it. */
  lemma CloseBackward(fns: seq<Context>, l: Label, b: seq<Asm>, h: nat, g: nat, outer: map<Label, nat>)
    requires l !in outer ==> Types(fns, b, h, g, outer[l := h])
    ensures Types(fns, [Mark(l)] + b, h, g, outer)
  {
    hide Infer, Def;
    var code := [Mark(l)] + b;
    if Once(code) && Outside(code, outer) {
      OnceParts([Mark(l)], b);
      DefParts([Mark(l)], b);
      DefSingle(Mark(l));
      assert l !in outer;
      forall t | Enters(code, t, h, outer) ensures Leaves(code, t, Infer(fns, code, t), g, outer) {
        InferConcat(fns, [Mark(l)], b, t);
        InferSingle(fns, Mark(l), t);
        var v := Pass(fns, Mark(l), t);
        assert v.Some? && Enters(b, v.value, h, outer[l := h]);
      }
    }
  }

  lemma NoCode(fns: seq<Context>, h: nat, outer: map<Label, nat>)
    ensures Types(fns, [], h, h, outer)
  {
  }

  /** An instruction that only moves operands. */
  lemma StepTypes(fns: seq<Context>, i: Asm, h: nat, outer: map<Label, nat>)
    requires Moves(fns, i).Some? && h >= Moves(fns, i).value.0
    ensures Types(fns, [i], h, h - Moves(fns, i).value.0 + Moves(fns, i).value.1, outer)
  {
    var g := h - Moves(fns, i).value.0 + Moves(fns, i).value.1;
    forall t | Enters([i], t, h, outer) ensures Leaves([i], t, Infer(fns, [i], t), g, outer) {
      assert [i][1..] == [];
      assert Infer(fns, [i], t) == Pass(fns, i, t);
    }
  }

  lemma DuplicateTypes(fns: seq<Context>, h: nat, outer: map<Label, nat>)
    requires h > 0
    ensures Types(fns, [Duplicate], h, h + 1, outer)
  {
    hide Types;
    StepTypes(fns, Duplicate, h, outer);
  }

  lemma SwapTypes(fns: seq<Context>, h: nat, outer: map<Label, nat>)
    requires h > 1
    ensures Types(fns, [Swap], h, h, outer)
  {
    hide Types;
    StepTypes(fns, Swap, h, outer);
  }

  lemma InvokeStepTypes(fns: seq<Context>, n: nat, h: nat, outer: map<Label, nat>)
    requires h >= n + 1
    ensures Types(fns, [Invoke(n)], h, h - n, outer)
  {
    hide Types;
    StepTypes(fns, Invoke(n), h, outer);
  }

  lemma PrimTypes(fns: seq<Context>, p: PrimOp, h: nat, outer: map<Label, nat>)
    requires h >= Pops(p)
    ensures Types(fns, [Prim(p)], h, h - Pops(p) + if Pushes(p) then 1 else 0, outer)
  {
    hide Types, Pops;
    StepTypes(fns, Prim(p), h, outer);
  }

  /** An instruction that goes nowhere from here. */
  lemma EndTypes(fns: seq<Context>, i: Asm, h: nat, g: nat, outer: map<Label, nat>)
    requires Ends(i) && h > 0
    ensures Types(fns, [i], h, g, outer)
  {
    forall t | Enters([i], t, h, outer) ensures Leaves([i], t, Infer(fns, [i], t), g, outer) {
      assert [i][1..] == [];
      assert Infer(fns, [i], t) == Pass(fns, i, t);
    }
  }

  /** A jump to an outer label. */
  lemma LeaveTypes(fns: seq<Context>, l: Label, h: nat, g: nat, outer: map<Label, nat>)
    requires l in outer && outer[l] == h
    ensures Types(fns, [Goto(l)], h, g, outer)
  {
    var i: Asm := Goto(l);
    forall t | Enters([i], t, h, outer) ensures Leaves([i], t, Infer(fns, [i], t), g, outer) {
      assert [i][1..] == [];
      assert Infer(fns, [i], t) == Pass(fns, i, t);
    }
  }

  lemma BranchTypes(fns: seq<Context>, l: Label, h: nat, outer: map<Label, nat>)
    requires h > 0 && l in outer && outer[l] == h - 1
    ensures Types(fns, [IfElse(l)], h, h - 1, outer)
  {
    var i: Asm := IfElse(l);
    forall t | Enters([i], t, h, outer) ensures Leaves([i], t, Infer(fns, [i], t), h - 1, outer) {
      InferSingle(fns, i, t);
    }
  }

  lemma NextTypes(fns: seq<Context>, l: Label, h: nat, outer: map<Label, nat>)
    requires h > 0 && l in outer && outer[l] == h + 1
    ensures Types(fns, [ForNext(l)], h, h + 1, outer)
  {
    var i: Asm := ForNext(l);
    forall t | Enters([i], t, h, outer) ensures Leaves([i], t, Infer(fns, [i], t), h + 1, outer) {
      InferSingle(fns, i, t);
    }
  }

  lemma ElseTypes(
    fns: seq<Context>, kind: string, id: nat, c: seq<Asm>, x: seq<Asm>, y: seq<Asm>, h: nat, g: nat,
    outer: map<Label, nat>)
    requires Types(fns, c, h, h + 1, map[]) && Types(fns, x, h, g, outer) && Types(fns, y, h, g, outer)
    ensures Types(fns, ElseCode(kind, id, c, x, y), h, g, outer)
  {
    hide Types;
    var els, end := Jmp(kind, id, Else), Jmp(kind, id, End);
    var a := c + [IfElse(els)] + x + [Goto(end)];
    if end !in outer {
      var inEnd := outer[end := g];
      if els !in outer {
        var inBoth := inEnd[els := h];
        TypesWiden(fns, c, h, h + 1, map[], inBoth);
        BranchTypes(fns, els, h + 1, inBoth);
        TypesThen(fns, c, [IfElse(els)], h, h + 1, h, inBoth);
        TypesWiden(fns, x, h, g, outer, inBoth);
        TypesThen(fns, c + [IfElse(els)], x, h, h, g, inBoth);
        LeaveTypes(fns, end, g, h, inBoth);
        TypesThen(fns, c + [IfElse(els)] + x, [Goto(end)], h, g, h, inBoth);
      }
      TypesWiden(fns, y, h, g, outer, inEnd);
      CloseForward(fns, a, els, y, h, h, g, inEnd);
    }
    NoCode(fns, g, outer);
    CloseForward(fns, a + [Mark(els)] + y, end, [], h, g, g, outer);
    assert ElseCode(kind, id, c, x, y) == a + [Mark(els)] + y + [Mark(end)] + [];
  }

  lemma ThenTypes(fns: seq<Context>, kind: string, id: nat, c: seq<Asm>, x: seq<Asm>, h: nat, outer: map<Label, nat>)
    requires Types(fns, c, h, h + 1, map[]) && Types(fns, x, h, h, outer)
    ensures Types(fns, ThenCode(kind, id, c, x), h, h, outer)
  {
    hide Types;
    var els := Jmp(kind, id, Else);
    var a := c + [IfElse(els)] + x;
    if els !in outer {
      var inEls := outer[els := h];
      TypesWiden(fns, c, h, h + 1, map[], inEls);
      BranchTypes(fns, els, h + 1, inEls);
      TypesThen(fns, c, [IfElse(els)], h, h + 1, h, inEls);
      TypesWiden(fns, x, h, h, outer, inEls);
      TypesThen(fns, c + [IfElse(els)], x, h, h, h, inEls);
    }
    NoCode(fns, h, outer);
    CloseForward(fns, a, els, [], h, h, h, outer);
    assert ThenCode(kind, id, c, x) == a + [Mark(els)] + [];
  }

  lemma LoopTypes(fns: seq<Context>, id: nat, c: seq<Asm>, x: seq<Asm>, h: nat, outer: map<Label, nat>)
    requires Types(fns, c, h, h + 1, map[]) && Types(fns, x, h, h, outer)
    ensures Types(fns, LoopCode(id, c, x), h, h, outer)
  {
    hide Types;
    var begin, end := Jmp("WHILE", id, Begin), Jmp("WHILE", id, End);
    var a := c + [IfElse(end)] + x + [Goto(begin)];
    if begin !in outer {
      var inBegin := outer[begin := h];
      if end !in outer {
        var inBoth := inBegin[end := h];
        TypesWiden(fns, c, h, h + 1, map[], inBoth);
        BranchTypes(fns, end, h + 1, inBoth);
        TypesThen(fns, c, [IfElse(end)], h, h + 1, h, inBoth);
        TypesWiden(fns, x, h, h, outer, inBoth);
        TypesThen(fns, c + [IfElse(end)], x, h, h, h, inBoth);
        LeaveTypes(fns, begin, h, h, inBoth);
        TypesThen(fns, c + [IfElse(end)] + x, [Goto(begin)], h, h, h, inBoth);
      }
      NoCode(fns, h, inBegin);
      CloseForward(fns, a, end, [], h, h, h, inBegin);
    }
    CloseBackward(fns, begin, a + [Mark(end)] + [], h, h, outer);
    assert LoopCode(id, c, x) == [Mark(begin)] + (a + [Mark(end)] + []);
  }

  lemma ForEachShape(id: nat, e: seq<Asm>, bind: seq<Asm>, x: seq<Asm>)
    ensures var end, top := Jmp("FOREACH_END", id, Whole), Jmp("FOREACH_BODY", id + 1, Whole);
      ForEachCode(id, e, bind, x) == e + [Simply(Iter)]
        + ([Mark(top)] + ([ForNext(end)] + bind + x + [Goto(top)] + [Mark(end)] + ([Scrap] + [Scrap])))
  {
  }

  lemma ForEachTypes(
    fns: seq<Context>, id: nat, e: seq<Asm>, bind: seq<Asm>, x: seq<Asm>, h: nat, outer: map<Label, nat>)
    requires Types(fns, e, h, h + 1, map[]) && Types(fns, bind, h + 2, h + 1, map[])
        && Types(fns, x, h + 1, h + 1, map[])
    ensures Types(fns, ForEachCode(id, e, bind, x), h, h, outer)
  {
    hide Types;
    var end, top := Jmp("FOREACH_END", id, Whole), Jmp("FOREACH_BODY", id + 1, Whole);
    var a := [ForNext(end)] + bind + x + [Goto(top)];
    if top !in outer {
      var inTop := outer[top := h + 1];
      if end !in outer {
        var inBoth := inTop[end := h + 2];
        NextTypes(fns, end, h + 1, inBoth);
        TypesWiden(fns, bind, h + 2, h + 1, map[], inBoth);
        TypesThen(fns, [ForNext(end)], bind, h + 1, h + 2, h + 1, inBoth);
        TypesWiden(fns, x, h + 1, h + 1, map[], inBoth);
        TypesThen(fns, [ForNext(end)] + bind, x, h + 1, h + 1, h + 1, inBoth);
        LeaveTypes(fns, top, h + 1, h + 2, inBoth);
        TypesThen(fns, [ForNext(end)] + bind + x, [Goto(top)], h + 1, h + 1, h + 2, inBoth);
      }
      StepTypes(fns, Scrap, h + 2, inTop);
      StepTypes(fns, Scrap, h + 1, inTop);
      TypesThen(fns, [Scrap], [Scrap], h + 2, h + 1, h, inTop);
      CloseForward(fns, a, end, [Scrap] + [Scrap], h + 1, h + 2, h, inTop);
    }
    var loop := a + [Mark(end)] + ([Scrap] + [Scrap]);
    CloseBackward(fns, top, loop, h + 1, h, outer);
    TypesWiden(fns, e, h, h + 1, map[], outer);
    StepTypes(fns, Simply(Iter), h + 1, outer);
    TypesThen(fns, e, [Simply(Iter)], h, h + 1, h + 1, outer);
    TypesThen(fns, e + [Simply(Iter)], [Mark(top)] + loop, h, h + 1, h, outer);
    ForEachShape(id, e, bind, x);
  }

  lemma InfiniteTypes(fns: seq<Context>, id: nat, x: seq<Asm>, h: nat, outer: map<Label, nat>)
    requires Types(fns, x, h, h, outer)
    ensures var top := Jmp("INFINETE_LOOP", id, Whole);
      Types(fns, [Mark(top)] + (x + [Goto(top)]), h, h, outer)
  {
    hide Types;
    var top := Jmp("INFINETE_LOOP", id, Whole);
    if top !in outer {
      var inTop := outer[top := h];
      TypesWiden(fns, x, h, h, outer, inTop);
      LeaveTypes(fns, top, h, h, inTop);
      TypesThen(fns, x, [Goto(top)], h, h, h, inTop);
    }
    CloseBackward(fns, top, x + [Goto(top)], h, h, outer);
  }

  /** An immediately invoked block: its returns bring one operand to its end. */
  lemma IifeTypes(fns: seq<Context>, end: Label, x: seq<Asm>, h: nat)
    requires Types(fns, x, h, h, map[end := h + 1])
    ensures Types(fns, x + [Simply(Nvll), Mark(end)], h, h + 1, map[])
  {
    hide Types;
    StepTypes(fns, Simply(Nvll), h, map[end := h + 1]);
    TypesThen(fns, x, [Simply(Nvll)], h, h, h + 1, map[end := h + 1]);
    NoCode(fns, h + 1, map[]);
    assert map[][end := h + 1] == map[end := h + 1];
    CloseForward(fns, x + [Simply(Nvll)], end, [], h, h + 1, h + 1, map[]);
    assert x + [Simply(Nvll), Mark(end)] == x + [Simply(Nvll)] + [Mark(end)] + [];
  }

  /** From the left operand of a short-circuit operator to its end. */
  lemma LogicTypes(fns: seq<Context>, op: LogicOp, id: nat, x: seq<Asm>, y: seq<Asm>, h: nat)
    requires Types(fns, x, h, h + 1, map[]) && Types(fns, y, h, h + 1, map[])
    ensures Types(fns, x + (LogicTest(op, id) + (y + LogicTail(op, id))), h, h + 1, map[])
  {
    hide Types;
    match op
    case And => EagerTypes(fns, op, id, x, y, h);
    case Or => EagerTypes(fns, op, id, x, y, h);
    case Elvis => KeepTypes(fns, op, id, x, y, h);
    case NullCo => KeepTypes(fns, op, id, x, y, h);
  }

  /** Between the operands of an eager test, and up to its jump to the end. */
  function EagerCode(op: LogicOp, id: nat, x: seq<Asm>, y: seq<Asm>): seq<Asm>
    requires op == And || op == Or
  {
    var pre: seq<Asm> := if op == And then [] else [Simply(Not)];
    x + pre + [IfElse(Jmp(LogicName(op), id, if op == And then False_ else True_))]
      + y + [Simply(CastBool)] + [Goto(Jmp(LogicName(op), id, End))]
  }

  lemma EagerShape(op: LogicOp, id: nat, x: seq<Asm>, y: seq<Asm>)
    requires op == And || op == Or
    ensures x + (LogicTest(op, id) + (y + LogicTail(op, id))) ==
      EagerCode(op, id, x, y) + [Mark(Jmp(LogicName(op), id, if op == And then False_ else True_))]
        + [Simply(if op == And then False else True)] + [Mark(Jmp(LogicName(op), id, End))] + []
  {
  }

  lemma EagerTypes(fns: seq<Context>, op: LogicOp, id: nat, x: seq<Asm>, y: seq<Asm>, h: nat)
    requires op == And || op == Or
    requires Types(fns, x, h, h + 1, map[]) && Types(fns, y, h, h + 1, map[])
    ensures Types(fns, x + (LogicTest(op, id) + (y + LogicTail(op, id))), h, h + 1, map[])
  {
    hide Types, EagerCode;
    var end := Jmp(LogicName(op), id, End);
    var other := Jmp(LogicName(op), id, if op == And then False_ else True_);
    var value := Simply(if op == And then False else True);
    var inEnd: map<Label, nat> := map[end := h + 1];
    EagerFront(fns, op, id, x, y, h, inEnd[other := h]);
    StepTypes(fns, value, h, inEnd);
    CloseForward(fns, EagerCode(op, id, x, y), other, [value], h, h, h + 1, inEnd);
    NoCode(fns, h + 1, map[]);
    assert map[][end := h + 1] == inEnd;
    CloseForward(fns, EagerCode(op, id, x, y) + [Mark(other)] + [value], end, [], h, h + 1, h + 1, map[]);
    EagerShape(op, id, x, y);
  }

  lemma EagerFront(fns: seq<Context>, op: LogicOp, id: nat, x: seq<Asm>, y: seq<Asm>, h: nat, outer: map<Label, nat>)
    requires (op == And || op == Or) && Types(fns, x, h, h + 1, map[]) && Types(fns, y, h, h + 1, map[])
    requires var end, other := Jmp(LogicName(op), id, End), Jmp(LogicName(op), id, if op == And then False_ else True_);
      end in outer && outer[end] == h + 1 && other in outer && outer[other] == h
    ensures Types(fns, EagerCode(op, id, x, y), h, h, outer)
  {
    hide Types;
    var end, other := Jmp(LogicName(op), id, End), Jmp(LogicName(op), id, if op == And then False_ else True_);
    var pre: seq<Asm> := if op == And then [] else [Simply(Not)];
    TypesWiden(fns, x, h, h + 1, map[], outer);
    if op == And { NoCode(fns, h + 1, outer); } else { StepTypes(fns, Simply(Not), h + 1, outer); }
    TypesThen(fns, x, pre, h, h + 1, h + 1, outer);
    BranchTypes(fns, other, h + 1, outer);
    TypesThen(fns, x + pre, [IfElse(other)], h, h + 1, h, outer);
    TypesWiden(fns, y, h, h + 1, map[], outer);
    TypesThen(fns, x + pre + [IfElse(other)], y, h, h, h + 1, outer);
    StepTypes(fns, Simply(CastBool), h + 1, outer);
    TypesThen(fns, x + pre + [IfElse(other)] + y, [Simply(CastBool)], h, h + 1, h + 1, outer);
    LeaveTypes(fns, end, h + 1, h, outer);
    TypesThen(fns, x + pre + [IfElse(other)] + y + [Simply(CastBool)], [Goto(end)], h, h + 1, h, outer);
  }

  function KeepCode(op: LogicOp, id: nat, x: seq<Asm>): seq<Asm>
    requires op == Elvis || op == NullCo
  {
    var test: seq<Asm> := if op == Elvis then [] else [Simply(Nvll)] + [Simply(Ueql)];
    x + [Duplicate] + test + [IfElse(Jmp(LogicName(op), id, Else))] + [Goto(Jmp(LogicName(op), id, End))]
  }

  lemma KeepShape(op: LogicOp, id: nat, x: seq<Asm>, y: seq<Asm>)
    requires op == Elvis || op == NullCo
    ensures x + (LogicTest(op, id) + (y + LogicTail(op, id))) ==
      KeepCode(op, id, x) + [Mark(Jmp(LogicName(op), id, Else))] + ([Scrap] + y) + [Mark(Jmp(LogicName(op), id, End))]
          + []
  {
  }

  lemma KeepTypes(fns: seq<Context>, op: LogicOp, id: nat, x: seq<Asm>, y: seq<Asm>, h: nat)
    requires op == Elvis || op == NullCo
    requires Types(fns, x, h, h + 1, map[]) && Types(fns, y, h, h + 1, map[])
    ensures Types(fns, x + (LogicTest(op, id) + (y + LogicTail(op, id))), h, h + 1, map[])
  {
    hide Types, KeepCode;
    var end, other := Jmp(LogicName(op), id, End), Jmp(LogicName(op), id, Else);
    var inEnd: map<Label, nat> := map[end := h + 1];
    KeepFront(fns, op, id, x, h, inEnd[other := h + 1]);
    StepTypes(fns, Scrap, h + 1, inEnd);
    TypesWiden(fns, y, h, h + 1, map[], inEnd);
    TypesThen(fns, [Scrap], y, h + 1, h, h + 1, inEnd);
    CloseForward(fns, KeepCode(op, id, x), other, [Scrap] + y, h, h + 1, h + 1, inEnd);
    NoCode(fns, h + 1, map[]);
    assert map[][end := h + 1] == inEnd;
    CloseForward(fns, KeepCode(op, id, x) + [Mark(other)] + ([Scrap] + y), end, [], h, h + 1, h + 1, map[]);
    KeepShape(op, id, x, y);
  }

  lemma KeepFront(fns: seq<Context>, op: LogicOp, id: nat, x: seq<Asm>, h: nat, outer: map<Label, nat>)
    requires (op == Elvis || op == NullCo) && Types(fns, x, h, h + 1, map[])
    requires var end, other := Jmp(LogicName(op), id, End), Jmp(LogicName(op), id, Else);
      end in outer && outer[end] == h + 1 && other in outer && outer[other] == h + 1
    ensures Types(fns, KeepCode(op, id, x), h, h + 1, outer)
  {
    hide Types;
    var end, other := Jmp(LogicName(op), id, End), Jmp(LogicName(op), id, Else);
    var test: seq<Asm> := if op == Elvis then [] else [Simply(Nvll)] + [Simply(Ueql)];
    TypesWiden(fns, x, h, h + 1, map[], outer);
    StepTypes(fns, Duplicate, h + 1, outer);
    TypesThen(fns, x, [Duplicate], h, h + 1, h + 2, outer);
    if op == Elvis {
      NoCode(fns, h + 2, outer);
    } else {
      StepTypes(fns, Simply(Nvll), h + 2, outer);
      StepTypes(fns, Simply(Ueql), h + 3, outer);
      TypesThen(fns, [Simply(Nvll)], [Simply(Ueql)], h + 2, h + 3, h + 2, outer);
    }
    TypesThen(fns, x + [Duplicate], test, h, h + 2, h + 2, outer);
    BranchTypes(fns, other, h + 2, outer);
    TypesThen(fns, x + [Duplicate] + test, [IfElse(other)], h, h + 2, h + 1, outer);
    LeaveTypes(fns, end, h + 1, h + 1, outer);
    TypesThen(fns, x + [Duplicate] + test + [IfElse(other)], [Goto(end)], h, h + 1, h + 1, outer);
  }
}
