/** The linker and the assembler as they run: tables built in loops over the code. */
module Linker {
  import opened Binary
  import opened Values
  import opened Instructions
  import opened BigStep
  import opened Labelled
  import opened Labels
  import opened Bytecode
  import opened Linking

  predicate AllWellNamed(code: seq<Asm>) {
    forall i :: 0 <= i < |code| && code[i].Mark? ==> WellNamed(code[i].l)
  }

  /** The table so far has the labels of the code so far, each with its offset. */
  ghost predicate Tabulates(table: map<string, nat>, code: seq<Asm>, n: nat)
    requires n <= |code|
  {
    && (forall i :: 0 <= i < n && code[i].Mark? ==>
          Render(code[i].l) in table && table[Render(code[i].l)] == Offset(code, i))
    && (forall s :: s in table ==> exists i :: 0 <= i < n && code[i].Mark? && Render(code[i].l) == s)
  }

  lemma TabulateLabel(table: map<string, nat>, code: seq<Asm>, k: nat)
    requires k < |code| && Tabulates(table, code, k) && AllWellNamed(code) && code[k].Mark?
    ensures Render(code[k].l) in table ==> exists i :: 0 <= i < k && code[i] == code[k]
    ensures Render(code[k].l) !in table ==>
      Tabulates(table[Render(code[k].l) := Offset(code, k)], code, k + 1) && forall i :: 0 <= i < k ==>
          code[i] != code[k]
  {
    hide Render, Offset, WellNamed;
    var name := Render(code[k].l);
    if name in table {
      var i :| 0 <= i < k && code[i].Mark? && Render(code[i].l) == name;
      RenderInjective(code[i].l, code[k].l);
    } else {
      var more := table[name := Offset(code, k)];
      forall s | s in more ensures exists i :: 0 <= i < k + 1 && code[i].Mark? && Render(code[i].l) == s {
        if s == name { assert code[k].Mark?; }
      }
    }
  }

  lemma TabulateOther(table: map<string, nat>, code: seq<Asm>, k: nat)
    requires k < |code| && Tabulates(table, code, k) && !code[k].Mark?
    ensures Tabulates(table, code, k + 1)
  {
  }

  /** generate_jump_table: fails exactly when a label is defined twice. */
  method GenerateJumpTable(code: seq<Asm>) returns (r: Option<map<string, nat>>)
    requires AllWellNamed(code)
    ensures r.Some? <==> UniqueMarks(code)
    ensures r.Some? ==> Tabulates(r.value, code, |code|)
  {
    var position: nat, table: map<string, nat> := 0, map[];
    for k := 0 to |code|
      invariant position == Offset(code, k)
      invariant Tabulates(table, code, k)
      invariant forall i, j :: 0 <= i < j < k && code[i].Mark? ==> code[i] != code[j]
    {
      hide Render, Offset, WellNamed, Tabulates, AllWellNamed;
      OffsetStep(code, k);
      position := position + InstSize(code[k]);
      if code[k].Mark? {
        TabulateLabel(table, code, k);
        var name := Render(code[k].l);
        if name in table { return None; }
        table := table[name := position];
      } else {
        TabulateOther(table, code, k);
      }
    }
    r := Some(table);
  }

  /** Looking a label up gives the offset of its definition, wherever it is defined. */
  lemma TableFinds(table: map<string, nat>, code: seq<Asm>, l: Label)
    requires AllWellNamed(code) && WellNamed(l) && Tabulates(table, code, |code|)
    ensures Render(l) in table <==> Mark(l) in code
    ensures Render(l) in table ==> table[Render(l)] == Offset(code, Find(code, l))
  {
    hide Render, Offset, WellNamed;
    if Render(l) in table {
      var i :| 0 <= i < |code| && code[i].Mark? && Render(code[i].l) == Render(l);
      RenderInjective(code[i].l, l);
    }
    if Mark(l) in code {
      var j := Find(code, l);
      assert j < |code| && code[j] == Mark(l);
      assert code[j].Mark? && Render(code[j].l) == Render(l);
    }
  }

  /** generate_string_pool: every string constant once, in order of first use. */
  function StringsOf(code: seq<Asm>): seq<string> {
    if code == [] then []
    else
      var rest := StringsOf(code[..|code| - 1]);
      var i := code[|code| - 1];
      if i.Prim? && i.p.NewStr? && PoolIndex(rest, i.p.s).None? then rest + [i.p.s] else rest
  }

  method GenerateStringPool(code: seq<Asm>) returns (pool: seq<string>)
    ensures pool == StringsOf(code)
  {
    pool := [];
    for k := 0 to |code|
      invariant pool == StringsOf(code[..k])
    {
      assert code[..k + 1][..k] == code[..k];
      if code[k].Prim? && code[k].p.NewStr? {
        pool := Push(pool, code[k].p.s);
      }
    }
    assert code[..|code|] == code;
  }

  /** StringPool::push. */
  function Push(pool: seq<string>, s: string): (r: seq<string>)
    ensures pool <= r && s in r && |r| <= |pool| + 1
    ensures forall x :: x in r <==> x in pool || x == s
  {
    PoolIndexIs(pool, s);
    if PoolIndex(pool, s).None? then pool + [s] else pool
  }

  lemma {:induction false} StringsComplete(code: seq<Asm>)
    ensures forall s :: s in StringsOf(code) <==> Prim(NewStr(s)) in code
    ensures forall i, j :: 0 <= i < j < |StringsOf(code)| ==> StringsOf(code)[i] != StringsOf(code)[j]
    ensures |StringsOf(code)| <= |code|
    decreases |code|
  {
    if code != [] {
      var rest, i := StringsOf(code[..|code| - 1]), code[|code| - 1];
      StringsComplete(code[..|code| - 1]);
      assert code == code[..|code| - 1] + [i];
      if i.Prim? && i.p.NewStr? { PoolIndexIs(rest, i.p.s); }
    }
  }

  /** What assemble_args needs to find. */
  ghost predicate Resolvable(i: Asm, table: map<string, nat>, fns: seq<Context>, pool: seq<string>) {
    match i
    case Goto(l) => Render(l) in table
    case IfElse(l) => Render(l) in table
    case ForNext(l) => Render(l) in table
    case Try(l) => Render(l) in table
    case Call(f) => FindFn(fns, f).Some?
    case NewFx(f) => FindFn(fns, f).Some?
    case Prim(NewStr(s)) => PoolIndex(pool, s).Some?
    case _ => true
  }

  function Lookup(table: map<string, nat>, l: Label): Option<nat> {
    if Render(l) in table then Some(table[Render(l)]) else None
  }

  /** An instruction with its names looked up; None where the assembler throws. */
  function Resolve(i: Asm, table: map<string, nat>, fns: seq<Context>, pool: seq<string>): Option<Op> {
    match i
    case Mark(l) => Some(Mark(0))
    case Goto(l) => if Lookup(table, l).Some? then Some(Goto(Lookup(table, l).value)) else None
    case IfElse(l) => if Lookup(table, l).Some? then Some(IfElse(Lookup(table, l).value)) else None
    case ForNext(l) => if Lookup(table, l).Some? then Some(ForNext(Lookup(table, l).value)) else None
    case Try(l) => if Lookup(table, l).Some? then Some(Try(Lookup(table, l).value)) else None
    case Call(f) => if FindFn(fns, f).Some? then Some(Call(FindFn(fns, f).value)) else None
    case NewFx(f) => if FindFn(fns, f).Some? then Some(NewFx(FindFn(fns, f).value)) else None
    case Prim(NewStr(s)) => if PoolIndex(pool, s).Some? then Some(Prim(NewStr(s))) else None
    case _ => Some(MapInst(i, (l: Label) => 0, (f: Label) => 0))
  }

  lemma ResolveIsPlaced(code: seq<Asm>, table: map<string, nat>, fns: seq<Context>, pool: seq<string>, i: Asm)
    requires AllWellNamed(code) && Tabulates(table, code, |code|)
    requires forall l :: i == Goto(l) || i == IfElse(l) || i == ForNext(l) || i == Try(l) ==> WellNamed(l)
    ensures Resolve(i, table, fns, pool).Some? <==> Resolvable(i, table, fns, pool)
    ensures Resolve(i, table, fns, pool).Some? ==>
      Bytes(Resolve(i, table, fns, pool).value, pool) == Bytes(Placed(code, fns, i), pool)
  {
    hide Render, Offset, WellNamed, Tabulates, AllWellNamed, Find, FindFn, PoolIndex, Be, SimpleCode;
    match i
    case Goto(l) => TableFinds(table, code, l);
    case IfElse(l) => TableFinds(table, code, l);
    case ForNext(l) => TableFinds(table, code, l);
    case Try(l) => TableFinds(table, code, l);
    case _ =>
  }

  predicate TargetsWellNamed(code: seq<Asm>) {
    forall i :: 0 <= i < |code| ==>
      match code[i]
      case Goto(l) => WellNamed(l)
      case IfElse(l) => WellNamed(l)
      case ForNext(l) => WellNamed(l)
      case Try(l) => WellNamed(l)
      case _ => true
  }

  lemma BytesFromStep(code: seq<Asm>, fns: seq<Context>, pool: seq<string>, k: nat, b: seq<Byte>)
    requires k < |code|
    ensures b + BytesFrom(code, fns, pool, k)
        == (b + Bytes(Placed(code, fns, code[k]), pool)) + BytesFrom(code, fns, pool, k + 1)
  {
    hide Bytes, Placed;
    var x, y := Bytes(Placed(code, fns, code[k]), pool), BytesFrom(code, fns, pool, k + 1);
    assert b + (x + y) == (b + x) + y;
  }

  lemma BytesFromEnds(code: seq<Asm>, fns: seq<Context>, pool: seq<string>, b: seq<Byte>)
    ensures b + BytesFrom(code, fns, pool, |code|) == b
        && [] + BytesFrom(code, fns, pool, 0) == Assembled(code, fns, pool)
  {
    hide Bytes, Placed;
  }

  /** assemble, without the header: fails exactly when a name cannot be found. */
  method Assemble(
    code: seq<Asm>, table: map<string, nat>, fns: seq<Context>, pool: seq<string>) returns (r: Option<seq<Byte>>)
    requires AllWellNamed(code) && TargetsWellNamed(code) && Tabulates(table, code, |code|)
    ensures r.Some? <==> forall i :: 0 <= i < |code| ==> Resolvable(code[i], table, fns, pool)
    ensures r.Some? ==> r.value == Assembled(code, fns, pool)
  {
    hide WellNamed, Tabulates, AllWellNamed, Resolve, Resolvable, Bytes, Placed, BytesFrom, Assembled;
    var bytecode: seq<Byte> := [];
    BytesFromEnds(code, fns, pool, bytecode);
    for k := 0 to |code|
      invariant forall i :: 0 <= i < k ==> Resolvable(code[i], table, fns, pool)
      invariant bytecode + BytesFrom(code, fns, pool, k) == Assembled(code, fns, pool)
    {
      ResolveIsPlaced(code, table, fns, pool, code[k]);
      var op := Resolve(code[k], table, fns, pool);
      if op.None? { return None; }
      BytesFromStep(code, fns, pool, k, bytecode);
      bytecode := bytecode + Bytes(op.value, pool);
    }
    BytesFromEnds(code, fns, pool, bytecode);
    r := Some(bytecode);
  }
}
