/** Scopes: every new variable gets the next free slot of all scopes stacked below it, so
    no two variables that are alive together share one. */
module Scopes {
  import opened Values
  import opened Sst
  import opened Frames
  import opened Syntax

  class Scope {
    const parent: Scope?
    var vars: map<string, nat>
    ghost const depth: nat
    ghost const chain: set<Scope>

    constructor Major()
      ensures Valid() && Packed() && Size() == 0 && parent == null && fresh(this)
      ensures vars == map[] && Known() == {} && Stack() == [map[]]
    {
      parent, vars, depth, chain := null, map[], 0, {this};
    }

    constructor Minor(outer: Scope)
      requires outer.Valid() && outer.Packed()
      ensures Valid() && Packed() && Size() == outer.Size() && parent == outer && fresh(this)
      ensures vars == map[] && Known() == outer.Known() && Stack() == outer.Stack() + [map[]]
    {
      parent, vars, depth, chain := outer, map[], outer.depth + 1, {this} + outer.chain;
    }

    ghost predicate Valid()
      reads chain
      decreases depth
    {
      && this in chain
      && (parent == null ==> chain == {this})
      && (parent != null ==>
            && this !in parent.chain && chain == {this} + parent.chain
            && parent.depth < depth && parent.Valid())
    }

    /** The number of variables of this scope and all below it. */
    function Size(): nat
      requires Valid()
      reads chain
      decreases depth
    {
      |vars| + Base()
    }

    function Base(): nat
      requires Valid()
      reads chain
      decreases depth, 0
    {
      if parent == null then 0 else parent.Size()
    }

    /** The slot of the innermost variable of this name. */
    function Resolve(name: string): Option<nat>
      requires Valid()
      reads chain
      decreases depth
    {
      if name in vars then Some(vars[name]) else if parent == null then None else parent.Resolve(name)
    }

    /** The slots of the variables of this scope and of all below it, this one last. */
    ghost function Stack(): (r: seq<map<string, nat>>)
      requires Valid()
      reads chain
      decreases depth, 1
      ensures r != []
    {
      Beneath() + [vars]
    }

    ghost function Beneath(): seq<map<string, nat>>
      requires parent != null ==> parent.Valid()
      reads if parent == null then {} else parent.chain
      decreases if parent == null then 0 else parent.depth + 1, 0
    {
      if parent == null then [] else parent.Stack()
    }

    lemma StackIs()
      requires Valid()
      ensures parent != null ==> this !in parent.chain && parent.Valid()
      ensures Stack() == Beneath() + [vars]
      ensures parent != null ==> Stack() == parent.Stack() + [vars]
    {
    }

    /** Resolving a name goes through the stack from its end. */
    lemma {:induction false} ResolveIsLevel(name: string)
      requires Valid()
      ensures var k := Level(Stack(), name);
        Resolve(name) == if k >= 0 then Some(Stack()[k][name]) else None
      decreases depth
    {
      assert Last(Stack()) == vars && Front(Stack()) == Beneath();
      if parent != null { parent.ResolveIsLevel(name); }
    }

    /** The names that are found. */
    ghost function Known(): set<string>
      requires Valid()
      reads chain
      decreases depth
    {
      vars.Keys + if parent == null then {} else parent.Known()
    }

    lemma KnownIs()
      requires Valid() && parent != null
      ensures Known() == vars.Keys + parent.Known()
    {
    }

    lemma {:induction false} KnownResolves(name: string)
      requires Valid()
      ensures name in Known() <==> Resolve(name).Some?
      decreases depth
    {
      if parent != null { parent.KnownResolves(name); }
    }

    /** The slots of each scope are its own, above those of the scopes below. */
    ghost predicate Packed()
      requires Valid()
      reads chain
      decreases depth
    {
      && (forall x :: x in vars ==> Base() <= vars[x] < Size())
      && (forall x, y :: x in vars && y in vars && x != y ==> vars[x] != vars[y])
      && (parent != null ==> parent.Packed())
    }

    /** declare_variable: None if the scope itself has the name already. */
    method DeclareVariable(name: string) returns (r: Option<nat>)
      requires Valid() && Packed()
      modifies this
      ensures Valid() && Packed()
      ensures name in old(vars) ==> r == None && vars == old(vars)
      ensures name !in old(vars) ==> r == Some(old(Size())) && vars == old(vars)[name := old(Size())]
      ensures Size() == old(Size()) + if r.Some? then 1 else 0
      ensures Base() == old(Base())
    {
      if name in vars { return None; }
      r := Some(Size());
      vars := vars[name := Size()];
      assert parent != null ==> parent.Size() == old(parent.Size()) && parent.Packed();
      assert Base() == old(Base()) && |vars| == old(|vars|) + 1;
    }

    /** A variable that is found has a slot in use, and it is not one above. */
    lemma {:induction false} ResolveBelowSize(name: string)
      requires Valid() && Packed()
      ensures Resolve(name).Some? ==> Resolve(name).value < Size()
      decreases depth
    {
      if name !in vars && parent != null { parent.ResolveBelowSize(name); }
    }

    /** Slots of scopes below are below this one's own. */
    lemma {:induction false} BelowBase(s: Scope, x: string)
      requires Valid() && Packed() && s in chain && x in s.vars
      ensures s.vars[x] < Size() && (s != this ==> s.vars[x] < Base())
      decreases depth
    {
      if s != this { parent.BelowBase(s, x); }
    }

    /** Variables that are alive together have different slots. */
    lemma {:induction false} LiveVariablesDistinct(s: Scope, x: string, t: Scope, y: string)
      requires Valid() && Packed() && s in chain && t in chain && x in s.vars && y in t.vars
      requires s != t || x != y
      ensures s.vars[x] != t.vars[y]
      decreases depth
    {
      if s == this && t != this {
        BelowBase(t, y);
      } else if t == this && s != this {
        BelowBase(s, x);
      } else if s != this {
        parent.LiveVariablesDistinct(s, x, t, y);
      }
    }
  }

  /** Variables declared one after the other; false just when a name is there twice. */
  method DeclareAll(scope: Scope, names: seq<string>) returns (ok: bool)
    requires scope.Valid() && scope.Packed()
    modifies scope
    ensures scope.Valid() && scope.Packed()
    ensures ok <==> Declarable(names, old(scope.vars))
    ensures ok ==> Declared(old(scope.vars), scope.vars, names, old(scope.Size()))
    ensures ok ==> scope.Size() == old(scope.Size()) + |names|
  {
    ghost var n, vars := scope.Size(), scope.vars;
    NothingDeclared(vars, n);
    assert names[..0] == [];
    hide Declarable, Declared;
    for i := 0 to |names|
      invariant scope.Valid() && scope.Packed() && scope.Size() == n + i
      invariant Declarable(names[..i], vars) && Declared(vars, scope.vars, names[..i], n)
    {
      ghost var middle := scope.vars;
      OneMoreName(names, i, vars, middle, n);
      var slot := scope.DeclareVariable(names[i]);
      if slot == None { return false; }
    }
    assert names[..|names|] == names;
    ok := true;
  }

  lemma OneMoreName(names: seq<string>, i: nat, vars: map<string, nat>, b: map<string, nat>, n: nat)
    requires i < |names| && Declarable(names[..i], vars) && Declared(vars, b, names[..i], n)
    ensures names[i] !in b ==>
      Declarable(names[..i + 1], vars) && Declared(vars, b[names[i] := n + i], names[..i + 1], n)
    ensures names[i] in b ==> !Declarable(names, vars)
  {
    var next := names[..i + 1];
    assert next == names[..i] + [names[i]];
    OneDeclared(b, names[i], n + i);
    DeclarableOn(vars, b, names[..i], [names[i]], n);
    if names[i] !in b {
      DeclaredOn(vars, b, b[names[i] := n + i], names[..i], [names[i]], n);
    } else if Declarable(names, vars) {
      PrefixDeclarable(next, names, vars);
    }
  }

  function Append(bs: Bindings, b: Binding): Bindings {
    if bs.BNil? then BCons(b, BNil) else BCons(bs.head, Append(bs.tail, b))
  }

  lemma {:induction false} AppendFits(bs: Bindings, b: Binding, r: nat, n: nat, end: nat)
    requires FitsBinds(bs, r, n) && end == n + BindsAlloc(bs) && forall q: nat :: FitsBind(b, q, end)
    ensures FitsBinds(Append(bs, b), r, n) && BindsAlloc(Append(bs, b)) == BindsAlloc(bs) + BindAlloc(b)
    decreases bs
  {
    if bs.BCons? {
      var g := BindAlloc(bs.head);
      AppendFits(bs.tail, b, Seen(r, n, g), n + g, end);
    }
  }

  /** The binding with its variables in the slots from n on. */
  function Bound(ast: BindAst, n: nat): Binding {
    match ast case NewVarAst(_) => NewVar(n) case GroupAst(subs) => Group(AllBound(subs, n))
  }

  function AllBound(subs: seq<BindAst>, n: nat): Bindings {
    if subs == [] then BNil
    else Append(AllBound(Front(subs), n), Bound(subs[|subs| - 1], n + |AllNames(Front(subs))|))
  }

  /** The slots of a binding are the next free ones, as many as it counts for. */
  lemma {:induction false} BoundFits(ast: BindAst, r: nat, n: nat)
    ensures FitsBind(Bound(ast, n), r, n) && BindAlloc(Bound(ast, n)) == |Names(ast)|
    decreases ast
  {
    if ast.GroupAst? { AllBoundFit(ast.subs, r, n); }
  }

  lemma {:induction false} AllBoundFit(subs: seq<BindAst>, r: nat, n: nat)
    ensures FitsBinds(AllBound(subs, n), r, n) && BindsAlloc(AllBound(subs, n)) == |AllNames(subs)|
    decreases subs
  {
    if subs != [] {
      hide FitsBind, FitsBinds, Append, Bound, Names, BindAlloc, BindsAlloc;
      var k, last := n + |AllNames(Front(subs))|, subs[|subs| - 1];
      var b := Bound(last, k);
      AllBoundFit(Front(subs), r, n);
      BoundFits(last, r, k);
      forall q: nat ensures FitsBind(b, q, k) { BoundFits(last, q, k); }
      AppendFits(AllBound(Front(subs), n), b, r, n, k);
    }
  }

  /** Names that can be declared: none twice, none taken. */
  ghost predicate Declarable(names: seq<string>, vars: map<string, nat>) {
    && (forall i, j :: 0 <= i < j < |names| ==> names[i] != names[j])
    && (forall i :: 0 <= i < |names| ==> names[i] !in vars)
  }

  /** The same variables and the new ones, in the slots from n on. */
  ghost predicate Declared(before: map<string, nat>, after: map<string, nat>, names: seq<string>, n: nat) {
    && (forall x :: x in after <==> x in before || x in names)
    && (forall x :: x in before && x !in names ==> after[x] == before[x])
    && (forall i :: 0 <= i < |names| ==> names[i] in after && after[names[i]] == n + i)
  }

  lemma NothingDeclared(vars: map<string, nat>, n: nat)
    ensures Declarable([], vars) && Declared(vars, vars, [], n)
  {
  }

  lemma OneDeclared(vars: map<string, nat>, name: string, n: nat)
    ensures Declarable([name], vars) <==> name !in vars
    ensures Declared(vars, vars[name := n], [name], n)
  {
    if name !in vars { assert Declarable([name], vars); }
    if Declarable([name], vars) { assert [name][0] !in vars; }
  }

  lemma SlotsOf(before: map<string, nat>, after: map<string, nat>, names: seq<string>, n: nat)
    requires Declared(before, after, names, n)
    ensures forall i :: 0 <= i < |names| ==> names[i] in after && after[names[i]] == n + i
  {
  }

  /** Names are declared one after the other. */
  lemma DeclarableOn(a: map<string, nat>, b: map<string, nat>, xs: seq<string>, ys: seq<string>, n: nat)
    requires Declarable(xs, a) && Declared(a, b, xs, n)
    ensures Declarable(xs + ys, a) <==> Declarable(ys, b)
  {
    var zs := xs + ys;
    assert forall i :: 0 <= i < |xs| ==> zs[i] == xs[i];
    if Declarable(zs, a) {
      forall j | 0 <= j < |ys| ensures ys[j] !in b && forall i :: 0 <= i < j ==> ys[i] != ys[j] {
        assert zs[|xs| + j] == ys[j];
        forall i | 0 <= i < j ensures ys[i] != ys[j] { assert zs[|xs| + i] == ys[i]; }
      }
    }
    if Declarable(ys, b) {
      forall j | 0 <= j < |zs| ensures zs[j] !in a && forall i :: 0 <= i < j ==> zs[i] != zs[j] {
        if j >= |xs| {
          assert zs[j] == ys[j - |xs|] && zs[j] !in b;
          forall i | 0 <= i < j ensures zs[i] != zs[j] {
            if i >= |xs| { assert zs[i] == ys[i - |xs|]; }
          }
        }
      }
    }
  }

  lemma DeclaredOn(
    a: map<string, nat>, b: map<string, nat>, c: map<string, nat>, xs: seq<string>, ys: seq<string>, n: nat)
    requires Declared(a, b, xs, n) && Declared(b, c, ys, n + |xs|) && Declarable(ys, b)
    ensures Declared(a, c, xs + ys, n)
  {
    var zs := xs + ys;
    forall i | 0 <= i < |zs| ensures zs[i] in c && c[zs[i]] == n + i {
      if i < |xs| {
        assert zs[i] == xs[i] && xs[i] in b && xs[i] !in ys;
      } else {
        assert zs[i] == ys[i - |xs|];
      }
    }
  }

  lemma {:induction false} AllNamesPrefix(subs: seq<BindAst>, i: nat)
    requires i <= |subs|
    ensures AllNames(subs[..i]) <= AllNames(subs)
    decreases |subs|
  {
    if i < |subs| {
      AllNamesPrefix(Front(subs), i);
      assert Front(subs)[..i] == subs[..i];
    } else {
      assert subs[..i] == subs;
    }
  }

  /** analyze_binding: the variables of a binding get the next free slots in turn; None
      just when a name is declared twice. */
  method AnalyzeBinding(ast: BindAst, scope: Scope) returns (r: Option<Binding>)
    requires scope.Valid() && scope.Packed()
    modifies scope
    ensures scope.Valid() && scope.Packed()
    ensures r.Some? <==> Declarable(Names(ast), old(scope.vars))
    ensures r.Some? ==> r.value == Bound(ast, old(scope.Size())) && scope.Size() == old(scope.Size()) + |Names(ast)|
    ensures r.Some? ==> Declared(old(scope.vars), scope.vars, Names(ast), old(scope.Size()))
    decreases ast
  {
    match ast
    case NewVarAst(name) =>
      OneDeclared(scope.vars, name, scope.Size());
      hide Declarable, Declared;
      var slot := scope.DeclareVariable(name);
      r := if slot.Some? then Some(NewVar(slot.value)) else None;
    case GroupAst(subs) =>
      r := AnalyzeGroup(subs, scope);
  }

  method AnalyzeGroup(subs: seq<BindAst>, scope: Scope) returns (r: Option<Binding>)
    requires scope.Valid() && scope.Packed()
    modifies scope
    ensures scope.Valid() && scope.Packed()
    ensures r.Some? <==> Declarable(AllNames(subs), old(scope.vars))
    ensures r.Some? ==> r.value == Group(AllBound(subs, old(scope.Size())))
    ensures r.Some? ==> scope.Size() == old(scope.Size()) + |AllNames(subs)|
    ensures r.Some? ==> Declared(old(scope.vars), scope.vars, AllNames(subs), old(scope.Size()))
    decreases subs
  {
    var done := BNil;
    ghost var n, vars := scope.Size(), scope.vars;
    NothingDeclared(vars, n);
    assert GroupSoFar(subs[..0], done, vars, scope.vars, n, scope.Size());
    hide GroupSoFar;
    for i := 0 to |subs|
      invariant scope.Valid() && scope.Packed()
      invariant GroupSoFar(subs[..i], done, vars, scope.vars, n, scope.Size())
    {
      ghost var middle, size := scope.vars, scope.Size();
      var sub := AnalyzeBinding(subs[i], scope);
      if sub == None {
        NotDeclarable(subs, i, done, vars, middle, n, size);
        return None;
      }
      OneMore(subs, i, done, vars, middle, scope.vars, n, size);
      done := Append(done, sub.value);
    }
    assert subs[..|subs|] == subs;
    SoFarIs(subs, done, vars, scope.vars, n, scope.Size());
    r := Some(Group(done));
  }

  /** The parts that are done, from variables vars and size n. */
  ghost predicate GroupSoFar(
    subs: seq<BindAst>, done: Bindings, vars: map<string, nat>, now: map<string, nat>, n: nat, size: nat)
  {
    && done == AllBound(subs, n) && size == n + |AllNames(subs)|
    && Declarable(AllNames(subs), vars) && Declared(vars, now, AllNames(subs), n)
  }

  lemma SoFarIs(subs: seq<BindAst>, done: Bindings, vars: map<string, nat>, now: map<string, nat>, n: nat, size: nat)
    requires GroupSoFar(subs, done, vars, now, n, size)
    ensures done == AllBound(subs, n) && size == n + |AllNames(subs)|
    ensures Declarable(AllNames(subs), vars) && Declared(vars, now, AllNames(subs), n)
  {
  }

  /** After the first i parts, the next one. */
  lemma OneMore(
    subs: seq<BindAst>, i: nat, done: Bindings, vars: map<string, nat>, b: map<string, nat>, c: map<string, nat>,
    n: nat, size: nat)
    requires i < |subs| && GroupSoFar(subs[..i], done, vars, b, n, size)
    requires Declarable(Names(subs[i]), b) && Declared(b, c, Names(subs[i]), size)
    ensures GroupSoFar(subs[..i + 1], Append(done, Bound(subs[i], size)), vars, c, n, size + |Names(subs[i])|)
  {
    assert Front(subs[..i + 1]) == subs[..i];
    var xs, ys := AllNames(subs[..i]), Names(subs[i]);
    DeclarableOn(vars, b, xs, ys, n);
    DeclaredOn(vars, b, c, xs, ys, n);
  }

  lemma NamesNext(subs: seq<BindAst>, i: nat)
    requires i < |subs|
    ensures AllNames(subs[..i + 1]) == AllNames(subs[..i]) + Names(subs[i])
  {
    assert Front(subs[..i + 1]) == subs[..i];
  }

  lemma NotDeclarable(
    subs: seq<BindAst>, i: nat, done: Bindings, vars: map<string, nat>, b: map<string, nat>, n: nat, size: nat)
    requires i < |subs| && GroupSoFar(subs[..i], done, vars, b, n, size) && !Declarable(Names(subs[i]), b)
    ensures !Declarable(AllNames(subs), vars)
  {
    NamesNext(subs, i);
    hide AllNames, Names, Declarable, Declared, AllBound;
    DeclarableOn(vars, b, AllNames(subs[..i]), Names(subs[i]), n);
    AllNamesPrefix(subs, i + 1);
    if Declarable(AllNames(subs), vars) { PrefixDeclarable(AllNames(subs[..i + 1]), AllNames(subs), vars); }
  }

  lemma PrefixDeclarable(xs: seq<string>, ys: seq<string>, vars: map<string, nat>)
    requires xs <= ys && Declarable(ys, vars)
    ensures Declarable(xs, vars)
  {
    assert forall i :: 0 <= i < |xs| ==> xs[i] == ys[i];
  }
}
