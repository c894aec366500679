/** Which functions of a program are found by name, and which of them are analysed. */
module Symbols {
  import opened Values
  import opened Labels

  datatype VariadicMode = EXACT | REQUIRED | ALLOWED | PROHIBITED

  datatype Signature = Signature(path: seq<string>, name: string, simple: nat, isVariadic: bool)

  /** A namespace as it is written; absolute ones start at the root. */
  datatype Namespace = Namespace(path: seq<string>, absolute: bool)

  predicate Match(f: Signature, full: seq<string>, name: string, parameters: nat, mode: VariadicMode) {
    && f.name == name && f.path == full
    && match mode
       case EXACT => f.simple == parameters && f.isVariadic
       case REQUIRED => f.simple <= parameters && f.isVariadic
       case ALLOWED => if f.isVariadic then f.simple <= parameters else f.simple == parameters
       case PROHIBITED => f.simple == parameters && !f.isVariadic
  }

  /** How the modes relate: ALLOWED takes what REQUIRED or PROHIBITED takes, which share
      nothing; EXACT takes the least number that REQUIRED takes. */
  lemma ModesAgree(f: Signature, full: seq<string>, name: string, n: nat)
    ensures Match(f, full, name, n, ALLOWED) <==>
            Match(f, full, name, n, REQUIRED) || Match(f, full, name, n, PROHIBITED)
    ensures !(Match(f, full, name, n, REQUIRED) && Match(f, full, name, n, PROHIBITED))
    ensures Match(f, full, name, n, REQUIRED) ==> Match(f, full, name, n + 1, REQUIRED)
    ensures Match(f, full, name, n, EXACT) <==>
            Match(f, full, name, n, REQUIRED) && (n > 0 ==> !Match(f, full, name, n - 1, REQUIRED))
    ensures Match(f, full, name, n, PROHIBITED) ==> !Match(f, full, name, n + 1, PROHIBITED)
  {
  }

  /** The first declared function that matches. */
  function FirstMatch(
    fns: seq<Signature>, full: seq<string>, name: string, n: nat, mode: VariadicMode): Option<Signature> {
    if fns == [] then None
    else if Match(fns[0], full, name, n, mode) then Some(fns[0])
    else FirstMatch(fns[1..], full, name, n, mode)
  }

  /** resolve_rec: from the namespace of the use outwards. */
  function ResolveOutwards(
    fns: seq<Signature>, from: seq<string>, to: seq<string>, name: string, n: nat,
    mode: VariadicMode): Option<Signature>
    decreases |from|
  {
    var hit := FirstMatch(fns, from + to, name, n, mode);
    if hit.Some? || from == [] then hit else ResolveOutwards(fns, from[..|from| - 1], to, name, n, mode)
  }

  function Resolve(
    fns: seq<Signature>, from: seq<string>, to: Namespace, name: string, n: nat, mode: VariadicMode): Option<Signature>
  {
    if to.absolute then FirstMatch(fns, to.path, name, n, mode)
    else ResolveOutwards(fns, from, to.path, name, n, mode)
  }

  /** Of the declared functions that match, f is the first. */
  predicate IsFirst(
    fns: seq<Signature>, f: Signature, full: seq<string>, name: string, n: nat, mode: VariadicMode)
  {
    exists i :: 0 <= i < |fns| && fns[i] == f && FirstAt(fns, i, full, name, n, mode)
  }

  predicate FirstAt(fns: seq<Signature>, i: nat, full: seq<string>, name: string, n: nat, mode: VariadicMode)
    requires i < |fns|
  {
    Match(fns[i], full, name, n, mode) && forall k :: 0 <= k < i ==> !Match(fns[k], full, name, n, mode)
  }

  lemma {:induction false} FirstMatchIs(
    fns: seq<Signature>, full: seq<string>, name: string, n: nat, mode: VariadicMode)
    ensures match FirstMatch(fns, full, name, n, mode)
      case None => forall f :: f in fns ==> !Match(f, full, name, n, mode)
      case Some(f) => IsFirst(fns, f, full, name, n, mode)
    decreases |fns|
  {
    if fns != [] && Match(fns[0], full, name, n, mode) {
      assert FirstAt(fns, 0, full, name, n, mode);
    } else if fns != [] {
      FirstMatchIs(fns[1..], full, name, n, mode);
      var r := FirstMatch(fns[1..], full, name, n, mode);
      if r.Some? {
        var i :| 0 <= i < |fns| - 1 && fns[1..][i] == r.value && FirstAt(fns[1..], i, full, name, n, mode);
        FirstLater(fns, i, full, name, n, mode);
      }
    }
  }

  lemma FirstLater(fns: seq<Signature>, i: nat, full: seq<string>, name: string, n: nat, mode: VariadicMode)
    requires fns != [] && i < |fns| - 1 && !Match(fns[0], full, name, n, mode)
    requires FirstAt(fns[1..], i, full, name, n, mode)
    ensures FirstAt(fns, i + 1, full, name, n, mode)
  {
    forall k | 0 <= k < i + 1 ensures !Match(fns[k], full, name, n, mode) {
      if k > 0 { assert fns[k] == fns[1..][k - 1]; }
    }
  }

  predicate Innermost(
    fns: seq<Signature>, f: Signature, k: nat, from: seq<string>, to: seq<string>, name: string, n: nat,
    mode: VariadicMode)
    requires k <= |from|
  {
    && IsFirst(fns, f, from[..k] + to, name, n, mode)
    && forall j, g :: k < j <= |from| && g in fns ==> !Match(g, from[..j] + to, name, n, mode)
  }

  lemma InnermostOutside(
    fns: seq<Signature>, f: Signature, k: nat, from: seq<string>, to: seq<string>, name: string, n: nat,
    mode: VariadicMode)
    requires from != [] && k < |from| && Innermost(fns, f, k, from[..|from| - 1], to, name, n, mode)
    requires forall g :: g in fns ==> !Match(g, from + to, name, n, mode)
    ensures Innermost(fns, f, k, from, to, name, n, mode)
  {
    var outer := from[..|from| - 1];
    assert outer[..k] == from[..k];
    forall j, g | k < j <= |from| && g in fns ensures !Match(g, from[..j] + to, name, n, mode) {
      if j == |from| { assert from[..j] == from; } else { assert outer[..j] == from[..j]; }
    }
  }

  ghost predicate FoundInnermost(
    fns: seq<Signature>, f: Signature, from: seq<string>, to: seq<string>, name: string, n: nat, mode: VariadicMode)
  {
    f in fns && exists k: nat :: k <= |from| && Innermost(fns, f, k, from, to, name, n, mode)
  }

  lemma FoundHere(
    fns: seq<Signature>, f: Signature, from: seq<string>, to: seq<string>, name: string, n: nat, mode: VariadicMode)
    requires FirstMatch(fns, from + to, name, n, mode) == Some(f)
    ensures FoundInnermost(fns, f, from, to, name, n, mode)
  {
    FirstMatchIs(fns, from + to, name, n, mode);
    assert from[..|from|] == from;
    assert Innermost(fns, f, |from|, from, to, name, n, mode);
  }

  lemma FoundOutside(
    fns: seq<Signature>, f: Signature, from: seq<string>, to: seq<string>, name: string, n: nat, mode: VariadicMode)
    requires from != [] && FoundInnermost(fns, f, from[..|from| - 1], to, name, n, mode)
    requires FirstMatch(fns, from + to, name, n, mode) == None
    ensures FoundInnermost(fns, f, from, to, name, n, mode)
  {
    FirstMatchIs(fns, from + to, name, n, mode);
    var k: nat :| k <= |from| - 1 && Innermost(fns, f, k, from[..|from| - 1], to, name, n, mode);
    InnermostOutside(fns, f, k, from, to, name, n, mode);
  }

  /** A name is resolved in the innermost enclosing namespace that has a match; if none
      has, it is not resolved. */
  lemma {:induction false} ResolveInnermost(
    fns: seq<Signature>, from: seq<string>, to: seq<string>, name: string, n: nat, mode: VariadicMode)
    ensures match ResolveOutwards(fns, from, to, name, n, mode)
      case None => forall k, f :: 0 <= k <= |from| && f in fns ==> !Match(f, from[..k] + to, name, n, mode)
      case Some(f) => FoundInnermost(fns, f, from, to, name, n, mode)
    decreases |from|
  {
    hide Match, FirstMatch, FoundInnermost, IsFirst;
    var hit := FirstMatch(fns, from + to, name, n, mode);
    if hit.Some? {
      FoundHere(fns, hit.value, from, to, name, n, mode);
    } else {
      FirstMatchIs(fns, from + to, name, n, mode);
      assert from[..|from|] == from;
      if from != [] {
        var outer := from[..|from| - 1];
        ResolveInnermost(fns, outer, to, name, n, mode);
        assert forall k :: 0 <= k <= |outer| ==> outer[..k] == from[..k];
        var r := ResolveOutwards(fns, outer, to, name, n, mode);
        if r.Some? { FoundOutside(fns, r.value, from, to, name, n, mode); }
      }
    }
  }

  /** Resolution of a name: one in an absolute namespace is looked up there and nowhere
      else, wherever it is used; any other in the namespaces around its use, innermost
      first. In both the first declared function that matches is taken. */
  lemma ResolveFinds(
    fns: seq<Signature>, from: seq<string>, to: Namespace, name: string, n: nat, mode: VariadicMode)
    ensures to.absolute ==>
      match Resolve(fns, from, to, name, n, mode)
      case None => forall f :: f in fns ==> !Match(f, to.path, name, n, mode)
      case Some(f) => IsFirst(fns, f, to.path, name, n, mode)
    ensures to.absolute ==>
      forall other :: Resolve(fns, other, to, name, n, mode) == Resolve(fns, from, to, name, n, mode)
    ensures !to.absolute ==>
      match Resolve(fns, from, to, name, n, mode)
      case None => forall k, f :: 0 <= k <= |from| && f in fns ==> !Match(f, from[..k] + to.path, name, n, mode)
      case Some(f) => FoundInnermost(fns, f, from, to.path, name, n, mode)
  {
    hide Match, FirstMatch, FoundInnermost, IsFirst, ResolveOutwards;
    FirstMatchIs(fns, to.path, name, n, mode);
    ResolveInnermost(fns, from, to.path, name, n, mode);
  }

  /** The functions declared so far. */
  class SymbolTable {
    var symbols: seq<Signature>

    /** No two of them share namespace, name and number of parameters. */
    ghost predicate Valid()
      reads this
    {
      forall i, j :: 0 <= i < j < |symbols| ==> !SameKey(symbols[i], symbols[j])
    }

    constructor ()
      ensures Valid() && symbols == []
    {
      symbols := [];
    }

    /** insert: refused if the name would be resolved already. */
    method Insert(f: Signature) returns (ok: bool)
      requires Valid()
      modifies this
      ensures Valid() && symbols == if ok then old(symbols) + [f] else old(symbols)
      ensures ok <==> forall g :: g in old(symbols) ==> !Match(g, f.path, f.name, f.simple, ALLOWED)
      ensures (exists g :: g in old(symbols) && SameKey(g, f)) ==> !ok
    {
      FirstMatchIs(symbols, [] + f.path, f.name, f.simple, ALLOWED);
      assert [] + f.path == f.path;
      if ResolveOutwards(symbols, [], f.path, f.name, f.simple, ALLOWED).Some? { return false; }
      forall g | g in symbols ensures !SameKey(g, f) { assert !Match(g, f.path, f.name, f.simple, ALLOWED); }
      symbols := symbols + [f];
      ok := true;
    }
  }

  predicate SameKey(f: Signature, g: Signature) {
    f.path == g.path && f.name == g.name && f.simple == g.simple
  }

  predicate Spelled(f: Signature) { Identifiers(f.path) && Identifier(f.name) }

  /** Functions a table accepts have different labels. */
  lemma AcceptedLabelsDistinct(t: SymbolTable, i: nat, j: nat)
    requires t.Valid() && i < j < |t.symbols| && Spelled(t.symbols[i]) && Spelled(t.symbols[j])
    ensures var f, g := t.symbols[i], t.symbols[j];
      FunctionName(f.path, f.name, f.simple) != FunctionName(g.path, g.name, g.simple)
  {
    var f, g := t.symbols[i], t.symbols[j];
    if FunctionName(f.path, f.name, f.simple) == FunctionName(g.path, g.name, g.simple) {
      FunctionNameInjective(f.path, f.name, f.simple, g.path, g.name, g.simple);
    }
  }

  /** Once f is declared, g is refused. */
  predicate Hides(f: Signature, g: Signature) { Match(f, g.path, g.name, g.simple, ALLOWED) }

  /** One of them is variadic and takes fewer parameters than the other has. */
  predicate OrderMatters(f: Signature, g: Signature) {
    && f.path == g.path && f.name == g.name
    && ((f.isVariadic && f.simple < g.simple) || (g.isVariadic && g.simple < f.simple))
  }

  /** All of them are accepted, one after the other. */
  predicate Acceptable(fns: seq<Signature>) {
    forall i, j :: 0 <= i < j < |fns| ==> !Hides(fns[i], fns[j])
  }

  /** The declarations of a program go into an empty table; false at the first that is refused. */
  method InsertAll(fns: seq<Signature>) returns (ok: bool)
    ensures ok <==> Acceptable(fns)
  {
    var table := new SymbolTable();
    for k := 0 to |fns|
      invariant table.Valid() && table.symbols == fns[..k] && Acceptable(fns[..k])
      modifies table
    {
      assert forall i :: 0 <= i < k ==> fns[..k][i] == fns[i];
      var accepted := table.Insert(fns[k]);
      if !accepted { return false; }
      assert fns[..k + 1] == fns[..k] + [fns[k]];
    }
    assert fns[..|fns|] == fns;
    ok := true;
  }

  /** Two functions are treated alike in both orders just when neither is a variadic one
      with fewer parameters than the other. */
  lemma OrderMattersExactly(f: Signature, g: Signature)
    ensures (Acceptable([f, g]) <==> Acceptable([g, f])) <==> !OrderMatters(f, g)
  {
    PairAcceptable(f, g);
    PairAcceptable(g, f);
  }

  lemma PairAcceptable(f: Signature, g: Signature)
    ensures Acceptable([f, g]) <==> !Hides(f, g)
  {
    var fs := [f, g];
    if Acceptable(fs) { assert !Hides(fs[0], fs[1]); }
  }

  /** Declarations that are accepted in one order are accepted in every order just when
      the order matters for no two of them: where it does, the reverse order fails. */
  lemma EveryOrderExactly(fns: seq<Signature>)
    requires Acceptable(fns)
    ensures (forall order: seq<nat> | IsOrder(order, |fns|) :: Acceptable(InOrder(fns, order)))
       <==> forall i, j :: 0 <= i < j < |fns| ==> !OrderMatters(fns[i], fns[j])
  {
    if forall i, j :: 0 <= i < j < |fns| ==> !OrderMatters(fns[i], fns[j]) {
      forall order: seq<nat> | IsOrder(order, |fns|) ensures Acceptable(InOrder(fns, order)) {
        forall x, y | 0 <= x < y < |fns| ensures !Hides(InOrder(fns, order)[x], InOrder(fns, order)[y]) {
          var i, j := order[x], order[y];
          if i < j { assert !Hides(fns[i], fns[j]); } else { NeitherHides(fns[j], fns[i]); }
        }
      }
    } else {
      var i, j :| 0 <= i < j < |fns| && OrderMatters(fns[i], fns[j]);
      var n := |fns|;
      var back := seq(n, k requires 0 <= k < n => n - 1 - k as nat);
      assert IsOrder(back, n);
      var other := InOrder(fns, back);
      assert other[n - 1 - j] == fns[j] && other[n - 1 - i] == fns[i];
      HidesOneWay(fns[i], fns[j]);
    }
  }

  /** Every position once. */
  predicate IsOrder(order: seq<nat>, n: nat) {
    && |order| == n && (forall x :: 0 <= x < n ==> order[x] < n)
    && forall x, y :: 0 <= x < y < n ==> order[x] != order[y]
  }

  function InOrder(fns: seq<Signature>, order: seq<nat>): seq<Signature>
    requires IsOrder(order, |fns|)
  {
    seq(|fns|, x requires 0 <= x < |fns| => fns[order[x]])
  }

  lemma NeitherHides(f: Signature, g: Signature)
    requires !Hides(f, g) && !OrderMatters(f, g)
    ensures !Hides(g, f)
  {
  }

  lemma HidesOneWay(f: Signature, g: Signature)
    requires OrderMatters(f, g) && !Hides(f, g)
    ensures Hides(g, f)
  {
  }

  /** f(a, rest...) is accepted after f(a, b), but not before it. */
  lemma VariadicAfterFixed(path: seq<string>, name: string)
    ensures var v, f := Signature(path, name, 1, true), Signature(path, name, 2, false);
      Acceptable([f, v]) && !Acceptable([v, f]) && OrderMatters(f, v)
  {
    PairAcceptable(Signature(path, name, 1, true), Signature(path, name, 2, false));
    PairAcceptable(Signature(path, name, 2, false), Signature(path, name, 1, true));
  }

  /** What the analysis of each function refers to. */
  type References = map<nat, seq<nat>>

  ghost predicate ReachesIn(refs: References, externs: seq<nat>, f: nat, k: nat)
    decreases k
  {
    f in externs || (k > 0 && exists g :: g in refs && f in refs[g] && ReachesIn(refs, externs, g, k - 1))
  }

  ghost predicate Reachable(refs: References, externs: seq<nat>, f: nat) {
    exists k: nat :: ReachesIn(refs, externs, f, k)
  }

  lemma ReachesOn(refs: References, externs: seq<nat>, g: nat, f: nat)
    requires Reachable(refs, externs, g) && g in refs && f in refs[g]
    ensures Reachable(refs, externs, f)
  {
    var k: nat :| ReachesIn(refs, externs, g, k);
    assert ReachesIn(refs, externs, f, k + 1);
  }

  lemma {:induction false} ClosedHasReachable(refs: References, externs: seq<nat>, s: seq<nat>, f: nat, k: nat)
    requires forall x :: x in externs ==> x in s
    requires forall g, x :: g in s && g in refs && x in refs[g] ==> x in s
    requires ReachesIn(refs, externs, f, k)
    ensures f in s
    decreases k
  {
    if f !in externs {
      var g :| g in refs && f in refs[g] && ReachesIn(refs, externs, g, k - 1);
      ClosedHasReachable(refs, externs, s, g, k - 1);
    }
  }

  /** The functions that wait to be analysed. */
  class FunctionQueue {
    var queue: seq<nat>
    var known: set<nat>

    constructor ()
      ensures queue == [] && known == {}
    {
      queue, known := [], {};
    }

    /** stage_function: what is known already is not queued again. */
    method StageFunction(f: nat)
      modifies this
      ensures known == old(known) + {f}
      ensures queue == if f in old(known) then old(queue) else old(queue) + [f]
    {
      if f in known { return; }
      known := known + {f};
      queue := queue + [f];
    }

    method FetchFunction() returns (f: Option<nat>)
      modifies this
      ensures known == old(known)
      ensures old(queue) == [] ==> f == None && queue == []
      ensures old(queue) != [] ==> f == Some(old(queue)[0]) && queue == old(queue)[1..]
    {
      if queue == [] { return None; }
      f := Some(queue[0]);
      queue := queue[1..];
    }
  }

  /** Analysed, then waiting: each known function once, all of them reachable. */
  ghost predicate Progress(refs: References, externs: seq<nat>, done: seq<nat>, queue: seq<nat>, known: set<nat>) {
    && (forall i, j :: 0 <= i < j < |done + queue| ==> (done + queue)[i] != (done + queue)[j])
    && (forall f :: f in known <==> f in done + queue)
    && (forall f :: f in known ==> f in refs && Reachable(refs, externs, f))
  }

  method StageAll(q: FunctionQueue, fs: seq<nat>, ghost refs: References, ghost externs: seq<nat>, ghost done: seq<nat>)
    requires Progress(refs, externs, done, q.queue, q.known)
    requires forall f :: f in fs ==> f in refs && Reachable(refs, externs, f)
    modifies q
    ensures Progress(refs, externs, done, q.queue, q.known)
    ensures q.known == old(q.known) + set f | f in fs
  {
    for i := 0 to |fs|
      invariant Progress(refs, externs, done, q.queue, q.known)
      invariant q.known == old(q.known) + set f | f in fs[..i]
    {
      ghost var before := done + q.queue;
      assert fs[i] in fs;
      q.StageFunction(fs[i]);
      assert done + q.queue == before || done + q.queue == before + [fs[i]];
      assert fs[..i + 1] == fs[..i] + [fs[i]];
    }
    assert fs[..|fs|] == fs;
  }

  /** analyze: each function reachable from the externs is analysed exactly once, and none
      that is not. */
  method Analyze(refs: References, externs: seq<nat>) returns (done: seq<nat>)
    requires forall f :: f in externs ==> f in refs
    requires forall f, g :: f in refs && g in refs[f] ==> g in refs
    ensures forall i, j :: 0 <= i < j < |done| ==> done[i] != done[j]
    ensures forall f :: f in done <==> Reachable(refs, externs, f)
  {
    var q := new FunctionQueue();
    done := [];
    forall f | f in externs ensures Reachable(refs, externs, f) { assert ReachesIn(refs, externs, f, 0); }
    StageAll(q, externs, refs, externs, done);
    while q.queue != []
      invariant Progress(refs, externs, done, q.queue, q.known)
      invariant forall f :: f in externs ==> f in q.known
      invariant forall f, g :: f in done && f in refs && g in refs[f] ==> g in q.known
      decreases |refs.Keys - q.known|, |q.queue|
    {
      done := AnalyzeNext(q, refs, externs, done);
    }
    assert done + [] == done;
    forall f | Reachable(refs, externs, f) ensures f in done {
      var k: nat :| ReachesIn(refs, externs, f, k);
      ClosedHasReachable(refs, externs, done, f, k);
    }
  }

  method AnalyzeNext(q: FunctionQueue, refs: References, externs: seq<nat>, before: seq<nat>) returns (done: seq<nat>)
    requires Progress(refs, externs, before, q.queue, q.known) && q.queue != []
    requires forall f, g :: f in refs && g in refs[f] ==> g in refs
    modifies q
    ensures Progress(refs, externs, done, q.queue, q.known)
    ensures done == before + [old(q.queue)[0]] && q.known >= old(q.known)
    ensures forall g :: g in refs[old(q.queue)[0]] ==> g in q.known
    ensures |refs.Keys - q.known| < |refs.Keys - old(q.known)|
      || (q.known == old(q.known) && |q.queue| < |old(q.queue)|)
  {
    ghost var waiting := q.queue;
    var f := q.FetchFunction();
    done := before + [f.value];
    assert before + waiting == done + q.queue && f.value in before + waiting;
    forall g | g in refs[f.value] ensures Reachable(refs, externs, g) { ReachesOn(refs, externs, f.value, g); }
    ghost var known := q.known;
    StageAll(q, refs[f.value], refs, externs, done);
    FewerLeft(refs.Keys, known, q.known);
    if q.known == known { SameQueue(done, waiting[1..], q.queue, known); }
  }

  /** With nothing new known the queue has only become shorter. */
  lemma SameQueue(done: seq<nat>, rest: seq<nat>, queue: seq<nat>, known: set<nat>)
    requires forall f :: f in known <==> f in done + rest
    requires forall f :: f in known <==> f in done + queue
    requires forall i, j :: 0 <= i < j < |done + rest| ==> (done + rest)[i] != (done + rest)[j]
    requires forall i, j :: 0 <= i < j < |done + queue| ==> (done + queue)[i] != (done + queue)[j]
    ensures |queue| == |rest|
  {
    DistinctCount(done + rest, known);
    DistinctCount(done + queue, known);
  }

  lemma {:induction false} DistinctCount(s: seq<nat>, known: set<nat>)
    requires forall f :: f in known <==> f in s
    requires forall i, j :: 0 <= i < j < |s| ==> s[i] != s[j]
    ensures |s| == |known|
    decreases |s|
  {
    if s == [] {
      assert known == {};
    } else {
      var front, last := s[..|s| - 1], s[|s| - 1];
      assert s == front + [last] && last in s;
      forall f ensures f in known - {last} <==> f in front { if f in front { assert f in s; } }
      DistinctCount(front, known - {last});
    }
  }

  lemma FewerLeft(all: set<nat>, before: set<nat>, now: set<nat>)
    requires before <= now && now <= all
    ensures |all - now| < |all - before| || now == before
  {
    if now != before {
      SmallerSet(all - now, all - before);
    }
  }

  lemma SmallerSet(a: set<nat>, b: set<nat>)
    requires a <= b && a != b
    ensures |a| < |b|
  {
    assert b == a + (b - a) && b - a != {};
  }
}
