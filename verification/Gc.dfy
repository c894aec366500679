/** The garbage collector: recursive marking over a heap that may be cyclic, an in-place
    sweep of the list that owns the objects, and when a collection happens. */
module Gc {
  /** A value is a scalar or refers to an object. */
  datatype Val = Scalar | Ref(o: HeapObject)

  /** Objects without parts (strings, streams, clocks, random engines) are marked without
      looking whether they are; all others are marked, and visited, once. */
  class HeapObject {
    var parts: seq<Val>
    var leaf: bool
    var marked: bool
    var next: HeapObject?

    constructor (parts: seq<Val>, leaf: bool, next: HeapObject?)
      ensures this.parts == parts && this.leaf == leaf && !marked && this.next == next
    {
      this.parts, this.leaf, marked, this.next := parts, leaf, false, next;
    }
  }

  /** What refers to what, as it is while the collector runs. */
  type Graph = map<HeapObject, seq<Val>>

  /** The graph describes these objects, and they refer to nothing else. */
  ghost predicate Depicts(g: Graph, all: set<HeapObject>)
    reads all
  {
    && g.Keys == all
    && (forall o :: o in all ==> o.parts == g[o] && (o.leaf ==> o.parts == []))
    && Closed(g)
  }

  ghost predicate Closed(g: Graph) {
    forall o :: o in g ==> Within(g[o], g.Keys)
  }

  ghost predicate Within(vs: seq<Val>, all: set<HeapObject>) {
    forall i :: 0 <= i < |vs| && vs[i].Ref? ==> vs[i].o in all
  }

  /** o can be reached from these values in at most k steps. */
  ghost predicate ReachedIn(g: Graph, vs: seq<Val>, o: HeapObject, k: nat)
    decreases k
  {
    || Ref(o) in vs
    || (k > 0 && exists p :: p in g && Ref(o) in g[p] && ReachedIn(g, vs, p, k - 1))
  }

  ghost predicate Reached(g: Graph, vs: seq<Val>, o: HeapObject) {
    exists k :: ReachedIn(g, vs, o, k)
  }

  ghost function Marked(all: set<HeapObject>): set<HeapObject>
    reads all
  {
    set o | o in all && o.marked
  }

  /** Everything marked since before has its parts marked, and can be reached from vs. */
  ghost predicate Visited(g: Graph, before: set<HeapObject>, now: set<HeapObject>, vs: seq<Val>) {
    && before <= now
    && (forall o :: o in now && o !in before ==> o in g && Within(g[o], now) && Reached(g, vs, o))
  }

  lemma {:induction false} ReachedMore(g: Graph, vs: seq<Val>, ws: seq<Val>, o: HeapObject, k: nat)
    requires ReachedIn(g, vs, o, k) && forall v :: v in vs ==> v in ws
    ensures ReachedIn(g, ws, o, k)
    decreases k
  {
    if Ref(o) !in vs {
      var p :| p in g && Ref(o) in g[p] && ReachedIn(g, vs, p, k - 1);
      ReachedMore(g, vs, ws, p, k - 1);
    }
  }

  /** What the parts of an object reach, the object reaches. */
  lemma {:induction false} ReachedThrough(g: Graph, p: HeapObject, o: HeapObject, k: nat)
    requires p in g && ReachedIn(g, g[p], o, k)
    ensures ReachedIn(g, [Ref(p)], o, k + 1)
    decreases k
  {
    if Ref(o) in g[p] {
      assert ReachedIn(g, [Ref(p)], p, k);
    } else {
      var q :| q in g && Ref(o) in g[q] && ReachedIn(g, g[p], q, k - 1);
      ReachedThrough(g, p, q, k - 1);
    }
  }

  /** A set that has the roots and with every object its parts has all that is reached. */
  lemma {:induction false} ClosedSetHasReached(g: Graph, vs: seq<Val>, s: set<HeapObject>, o: HeapObject, k: nat)
    requires Within(vs, s) && (forall p :: p in s && p in g ==> Within(g[p], s))
    requires ReachedIn(g, vs, o, k)
    ensures o in s
    decreases k
  {
    if Ref(o) !in vs {
      var p :| p in g && Ref(o) in g[p] && ReachedIn(g, vs, p, k - 1);
      ClosedSetHasReached(g, vs, s, p, k - 1);
    }
  }

  lemma VisitedLeaf(g: Graph, before: set<HeapObject>, o: HeapObject)
    requires o in g && g[o] == []
    ensures Visited(g, before, before + {o}, [Ref(o)]) && Within([Ref(o)], before + {o})
  {
    assert ReachedIn(g, [Ref(o)], o, 0);
  }

  lemma VisitedAlready(g: Graph, before: set<HeapObject>, o: HeapObject)
    requires o in before
    ensures Visited(g, before, before, [Ref(o)]) && Within([Ref(o)], before)
  {
  }

  /** An object is marked, then its parts are visited. */
  lemma VisitedNode(g: Graph, before: set<HeapObject>, now: set<HeapObject>, o: HeapObject)
    requires o in g && Visited(g, before + {o}, now, g[o]) && Within(g[o], now)
    ensures Visited(g, before, now, [Ref(o)]) && Within([Ref(o)], now)
  {
    assert ReachedIn(g, [Ref(o)], o, 0);
    forall p | p in now && p !in before ensures p in g && Within(g[p], now) && Reached(g, [Ref(o)], p) {
      if p != o {
        var k :| ReachedIn(g, g[o], p, k);
        ReachedThrough(g, o, p, k);
      }
    }
  }

  /** mark, of one value. */
  method MarkValue(v: Val, ghost g: Graph, ghost all: set<HeapObject>)
    requires Depicts(g, all) && Within([v], all)
    modifies all`marked
    ensures Depicts(g, all) && Visited(g, old(Marked(all)), Marked(all), [v])
    ensures Within([v], Marked(all))
    decreases |all - Marked(all)|, 1
  {
    hide Visited, Within, ReachedIn, Reached, Closed;
    ghost var before := Marked(all);
    match v
    case Scalar => VisitedScalar(g, before);
    case Ref(o) =>
      RootWithin(o, all);
      if o.leaf {
        o.marked := true;
        assert Marked(all) == before + {o};
        VisitedLeaf(g, before, o);
      } else if o.marked {
        VisitedAlready(g, before, o);
      } else {
        o.marked := true;
        assert Marked(all) == before + {o};
        SmallerSet(all - Marked(all), all - before);
        PartsWithin(g, o);
        MarkValues(o.parts, g, all);
        VisitedNode(g, before, Marked(all), o);
      }
  }

  lemma VisitedScalar(g: Graph, before: set<HeapObject>)
    ensures Visited(g, before, before, [Scalar]) && Within([Scalar], before)
  {
  }

  lemma RootWithin(o: HeapObject, all: set<HeapObject>)
    requires Within([Ref(o)], all)
    ensures o in all
  {
    assert [Ref(o)][0] == Ref(o);
  }

  lemma PartsWithin(g: Graph, o: HeapObject)
    requires Closed(g) && o in g
    ensures Within(g[o], g.Keys)
  {
  }

  lemma WithinSnoc(vs: seq<Val>, v: Val, all: set<HeapObject>, more: set<HeapObject>)
    requires Within(vs, all) && Within([v], more) && all <= more
    ensures Within(vs + [v], more)
  {
    assert [v][0] == v;
  }

  lemma SmallerSet(a: set<HeapObject>, b: set<HeapObject>)
    requires a < b
    ensures |a| < |b|
  {
    var x :| x in b && x !in a;
    SubsetSize(a, b - {x});
  }

  lemma {:induction false} SubsetSize(a: set<HeapObject>, b: set<HeapObject>)
    requires a <= b
    ensures |a| <= |b|
    decreases a
  {
    if a != {} {
      var x :| x in a;
      SubsetSize(a - {x}, b - {x});
    }
  }

  /** mark, of several values. */
  method MarkValues(vs: seq<Val>, ghost g: Graph, ghost all: set<HeapObject>)
    requires Depicts(g, all) && Within(vs, all)
    modifies all`marked
    ensures Depicts(g, all) && Visited(g, old(Marked(all)), Marked(all), vs)
    ensures Within(vs, Marked(all))
    decreases |all - Marked(all)|, 2
  {
    ghost var before := Marked(all);
    for i := 0 to |vs|
      invariant Depicts(g, all) && Visited(g, before, Marked(all), vs)
      invariant Within(vs[..i], Marked(all))
    {
      ghost var mid := Marked(all);
      SubsetSize(all - mid, all - before);
      MarkValue(vs[i], g, all);
      VisitedMore(g, before, mid, Marked(all), vs, vs[i]);
      WithinSnoc(vs[..i], vs[i], mid, Marked(all));
      assert vs[..i + 1] == vs[..i] + [vs[i]];
    }
    assert vs[..|vs|] == vs;
  }

  lemma VisitedMore(
    g: Graph, before: set<HeapObject>, mid: set<HeapObject>, now: set<HeapObject>, vs: seq<Val>, v: Val)
    requires Visited(g, before, mid, vs) && Visited(g, mid, now, [v]) && v in vs
    ensures Visited(g, before, now, vs)
  {
    forall o | o in now && o !in before ensures o in g && Within(g[o], now) && Reached(g, vs, o) {
      if o !in mid {
        var k :| ReachedIn(g, [v], o, k);
        ReachedMore(g, [v], vs, o, k);
      }
    }
  }

  /** From clear marks, exactly what the roots reach is marked, and it is closed. */
  lemma MarkingIsExact(g: Graph, now: set<HeapObject>, roots: seq<Val>)
    requires Visited(g, {}, now, roots) && Within(roots, now)
    ensures forall o :: o in now <==> Reached(g, roots, o)
    ensures now <= g.Keys && Closed(Restrict(g, now))
  {
    forall o | Reached(g, roots, o) ensures o in now {
      var k :| ReachedIn(g, roots, o, k);
      ClosedSetHasReached(g, roots, now, o, k);
    }
    var h := Restrict(g, now);
    assert h.Keys == now;
    forall o | o in h ensures Within(h[o], h.Keys) {
      assert Within(g[o], now);
    }
  }

  ghost function At(s: seq<HeapObject>, i: nat): HeapObject? {
    if i < |s| then s[i] else null
  }

  ghost predicate Linked(s: seq<HeapObject>, i: nat)
    requires i < |s|
    reads s[i]
  {
    s[i].next == At(s, i + 1)
  }

  /** The list that owns the objects: each one owns the next. */
  ghost predicate Chain(first: HeapObject?, s: seq<HeapObject>)
    reads s
  {
    first == At(s, 0) && forall i :: 0 <= i < |s| ==> Linked(s, i)
  }

  predicate Distinct(s: seq<HeapObject>) {
    forall i, j :: 0 <= i < j < |s| ==> s[i] != s[j]
  }

  /** The objects of the list that are in the set, in the order of the list. */
  ghost function Kept(s: seq<HeapObject>, m: set<HeapObject>): seq<HeapObject> {
    if s == [] then [] else Kept(s[..|s| - 1], m) + if s[|s| - 1] in m then [s[|s| - 1]] else []
  }

  lemma {:induction false} KeptIs(s: seq<HeapObject>, m: set<HeapObject>)
    ensures forall o :: o in Kept(s, m) <==> o in s && o in m
    ensures Distinct(s) ==> Distinct(Kept(s, m))
    ensures |Kept(s, m)| <= |s|
    decreases |s|
  {
    if s != [] {
      KeptIs(s[..|s| - 1], m);
      assert s == s[..|s| - 1] + [s[|s| - 1]];
    }
  }

  lemma KeptStep(s: seq<HeapObject>, i: nat, m: set<HeapObject>)
    requires i < |s|
    ensures Kept(s[..i + 1], m) == Kept(s[..i], m) + if s[i] in m then [s[i]] else []
  {
    assert s[..i + 1][..i] == s[..i];
  }

  lemma StaysDistinct(s: seq<HeapObject>, i: nat, m: set<HeapObject>)
    requires i <= |s| && Distinct(s)
    ensures Distinct(Kept(s[..i], m) + s[i..])
  {
    var kept := Kept(s[..i], m);
    KeptIs(s[..i], m);
    forall a, b | 0 <= a < |kept| && i <= b < |s| ensures kept[a] != s[b] {
      assert kept[a] in kept;
      assert s[b] !in s[..i];
    }
  }

  lemma ChainCons(o: HeapObject, s: seq<HeapObject>)
    requires Chain(o.next, s)
    ensures Chain(o, [o] + s)
  {
    var t := [o] + s;
    forall i | 0 <= i < |t| ensures Linked(t, i) {
      if i > 0 { assert Linked(s, i - 1) && t[i] == s[i - 1]; }
    }
  }

  lemma ClosedMore(g: Graph, o: HeapObject, parts: seq<Val>)
    requires Closed(g) && Within(parts, g.Keys)
    ensures Closed(g[o := parts])
  {
    var h := g[o := parts];
    forall p | p in h ensures Within(h[p], h.Keys) {
      if p != o { assert Within(g[p], g.Keys); }
    }
  }

  class Heap {
    var objects: HeapObject?
    var size: nat
    var nextCollection: nat
    var locks: int
    ghost var list: seq<HeapObject>

    /** The list is sound, every object it owns refers to objects it owns, no marks are
        left from the last collection, and the size is counted right. */
    ghost predicate Valid(g: Graph)
      reads this, list
    {
      && Chain(objects, list) && Distinct(list) && size == |list|
      && Depicts(g, All()) && (forall o :: o in list ==> !o.marked)
    }

    ghost function All(): set<HeapObject>
      reads this`list
    {
      set o | o in list
    }

    constructor ()
      ensures Valid(map[]) && list == [] && nextCollection == 128 && locks == 0
    {
      objects, size, nextCollection, locks, list := null, 0, 128, 0, [];
    }

    /** track: a new object goes to the front of the list. */
    method Track(parts: seq<Val>, leaf: bool, ghost g: Graph) returns (o: HeapObject)
      requires Valid(g) && Within(parts, All()) && (leaf ==> parts == [])
      modifies this
      ensures fresh(o) && list == [o] + old(list) && Valid(g[o := parts])
      ensures nextCollection == old(nextCollection) && locks == old(locks)
    {
      hide Within, Closed;
      o := new HeapObject(parts, leaf, objects);
      objects := o;
      size := size + 1;
      ChainCons(o, list);
      ClosedMore(g, o, parts);
      list := [o] + list;
      assert All() == old(All()) + {o};
    }

    /** What the last kept object owns, or the heap if none is kept. */
    function Owned(last: HeapObject?): HeapObject?
      reads this`objects, if last == null then {} else {last}
    {
      if last == null then objects else last.next
    }

    /** The owner of object k of the list takes over what that object owns. */
    method Unlink(last: HeapObject?, ghost k: nat)
      requires Chain(objects, list) && Distinct(list) && k < |list|
      requires last == if k == 0 then null else list[k - 1]
      modifies this`objects, this`list, All()`next
      ensures list == old(list)[..k] + old(list)[k + 1..] && Chain(objects, list)
    {
      ghost var was := list;
      assert Linked(was, k) && (k > 0 ==> Linked(was, k - 1));
      if last == null {
        objects := objects.next;
      } else {
        last.next := last.next.next;
      }
      list := was[..k] + was[k + 1..];
      forall i | 0 <= i < |list| ensures Linked(list, i) {
        var j := if i < k then i else i + 1;
        assert list[i] == was[j] && old(Linked(was, j));
      }
    }

    /** Of s, i objects are looked at: of these the list has those of m, with clear marks,
        and last is the last of them; the marks of the others are as they were. */
    ghost predicate Swept(last: HeapObject?, s: seq<HeapObject>, i: nat, m: set<HeapObject>)
      reads this, list, s
    {
      && i <= |s| && Distinct(s) && list == Kept(s[..i], m) + s[i..] && Chain(objects, list)
      && last == Last(Kept(s[..i], m))
      && forall k :: 0 <= k < |s| ==> (s[k].marked <==> i <= k && s[k] in m)
    }

    /** sweep: what is not marked is taken out of the list, what is marked is cleared. */
    method Sweep() returns (collected: nat)
      requires Chain(objects, list) && Distinct(list)
      modifies this`objects, this`list, All()`next, All()`marked
      ensures list == Kept(old(list), old(Marked(All()))) && Chain(objects, list)
      ensures forall o :: o in list ==> !o.marked
      ensures collected == |old(list)| - |list|
    {
      hide Swept, Kept, Chain, Distinct, Marked;
      ghost var s, m, i := list, Marked(All()), 0;
      var last: HeapObject? := null;
      collected := 0;
      SweepStart();
      while Owned(last) != null
        invariant Swept(last, s, i, m)
        invariant i <= |s| && collected == i - |Kept(s[..i], m)|
        decreases |s| - i
      {
        SweepAt(last, Kept(s[..i], m), s, i, m);
        var current := Owned(last);
        if current.marked {
          last := Keep(last, s, i, m);
        } else {
          collected := collected + 1;
          Drop(last, s, i, m);
        }
        i := i + 1;
      }
      SweepEnd(last, s, i, m);
    }

    lemma SweepStart()
      requires Chain(objects, list) && Distinct(list)
      ensures Swept(null, list, 0, Marked(All())) && Kept(list[..0], Marked(All())) == []
    {
      assert forall k :: 0 <= k < |list| ==> list[k] in All();
    }

    method Keep(last: HeapObject?, ghost s: seq<HeapObject>, ghost i: nat, ghost m: set<HeapObject>)
      returns (current: HeapObject)
      requires Swept(last, s, i, m) && Owned(last) != null && Owned(last).marked
      modifies Owned(last)`marked
      ensures Swept(current, s, i + 1, m)
    {
      hide Kept;
      SweepAt(last, Kept(s[..i], m), s, i, m);
      current := Owned(last);
      current.marked := false;
      forall k | 0 <= k < |list| ensures Linked(list, k) {
        assert old(Linked(list, k));
      }
    }

    method Drop(last: HeapObject?, ghost s: seq<HeapObject>, ghost i: nat, ghost m: set<HeapObject>)
      requires Swept(last, s, i, m) && Owned(last) != null && !Owned(last).marked
      modifies this`objects, this`list, All()`next
      ensures Swept(last, s, i + 1, m)
    {
      hide Kept, Chain, Distinct;
      SweepAt(last, Kept(s[..i], m), s, i, m);
      Unlink(last, |Kept(s[..i], m)|);
    }

    /** The object the sweep looks at is the first one of those not looked at. */
    lemma SweepAt(last: HeapObject?, kept: seq<HeapObject>, s: seq<HeapObject>, i: nat, m: set<HeapObject>)
      requires Swept(last, s, i, m) && kept == Kept(s[..i], m) && Owned(last) != null
      ensures i < |s| && Owned(last) == s[i] && (s[i].marked <==> s[i] in m) && s[i] in list
      ensures Distinct(list) && forall o :: o in list ==> o in s
      ensures list[..|kept|] + list[|kept| + 1..] == kept + s[i + 1..]
      ensures list == kept + [s[i]] + s[i + 1..]
      ensures Kept(s[..i + 1], m) == kept + if s[i] in m then [s[i]] else []
    {
      hide Linked, Chain, Distinct, Kept;
      OwnedIs(last, kept, s[i..]);
      KeptStep(s, i, m);
      StaysDistinct(s, i, m);
      KeptIs(s[..i], m);
    }

    lemma OwnedIs(last: HeapObject?, kept: seq<HeapObject>, rest: seq<HeapObject>)
      requires Chain(objects, kept + rest) && last == Last(kept)
      ensures Owned(last) == At(rest, 0)
    {
      if kept != [] {
        assert Linked(kept + rest, |kept| - 1);
      }
    }

    lemma SweepEnd(last: HeapObject?, s: seq<HeapObject>, i: nat, m: set<HeapObject>)
      requires Swept(last, s, i, m) && Owned(last) == null
      ensures i == |s| && list == Kept(s, m) && s[..i] == s && Chain(objects, list)
      ensures forall o :: o in list ==> !o.marked
    {
      hide Kept;
      OwnedIs(last, Kept(s[..i], m), s[i..]);
      assert s[..i] == s;
      KeptIs(s, m);
    }

    /** collect_garbage: if enough is allocated and nothing locks the collector, exactly
        what the roots reach stays, in the order it had, with clear marks. */
    method CollectGarbage(roots: seq<Val>, ghost g: Graph)
      requires Valid(g) && Within(roots, All())
      modifies this`objects, this`list, this`size, this`nextCollection, All()`next, All()`marked
      ensures Within(roots, All()) && Valid(Restrict(g, All()))
      ensures old(size >= nextCollection && locks <= 0) ==>
        && (forall o :: o in list <==> Reached(g, roots, o))
        && list == Kept(old(list), All())
        && nextCollection == if 2 * size >= 129 then 2 * size else 129
      ensures old(size < nextCollection || locks > 0) ==>
        list == old(list) && size == old(size) && nextCollection == old(nextCollection)
      ensures old(Due()) ==> !Due() && nextCollection - size >= 65 && nextCollection - size >= size
    {
      hide Visited, Within, Reached, Kept, Closed, Distinct;
      if size >= nextCollection && locks <= 0 {
        assert Marked(All()) == {};
        MarkValues(roots, g, All());
        ghost var s, m := list, Marked(All());
        forall k | 0 <= k < |list| ensures Linked(list, k) {
          assert old(Linked(list, k));
        }
        var collected := Sweep();
        size := size - collected;
        nextCollection := if 2 * size >= 129 then 2 * size else 129;
        Collected(s, m, g, roots);
      } else {
        NoneCollected(g);
      }
    }

    lemma Collected(s: seq<HeapObject>, m: set<HeapObject>, g: Graph, roots: seq<Val>)
      requires list == Kept(s, m) && m <= (set o | o in s) && Distinct(s)
      requires forall o :: o in g ==> o.parts == g[o] && (o.leaf ==> o.parts == [])
      requires Visited(g, {}, m, roots) && Within(roots, m)
      ensures All() == m && Distinct(list) && Depicts(Restrict(g, m), m)
      ensures forall o :: o in list <==> Reached(g, roots, o)
    {
      hide Visited, Within, Reached, Kept, Closed;
      KeptIs(s, m);
      MarkingIsExact(g, m, roots);
    }

    lemma NoneCollected(g: Graph)
      requires g.Keys == All()
      ensures Restrict(g, All()) == g
    {
    }

    /** A collection would start now; after one it takes as many new objects as were kept,
        and at least 65, until the next. */
    predicate Due()
      reads this
    {
      size >= nextCollection && locks <= 0
    }

    /** While the collector is locked, nothing is due. */
    method LockGc()
      modifies this`locks
      ensures locks == old(locks) + 1 && (old(locks) >= 0 ==> !Due())
    {
      locks := locks + 1;
    }

    method UnlockGc()
      modifies this`locks
      ensures locks == old(locks) - 1
    {
      locks := locks - 1;
    }

    /** A native function that does not count on the collector makes an object behind a
        lock: a collection in between takes nothing away, though nothing refers to the new
        object yet. */
    method MakeBehindLock(parts: seq<Val>, leaf: bool, roots: seq<Val>, ghost g: Graph) returns (o: HeapObject)
      requires Valid(g) && Within(parts, All()) && Within(roots, All()) && (leaf ==> parts == []) && locks >= 0
      modifies this, All()`next, All()`marked
      ensures fresh(o) && list == [o] + old(list) && Valid(g[o := parts])
      ensures locks == old(locks) && nextCollection == old(nextCollection)
    {
      hide Visited, Reached, Closed, Kept, Chain, Distinct;
      LockGc();
      o := Track(parts, leaf, g);
      CollectGarbage(roots, g[o := parts]);
      NoneCollected(g[o := parts]);
      UnlockGc();
    }
  }

  ghost function Restrict(g: Graph, kept: set<HeapObject>): Graph {
    map o | o in g && o in kept :: g[o]
  }

  ghost function Last(s: seq<HeapObject>): HeapObject? {
    if s == [] then null else s[|s| - 1]
  }
}
