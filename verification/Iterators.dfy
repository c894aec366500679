/** Iterators: ranges, indices into containers, reversed and zipped iterators. */
module Iterators {
  import opened Values

  datatype Item = Num(i: int) | Elem(v: nat) | Tup(items: seq<Item>)

  /** What an iterator goes over, as it was made: start is where the iterator it wraps
      stood then. */
  datatype Shape =
    | Steps(begin: int, end: int, step: int)
    | Elements(xs: seq<Item>)
    | Backwards(of: Shape, start: int)
    | Zipped(parts: seq<Part>)

  datatype Part = Part(of: Shape, start: int)

  /** Ranges do not stand still. */
  predicate Sound(s: Shape) {
    match s
    case Steps(_, _, step) => step != 0
    case Elements(_) => true
    case Backwards(of, _) => Sound(of)
    case Zipped(parts) => forall i :: 0 <= i < |parts| ==> Sound(parts[i].of)
  }

  predicate InWindow(begin: int, end: int, current: int) {
    if begin <= end then begin <= current < end else end < current <= begin
  }

  function StepsSize(begin: int, end: int, step: int): nat
    requires step != 0
  {
    var diff := end - begin;
    if (step < 0) != (diff < 0) then if diff != 0 then 1 else 0
    else
      var extra := if TruncMod(Abs(diff), step) != 0 then 1 else 0;
      QuotientIsSize(diff, step);
      TruncDiv(diff, step) + extra
  }

  lemma QuotientIsSize(diff: int, step: int)
    requires step != 0 && ((step < 0) == (diff < 0))
    ensures TruncDiv(diff, step) == Abs(diff) / Abs(step)
  {
    if diff == 0 { assert Abs(diff) / Abs(step) == 0; }
  }

  function Size(s: Shape): nat
    requires Sound(s)
    decreases s, 1
  {
    match s
    case Steps(b, e, st) => StepsSize(b, e, st)
    case Elements(xs) => |xs|
    case Backwards(of, _) => Size(of)
    case Zipped(parts) => if parts == [] then 0 else MinSize(s, |parts|)
  }

  function MinSize(s: Shape, n: nat): nat
    requires Sound(s) && s.Zipped? && 1 <= n <= |s.parts|
    decreases s, 0, n
  {
    var size := Size(s.parts[n - 1].of);
    if n == 1 || size < MinSize(s, n - 1) then size else MinSize(s, n - 1)
  }

  /** The value k moves away from where the iterator was made; None is the stop value. */
  function ItemAt(s: Shape, k: int): Option<Item>
    requires Sound(s)
    decreases s, 1
  {
    match s
    case Steps(b, e, st) => if InWindow(b, e, b + k * st) then Some(Num(b + k * st)) else None
    case Elements(xs) => if 0 <= k < |xs| then Some(xs[k]) else None
    case Backwards(of, start) => ItemAt(of, start + Size(of) - 1 - k)
    case Zipped(parts) =>
      match TupleAt(s, |parts|, k)
      case Some(items) => Some(Tup(items))
      case None => None
  }

  /** The values of the first n parts, unless one has stopped. */
  function TupleAt(s: Shape, n: nat, k: int): (r: Option<seq<Item>>)
    requires Sound(s) && s.Zipped? && n <= |s.parts|
    ensures r == None ==> exists i :: 0 <= i < n && PartAt(s, i, k) == None
    ensures r.Some? ==> |r.value| == n
    ensures r.Some? ==> forall i :: 0 <= i < n ==> Some(r.value[i]) == PartAt(s, i, k)
    decreases s, 0, n + 1
  {
    if n == 0 then Some([])
    else
      var items := TupleAt(s, n - 1, k);
      var item := PartAt(s, n - 1, k);
      if items == None || item == None then None else Some(items.value + [item.value])
  }

  function PartAt(s: Shape, i: nat, k: int): Option<Item>
    requires Sound(s) && s.Zipped? && i < |s.parts|
    decreases s, 0, 0
  {
    ItemAt(s.parts[i].of, s.parts[i].start + k)
  }

  /** A container gives its elements in their order, and then stops. */
  lemma ElementsGive(xs: seq<Item>)
    ensures Gives(Elements(xs), 0, |xs|) && Size(Elements(xs)) == |xs|
    ensures forall k :: 0 <= k < |xs| ==> ItemAt(Elements(xs), k) == Some(xs[k])
    ensures forall k :: k < 0 || k >= |xs| ==> ItemAt(Elements(xs), k) == None
    ensures forall k :: 0 <= k < |xs| ==> ItemAt(Backwards(Elements(xs), 0), k) == Some(xs[|xs| - 1 - k])
  {
  }

  /** A range starts at its begin, each value is one step from the one before, and it
      stops when its end is reached or passed, or its begin is left behind. */
  lemma RangeGives(begin: int, end: int, step: int, k: int)
    requires step != 0
    ensures var r := Steps(begin, end, step);
      && (begin != end ==> ItemAt(r, 0) == Some(Num(begin))) && (begin == end ==> ItemAt(r, 0) == None)
      && (ItemAt(r, k).Some? && ItemAt(r, k + 1).Some? ==> ItemAt(r, k + 1).value.i == ItemAt(r, k).value.i + step)
      && (ItemAt(r, k).Some? && begin < end ==>
            (ItemAt(r, k + 1) == None <==>
               ItemAt(r, k).value.i + step >= end || ItemAt(r, k).value.i + step < begin))
      && (ItemAt(r, k).Some? && begin > end ==>
            (ItemAt(r, k + 1) == None <==>
               ItemAt(r, k).value.i + step <= end || ItemAt(r, k).value.i + step > begin))
  {
    assert (k + 1) * step == k * step + step;
  }

  /** Counting up and down by one. */
  lemma CountingGives(begin: int, n: nat, k: nat)
    ensures ItemAt(Steps(begin, begin + n, 1), k) == if k < n then Some(Num(begin + k)) else None
    ensures ItemAt(Steps(begin, begin - n, -1), k) == if k < n then Some(Num(begin - k)) else None
  {
    assert k * -1 == 0 - k;
  }

  function Ahead(s: Shape, start: int, k: int): Option<Item>
    requires Sound(s)
  {
    ItemAt(s, start + k)
  }

  /** From there on the iterator gives exactly n values and then stops. */
  ghost predicate Gives(s: Shape, start: int, n: nat)
    requires Sound(s)
  {
    (forall k :: 0 <= k < n ==> Ahead(s, start, k).Some?) && Ahead(s, start, n) == None
  }

  lemma CeilingBound(d: nat, st: nat, k: int)
    requires st > 0
    ensures k * st < d <==> k < d / st + if d % st != 0 then 1 else 0
  {
    var q, r := d / st, d % st;
    assert d == q * st + r;
    if k <= q { assert k * st <= q * st; } else { assert k * st >= (q + 1) * st; }
    if k < q { assert k * st <= (q - 1) * st; }
  }

  lemma ModulusSign(d: nat, step: int)
    requires step != 0
    ensures TruncMod(d, step) == d % Abs(step)
  {
    if step < 0 {
      assert TruncDiv(d, step) == -(d / -step);
      assert -(d / -step) * step == (d / -step) * -step;
    }
  }

  lemma StepsSizeIs(begin: int, end: int, step: int)
    requires step != 0
    ensures var d := end - begin;
      StepsSize(begin, end, step) ==
        if (step < 0) != (d < 0) then if d != 0 then 1 else 0
        else Abs(d) / Abs(step) + if Abs(d) % Abs(step) != 0 then 1 else 0
  {
    var diff := end - begin;
    if (step < 0) == (diff < 0) {
      QuotientIsSize(diff, step);
      ModulusSign(Abs(diff), step);
    }
  }

  /** In all sign cases the size of a range is the number of values it gives. */
  lemma RangeGivesSize(begin: int, end: int, step: int)
    requires step != 0
    ensures Gives(Steps(begin, end, step), 0, Size(Steps(begin, end, step)))
  {
    var s, d := Steps(begin, end, step), end - begin;
    var n := Size(s);
    StepsSizeIs(begin, end, step);
    forall k | 0 <= k <= n ensures Ahead(s, 0, k).Some? <==> k < n {
      CeilingBound(Abs(d), Abs(step), k);
      if (step < 0) == (d < 0) {
        assert k * step == if step < 0 then -(k * Abs(step)) else k * Abs(step);
        assert k * Abs(step) >= 0;
      }
    }
  }

  /** A reversed iterator gives the values of a fresh one backwards just when nothing
      stands before its first value. */
  lemma ReversedGives(s: Shape)
    requires Sound(s) && Gives(s, 0, Size(s))
    ensures var r := Backwards(s, 0);
      && Size(r) == Size(s) && (forall k :: 0 <= k < Size(s) ==> ItemAt(r, k) == ItemAt(s, Size(s) - 1 - k))
      && (Gives(r, 0, Size(r)) <==> ItemAt(s, -1) == None)
  {
    var r := Backwards(s, 0);
    forall k | 0 <= k < Size(s) ensures Ahead(r, 0, k).Some? { assert Ahead(s, 0, Size(s) - 1 - k).Some?; }
    assert Ahead(r, 0, Size(r)) == ItemAt(s, -1);
  }

  /** For ranges: the step points towards the end, or passes it at once. */
  lemma ReversedRangeGivesExactly(begin: int, end: int, step: int)
    requires step != 0
    ensures Gives(Backwards(Steps(begin, end, step), 0), 0, Size(Steps(begin, end, step)))
       <==> begin == end || ((step > 0) == (end > begin)) || Abs(step) >= Abs(end - begin)
  {
    var s := Steps(begin, end, step);
    RangeGivesSize(begin, end, step);
    ReversedGives(s);
    assert begin + -1 * step == begin - step;
    assert ItemAt(s, -1).Some? <==> InWindow(begin, end, begin - step);
  }

  lemma {:induction false} MinSizeIs(s: Shape, n: nat)
    requires Sound(s) && s.Zipped? && 1 <= n <= |s.parts|
    ensures forall i :: 0 <= i < n ==> MinSize(s, n) <= Size(s.parts[i].of)
    ensures exists i :: 0 <= i < n && MinSize(s, n) == Size(s.parts[i].of)
    decreases n
  {
    if n > 1 { MinSizeIs(s, n - 1); }
  }

  ghost predicate PartsGive(s: Shape)
    requires Sound(s) && s.Zipped?
  {
    forall i :: 0 <= i < |s.parts| ==> Gives(s.parts[i].of, s.parts[i].start, Size(s.parts[i].of))
  }

  /** Zipping fresh iterators gives as many tuples as the shortest of them has values; each
      holds the values of all at that place. */
  lemma ZippedGives(s: Shape)
    requires Sound(s) && s.Zipped? && s.parts != [] && PartsGive(s)
    ensures Gives(s, 0, Size(s))
    ensures forall k :: 0 <= k < Size(s) ==> ZipAt(s, k)
  {
    hide Size, ItemAt, PartAt, Ahead;
    var n := Size(s);
    ZippedSize(s);
    forall k | 0 <= k < n ensures Ahead(s, 0, k).Some? && ZipAt(s, k) { ZippedTuple(s, k); }
    ZippedEnd(s);
  }

  lemma ZippedSize(s: Shape)
    requires Sound(s) && s.Zipped? && s.parts != []
    ensures forall i :: 0 <= i < |s.parts| ==> Size(s) <= Size(s.parts[i].of)
    ensures exists i :: 0 <= i < |s.parts| && Size(s) == Size(s.parts[i].of)
  {
    MinSizeIs(s, |s.parts|);
  }

  lemma ZippedTuple(s: Shape, k: nat)
    requires Sound(s) && s.Zipped? && s.parts != [] && PartsGive(s) && k < Size(s)
    ensures Ahead(s, 0, k).Some? && ZipAt(s, k)
  {
    hide Size;
    ZippedSize(s);
    forall i | 0 <= i < |s.parts| ensures PartAt(s, i, k).Some? {
      assert Gives(s.parts[i].of, s.parts[i].start, Size(s.parts[i].of));
      assert Ahead(s.parts[i].of, s.parts[i].start, k).Some?;
    }
    assert TupleAt(s, |s.parts|, k).Some?;
  }

  lemma ZippedEnd(s: Shape)
    requires Sound(s) && s.Zipped? && s.parts != [] && PartsGive(s)
    ensures Ahead(s, 0, Size(s)) == None
  {
    hide Size;
    ZippedSize(s);
    var n := Size(s);
    var i :| 0 <= i < |s.parts| && n == Size(s.parts[i].of);
    assert Gives(s.parts[i].of, s.parts[i].start, n);
    assert Ahead(s.parts[i].of, s.parts[i].start, n) == PartAt(s, i, n);
    assert TupleAt(s, |s.parts|, n) == None;
  }

  ghost predicate ZipAt(s: Shape, k: int)
    requires Sound(s) && s.Zipped?
  {
    var r := ItemAt(s, k);
    && r.Some? && r.value.Tup? && |r.value.items| == |s.parts|
    && forall i :: 0 <= i < |s.parts| ==> Some(r.value.items[i]) == PartAt(s, i, k)
  }

  /** Zipping nothing gives empty tuples and never stops, though its size is zero. */
  lemma ZippedNothing(k: int)
    ensures Size(Zipped([])) == 0 && ItemAt(Zipped([]), k) == Some(Tup([]))
  {
  }

  datatype Source =
    | Range(begin: int, end: int, step: int)
    | Contiguous(xs: seq<Item>)
    | Reversed(ref: Iterator)
    | Combined(iters: seq<Iterator>)

  /** An iterator object; current is the value of a range, the index into a container. An
      iterator that wraps others keeps its place in them. */
  class Iterator {
    const source: Source
    var current: int
    ghost const shape: Shape
    ghost const repr: set<Iterator>
    ghost const depth: nat
    ghost var moved: int

    ghost predicate Valid()
      reads repr
      decreases depth, 1
    {
      && this in repr && Sound(shape)
      && match source
         case Range(b, e, s) => shape == Steps(b, e, s) && current == b + moved * s
         case Contiguous(xs) => shape == Elements(xs) && current == moved
         case Reversed(ref) =>
           && Inside(ref) && shape.Backwards? && shape.of == ref.shape
           && ref.moved == shape.start + Size(ref.shape) - 1 - moved
         case Combined(iters) =>
           && shape.Zipped? && |shape.parts| == |iters|
           && (forall i :: 0 <= i < |iters| ==> Inside(iters[i]) && shape.parts[i].of == iters[i].shape)
           && (forall i :: 0 <= i < |iters| ==> iters[i].moved == shape.parts[i].start + moved)
           && Disjoint(iters)
    }

    /** A wrapped iterator is not part of a circle. */
    ghost predicate Inside(it: Iterator)
      reads repr
      decreases depth, 0
    {
      it in repr && it.repr <= repr && this !in it.repr && it.depth < depth && it.Valid()
    }

    constructor NewRange(begin: int, end: int, step: int)
      requires step != 0
      ensures Valid() && fresh(repr) && moved == 0 && shape == Steps(begin, end, step)
    {
      source, current := Range(begin, end, step), begin;
      shape, repr, depth, moved := Steps(begin, end, step), {this}, 0, 0;
    }

    constructor NewContiguous(xs: seq<Item>)
      ensures Valid() && fresh(repr) && moved == 0 && shape == Elements(xs)
    {
      source, current := Contiguous(xs), 0;
      shape, repr, depth, moved := Elements(xs), {this}, 0, 0;
    }

    /** The wrapped iterator is moved to the last of its values. */
    constructor NewReversed(ref: Iterator)
      requires ref.Valid()
      modifies ref.repr
      ensures Valid() && fresh(repr - ref.repr) && moved == 0 && shape == Backwards(ref.shape, old(ref.moved))
    {
      source, current := Reversed(ref), 0;
      shape, repr, depth, moved := Backwards(ref.shape, ref.moved), {this} + ref.repr, ref.depth + 1, 0;
      new;
      var size := ref.GetSize();
      ref.Move(size as int - 1);
    }

    constructor NewCombined(iters: seq<Iterator>)
      requires (forall i :: 0 <= i < |iters| ==> iters[i].Valid()) && Disjoint(iters)
      ensures Valid() && moved == 0 && shape.Zipped? && |shape.parts| == |iters|
      ensures forall i :: 0 <= i < |iters| ==> shape.parts[i] == Part(iters[i].shape, iters[i].moved)
    {
      hide AllRepr, MaxDepth, Size, ItemAt;
      source, current := Combined(iters), 0;
      shape := Zipped(PartsOf(iters));
      repr := {this} + AllRepr(iters);
      depth, moved := MaxDepth(iters) + 1, 0;
      new;
      AllReprHas(iters);
    }

    method GetSize() returns (n: nat)
      requires Valid()
      ensures n == Size(shape)
      decreases depth
    {
      match source
      case Range(b, e, s) => n := StepsSize(b, e, s);
      case Contiguous(xs) => n := |xs|;
      case Reversed(ref) => n := ref.GetSize();
      case Combined(iters) =>
        if iters == [] { return 0; }
        n := iters[0].GetSize();
        for i := 1 to |iters|
          invariant n == MinSize(shape, i)
        {
          var size := iters[i].GetSize();
          if size < n { n := size; }
        }
    }

    /** The value at the current place; None is the stop value. */
    method Get() returns (r: Option<Item>)
      requires Valid()
      ensures r == ItemAt(shape, moved)
      ensures source.Contiguous? ==>
        r == if 0 <= current < |source.xs| then Some(source.xs[current]) else None
      ensures source.Range? ==>
        (r == Some(Num(current)) || r == None)
        && (r.Some? <==> source.begin <= current < source.end || source.end < current <= source.begin)
      decreases depth
    {
      match source
      case Range(b, e, _) => r := if InWindow(b, e, current) then Some(Num(current)) else None;
      case Contiguous(xs) => r := if 0 <= current < |xs| then Some(xs[current]) else None;
      case Reversed(ref) => r := ref.Get();
      case Combined(iters) =>
        var items := [];
        for i := 0 to |iters|
          invariant TupleAt(shape, i, moved) == Some(items)
        {
          var item := iters[i].Get();
          assert item == PartAt(shape, i, moved);
          if item == None { return None; }
          items := items + [item.value];
        }
        r := Some(Tup(items));
    }

    method Move(amount: int)
      requires Valid()
      modifies repr
      ensures Valid() && moved == old(moved) + amount
      decreases depth, 1
    {
      match source
      case Range(b, _, s) =>
        current := current + amount * s;
        moved := moved + amount;
        assert moved * s == old(moved) * s + amount * s;
      case Contiguous(_) =>
        current := current + amount;
        moved := moved + amount;
      case Reversed(ref) =>
        ref.Move(-amount);
        moved := moved + amount;
      case Combined(iters) =>
        MoveAll(iters, amount, depth);
        moved := moved + amount;
    }

    /** next: the current value, then one step on; a reversed iterator also moves past
        the stop. */
    method Next() returns (r: Option<Item>)
      requires Valid()
      modifies repr
      ensures Valid() && r == old(ItemAt(shape, moved))
      ensures moved == old(moved) + if r.Some? || source.Reversed? then 1 else 0
    {
      r := Get();
      if r.Some? || source.Reversed? { Move(1); }
    }

    /** Taking values until the stop. */
    method Drain(ghost n: nat) returns (items: seq<Item>)
      requires Valid() && Gives(shape, moved, n)
      modifies repr
      ensures Valid() && |items| == n
      ensures forall k :: 0 <= k < n ==> Some(items[k]) == Ahead(shape, old(moved), k)
    {
      items := [];
      var next := Get();
      while next.Some?
        invariant Valid() && |items| <= n && moved == old(moved) + |items|
        invariant forall k :: 0 <= k < |items| ==> Some(items[k]) == Ahead(shape, old(moved), k)
        invariant next == Ahead(shape, old(moved), |items|)
        decreases n - |items|
      {
        next := Next();
        items := items + [next.value];
        next := Get();
      }
    }
  }

  ghost function PartsOf(iters: seq<Iterator>): (parts: seq<Part>)
    reads iters
    ensures |parts| == |iters|
    ensures forall i :: 0 <= i < |iters| ==> parts[i] == Part(iters[i].shape, iters[i].moved)
  {
    seq(|iters|, i requires 0 <= i < |iters| reads iters => Part(iters[i].shape, iters[i].moved))
  }

  /** Every sub-iterator is moved, each on its own. */
  method MoveAll(iters: seq<Iterator>, amount: int, ghost depth: nat)
    requires forall k :: 0 <= k < |iters| ==> iters[k].Valid() && iters[k].depth < depth
    requires Disjoint(iters)
    modifies set k, o | 0 <= k < |iters| && o in iters[k].repr :: o
    ensures forall k :: 0 <= k < |iters| ==> iters[k].Valid() && iters[k].moved == old(iters[k].moved) + amount
    decreases depth, 0
  {
    for i := 0 to |iters|
      invariant forall k :: 0 <= k < |iters| ==> iters[k].Valid()
      invariant forall k :: 0 <= k < i ==> iters[k].moved == old(iters[k].moved) + amount
      invariant forall k :: i <= k < |iters| ==> iters[k].moved == old(iters[k].moved)
    {
      assert forall k :: 0 <= k < |iters| && k != i ==> iters[k].repr !! iters[i].repr && iters[k] in iters[k].repr;
      iters[i].Move(amount);
    }
  }

  ghost predicate Disjoint(iters: seq<Iterator>) {
    forall i, j :: 0 <= i < j < |iters| ==> iters[i].repr !! iters[j].repr
  }

  ghost function AllRepr(iters: seq<Iterator>): set<Iterator> {
    if iters == [] then {} else AllRepr(iters[..|iters| - 1]) + iters[|iters| - 1].repr
  }

  ghost function MaxDepth(iters: seq<Iterator>): nat {
    if iters == [] then 0
    else
      var d := MaxDepth(iters[..|iters| - 1]);
      if d < iters[|iters| - 1].depth then iters[|iters| - 1].depth else d
  }

  lemma {:induction false} AllReprHas(iters: seq<Iterator>)
    ensures forall i :: 0 <= i < |iters| ==> iters[i].repr <= AllRepr(iters) && iters[i].depth <= MaxDepth(iters)
  {
    if iters != [] {
      var front := iters[..|iters| - 1];
      AllReprHas(front);
      assert forall i :: 0 <= i < |front| ==> iters[i] == front[i];
    }
  }
}
