/** The order of values behind the comparison operators, sorting and map keys, for finitely
    nested values without floats, maps and structs that bring a comparison of their own. */
module Comparison {
  /** Values that only their kind tells apart. */
  datatype Kind =
    | NullKind | StopKind | IStreamKind | OStreamKind | FunctionKind | IteratorKind | CoroutineKind
    | NativeKind | ClockKind | StructKind | RngKind

  datatype Cell =
    | BoolCell(b: bool)
    | IntCell(i: int)
    | CharCell(c: int)
    | TypeCell(id: nat)
    | Text(s: seq<nat>)
    | ArrayCell(xs: seq<Cell>)
    | TupleCell(xs: seq<Cell>)
    | QueueCell(xs: seq<Cell>)
    | StackCell(xs: seq<Cell>)
    | Plain(kind: Kind)

  function KindCode(k: Kind): nat {
    match k
    case NullKind => 0x00
    case StopKind => 0x01
    case IStreamKind => 0x30
    case OStreamKind => 0x31
    case FunctionKind => 0x40
    case IteratorKind => 0x41
    case CoroutineKind => 0x42
    case NativeKind => 0x43
    case ClockKind => 0x50
    case StructKind => 0x60
    case RngKind => 0x80
  }

  function Code(v: Cell): nat {
    match v
    case TypeCell(_) => 0x02
    case BoolCell(_) => 0x10
    case IntCell(_) => 0x11
    case CharCell(_) => 0x13
    case ArrayCell(_) => 0x20
    case Text(_) => 0x21
    case TupleCell(_) => 0x22
    case QueueCell(_) => 0x70
    case StackCell(_) => 0x71
    case Plain(k) => KindCode(k)
  }

  predicate IsNumber(v: Cell) { v.BoolCell? || v.IntCell? || v.CharCell? }

  function Num(v: Cell): int
    requires IsNumber(v)
  {
    match v
    case BoolCell(b) => if b then 1 else 0
    case IntCell(i) => i
    case CharCell(c) => c
  }

  predicate HasElements(v: Cell) { v.ArrayCell? || v.TupleCell? || v.QueueCell? || v.StackCell? }

  function Cmp(a: int, b: int): int {
    if a < b then -1 else if a > b then 1 else 0
  }

  /** Strings compare by their bytes, then a prefix is less. */
  function Lex(s: seq<nat>, t: seq<nat>): int {
    if s == [] || t == [] then Cmp(|s|, |t|)
    else if s[0] != t[0] then Cmp(s[0], t[0])
    else Lex(s[1..], t[1..])
  }

  /** compare: numbers by value, other values of one type by content, else by type code. */
  function CompareSpec(l: Cell, r: Cell): int
    decreases l, 2
  {
    if IsNumber(l) && IsNumber(r) then Cmp(Num(l), Num(r))
    else if Code(l) == Code(r) then ObjectSpec(l, r)
    else Cmp(Code(l), Code(r))
  }

  /** Containers compare by size, then by the first elements that differ. */
  function ObjectSpec(l: Cell, r: Cell): int
    requires Code(l) == Code(r)
    decreases l, 1
  {
    if l.Text? then Lex(l.s, r.s)
    else if HasElements(l) then
      if |l.xs| != |r.xs| then Cmp(|l.xs|, |r.xs|) else ElementsSpec(l, r, 0)
    else if l.TypeCell? then Cmp(l.id, r.id)
    else 0
  }

  function ElementsSpec(l: Cell, r: Cell, i: nat): int
    requires HasElements(l) && HasElements(r) && |l.xs| == |r.xs| && i <= |l.xs|
    decreases l, 0, |l.xs| - i
  {
    if i == |l.xs| then 0
    else
      var c := CompareSpec(l.xs[i], r.xs[i]);
      if c != 0 then c else ElementsSpec(l, r, i + 1)
  }

  /** strict_compare, which orders map keys: types first, also among numbers. */
  function StrictSpec(l: Cell, r: Cell): int {
    if Code(l) != Code(r) then Cmp(Code(l), Code(r))
    else if IsNumber(l) then Cmp(Num(l), Num(r))
    else ObjectSpec(l, r)
  }

  method Compare(l: Cell, r: Cell) returns (o: int)
    ensures o == CompareSpec(l, r)
    ensures (o < 0 <==> Less(l, r)) && (o == 0 <==> Same(l, r)) && (o > 0 <==> Less(r, l))
    decreases l, 1
  {
    CompareIsLess(l, r);
    CompareFlips(l, r);
    if IsNumber(l) && IsNumber(r) { return Cmp(Num(l), Num(r)); }
    if Code(l) == Code(r) {
      o := ObjectCompare(l, r);
    } else {
      o := Cmp(Code(l), Code(r));
    }
  }

  method ObjectCompare(l: Cell, r: Cell) returns (o: int)
    requires Code(l) == Code(r)
    ensures o == ObjectSpec(l, r)
    ensures !IsNumber(l) ==> (o < 0 <==> Less(l, r)) && (o == 0 <==> Same(l, r)) && (o > 0 <==> Less(r, l))
    decreases l, 0
  {
    CompareIsLess(l, r);
    CompareFlips(l, r);
    if l.Text? { return Lex(l.s, r.s); }
    if HasElements(l) {
      if |l.xs| != |r.xs| { return Cmp(|l.xs|, |r.xs|); }
      for i := 0 to |l.xs|
        invariant ElementsSpec(l, r, 0) == ElementsSpec(l, r, i)
      {
        var c := Compare(l.xs[i], r.xs[i]);
        if c != 0 { return c; }
      }
      return 0;
    }
    o := if l.TypeCell? then Cmp(l.id, r.id) else 0;
  }

  method StrictCompare(l: Cell, r: Cell) returns (o: int)
    ensures o == StrictSpec(l, r)
    ensures Code(l) == Code(r) ==> (o < 0 <==> Less(l, r)) && (o == 0 <==> Same(l, r))
    ensures Code(l) != Code(r) ==> (o < 0 <==> Code(l) < Code(r)) && o != 0
  {
    StrictIsLess(l, r);
    if Code(l) == Code(r) {
      if IsNumber(l) { return Cmp(Num(l), Num(r)); }
      o := ObjectCompare(l, r);
    } else {
      o := Cmp(Code(l), Code(r));
    }
  }

  /** When two values are equal: the same number, or the same type and content. */
  predicate Same(l: Cell, r: Cell)
    decreases l
  {
    if IsNumber(l) || IsNumber(r) then IsNumber(l) && IsNumber(r) && Num(l) == Num(r)
    else if HasElements(l) then
      Code(l) == Code(r) && |l.xs| == |r.xs| && forall i :: 0 <= i < |l.xs| ==> Same(l.xs[i], r.xs[i])
    else l == r
  }

  lemma {:induction false} LexIs(s: seq<nat>, t: seq<nat>)
    ensures Lex(s, t) == -Lex(t, s) && (Lex(s, t) == 0 <==> s == t)
  {
    if s != [] && t != [] && s[0] == t[0] {
      LexIs(s[1..], t[1..]);
      assert s == [s[0]] + s[1..] && t == [t[0]] + t[1..];
    }
  }

  lemma {:induction false} LexTransitive(s: seq<nat>, t: seq<nat>, u: seq<nat>)
    requires Lex(s, t) <= 0 && Lex(t, u) <= 0
    ensures Lex(s, u) <= 0
  {
    if s != [] && t != [] && u != [] && s[0] == t[0] == u[0] { LexTransitive(s[1..], t[1..], u[1..]); }
  }

  /** Swapping the operands flips the order, and exactly values that are the same are equal. */
  lemma {:induction false} CompareFlips(l: Cell, r: Cell)
    ensures CompareSpec(l, r) == -CompareSpec(r, l)
    ensures CompareSpec(l, r) == 0 <==> Same(l, r)
    decreases l, 2
  {
    if !(IsNumber(l) && IsNumber(r)) && Code(l) == Code(r) {
      if l.Text? {
        LexIs(l.s, r.s);
      } else if HasElements(l) && |l.xs| == |r.xs| {
        ElementsFlip(l, r, 0);
      }
    }
  }

  lemma {:induction false} ElementsFlip(l: Cell, r: Cell, i: nat)
    requires HasElements(l) && HasElements(r) && |l.xs| == |r.xs| && i <= |l.xs|
    ensures ElementsSpec(l, r, i) == -ElementsSpec(r, l, i)
    ensures ElementsSpec(l, r, i) == 0 <==> forall k :: i <= k < |l.xs| ==> Same(l.xs[k], r.xs[k])
    decreases l, 0, |l.xs| - i
  {
    if i < |l.xs| {
      CompareFlips(l.xs[i], r.xs[i]);
      ElementsFlip(l, r, i + 1);
    }
  }

  /** The order is transitive, and strict in the whole when it is in a part. */
  lemma {:induction false} CompareTransitive(a: Cell, b: Cell, c: Cell)
    requires CompareSpec(a, b) <= 0 && CompareSpec(b, c) <= 0
    ensures CompareSpec(a, c) <= 0
    ensures CompareSpec(a, c) == 0 ==> CompareSpec(a, b) == 0 && CompareSpec(b, c) == 0
    decreases a, 2
  {
    if IsNumber(a) && IsNumber(b) && IsNumber(c) {
    } else if Code(a) == Code(b) == Code(c) {
      if a.Text? {
        LexTransitive(a.s, b.s, c.s);
        LexIs(a.s, b.s);
        LexIs(b.s, c.s);
        LexIs(a.s, c.s);
        if a.s == c.s { LexIs(b.s, a.s); }
      } else if HasElements(a) && |a.xs| == |b.xs| == |c.xs| {
        ElementsTransitive(a, b, c, 0);
      }
    }
  }

  lemma {:induction false} ElementsTransitive(a: Cell, b: Cell, c: Cell, i: nat)
    requires HasElements(a) && HasElements(b) && HasElements(c) && |a.xs| == |b.xs| == |c.xs| && i <= |a.xs|
    requires ElementsSpec(a, b, i) <= 0 && ElementsSpec(b, c, i) <= 0
    ensures ElementsSpec(a, c, i) <= 0
    ensures ElementsSpec(a, c, i) == 0 ==> ElementsSpec(a, b, i) == 0 && ElementsSpec(b, c, i) == 0
    decreases a, 0, |a.xs| - i
  {
    if i < |a.xs| {
      CompareTransitive(a.xs[i], b.xs[i], c.xs[i]);
      if CompareSpec(a.xs[i], b.xs[i]) == 0 && CompareSpec(b.xs[i], c.xs[i]) == 0 {
        CompareEqualTransitive(a.xs[i], b.xs[i], c.xs[i]);
        ElementsTransitive(a, b, c, i + 1);
      }
    }
  }

  lemma {:induction false} CompareEqualTransitive(a: Cell, b: Cell, c: Cell)
    requires CompareSpec(a, b) == 0 && CompareSpec(b, c) == 0
    ensures CompareSpec(a, c) == 0
  {
    CompareFlips(a, b);
    CompareFlips(b, c);
    CompareFlips(a, c);
    SameTransitive(a, b, c);
  }

  lemma {:induction false} SameTransitive(a: Cell, b: Cell, c: Cell)
    requires Same(a, b) && Same(b, c)
    ensures Same(a, c)
    decreases a
  {
    if HasElements(a) {
      forall i | 0 <= i < |a.xs| ensures Same(a.xs[i], c.xs[i]) { SameTransitive(a.xs[i], b.xs[i], c.xs[i]); }
    }
  }

  /** The order of map keys is one of the same kind, and finer: equal keys are equal values. */
  lemma StrictIsOrder(a: Cell, b: Cell, c: Cell)
    ensures StrictSpec(a, a) == 0 && StrictSpec(a, b) == -StrictSpec(b, a)
    ensures StrictSpec(a, b) <= 0 && StrictSpec(b, c) <= 0 ==> StrictSpec(a, c) <= 0
    ensures StrictSpec(a, b) == 0 <==> Same(a, b) && Code(a) == Code(b)
  {
    SameReflexive(a);
    CompareFlips(a, a);
    CompareFlips(a, b);
    if StrictSpec(a, b) <= 0 && StrictSpec(b, c) <= 0 && Code(a) == Code(b) == Code(c) { CompareTransitive(a, b, c); }
  }

  lemma {:induction false} SameReflexive(a: Cell)
    ensures Same(a, a)
    decreases a
  {
    if HasElements(a) {
      forall i | 0 <= i < |a.xs| ensures Same(a.xs[i], a.xs[i]) { SameReflexive(a.xs[i]); }
    }
  }

  /** A string is less by its first byte that differs, or as a proper prefix. */
  ghost predicate BytesBefore(s: seq<nat>, t: seq<nat>) {
    || (|s| < |t| && s == t[..|s|])
    || exists k :: 0 <= k < |s| && k < |t| && s[..k] == t[..k] && s[k] < t[k]
  }

  /** When a value is less than another: a smaller number; a type that comes first; of one
      type, fewer elements, or as many and the first that is not the same is less. */
  ghost predicate Less(l: Cell, r: Cell)
    decreases l
  {
    if IsNumber(l) && IsNumber(r) then Num(l) < Num(r)
    else if Code(l) != Code(r) then Code(l) < Code(r)
    else if l.Text? then BytesBefore(l.s, r.s)
    else if HasElements(l) then
      || |l.xs| < |r.xs|
      || (|l.xs| == |r.xs| && exists k ::
            0 <= k < |l.xs| && Less(l.xs[k], r.xs[k]) && forall j :: 0 <= j < k ==> Same(l.xs[j], r.xs[j]))
    else l.TypeCell? && l.id < r.id
  }

  lemma {:induction false} LexIsBefore(s: seq<nat>, t: seq<nat>)
    ensures Lex(s, t) < 0 <==> BytesBefore(s, t)
  {
    if s != [] && t != [] && s[0] == t[0] {
      LexIsBefore(s[1..], t[1..]);
      if BytesBefore(s[1..], t[1..]) { BeforeWith(s, t); }
      if BytesBefore(s, t) { BeforeWithout(s, t); }
    } else if s != [] && t != [] {
      if s[0] < t[0] { assert s[..0] == t[..0]; }
    }
  }

  lemma BeforeWith(s: seq<nat>, t: seq<nat>)
    requires s != [] && t != [] && s[0] == t[0] && BytesBefore(s[1..], t[1..])
    ensures BytesBefore(s, t)
  {
    var a, b := s[1..], t[1..];
    if |a| < |b| && a == b[..|a|] {
      assert t[..|s|] == [t[0]] + b[..|a|] && s == [s[0]] + a;
    } else {
      var k :| 0 <= k < |a| && k < |b| && a[..k] == b[..k] && a[k] < b[k];
      assert s[..k + 1] == [s[0]] + a[..k] && t[..k + 1] == [t[0]] + b[..k];
      assert s[k + 1] < t[k + 1];
    }
  }

  lemma BeforeWithout(s: seq<nat>, t: seq<nat>)
    requires s != [] && t != [] && s[0] == t[0] && BytesBefore(s, t)
    ensures BytesBefore(s[1..], t[1..])
  {
    var a, b := s[1..], t[1..];
    if |s| < |t| && s == t[..|s|] {
      assert b[..|a|] == t[..|s|][1..];
    } else {
      var k :| 0 <= k < |s| && k < |t| && s[..k] == t[..k] && s[k] < t[k];
      assert a[..k - 1] == s[..k][1..] && b[..k - 1] == t[..k][1..];
      assert a[k - 1] < b[k - 1];
    }
  }

  /** The comparison says less just where that is so. */
  lemma {:induction false} CompareIsLess(l: Cell, r: Cell)
    ensures CompareSpec(l, r) < 0 <==> Less(l, r)
    ensures CompareSpec(l, r) > 0 <==> Less(r, l)
    decreases l, 2
  {
    CompareFlips(l, r);
    ObjectsLess(l, r);
    ObjectsLess(r, l);
  }

  lemma {:induction false} ObjectsLess(l: Cell, r: Cell)
    ensures CompareSpec(l, r) < 0 <==> Less(l, r)
    decreases l, 1
  {
    if !(IsNumber(l) && IsNumber(r)) && Code(l) == Code(r) {
      if l.Text? {
        LexIsBefore(l.s, r.s);
      } else if HasElements(l) && |l.xs| == |r.xs| {
        ElementsLess(l, r, 0);
      }
    }
  }

  lemma {:induction false} ElementsLess(l: Cell, r: Cell, i: nat)
    requires HasElements(l) && HasElements(r) && |l.xs| == |r.xs| && i <= |l.xs|
    ensures ElementsSpec(l, r, i) < 0 <==>
      exists k :: i <= k < |l.xs| && Less(l.xs[k], r.xs[k]) && forall j :: i <= j < k ==> Same(l.xs[j], r.xs[j])
    decreases l, 0, |l.xs| - i
  {
    if i < |l.xs| {
      ObjectsLess(l.xs[i], r.xs[i]);
      ElementsLess(l, r, i + 1);
      CompareFlips(l.xs[i], r.xs[i]);
    }
  }

  /** Among numbers the kind does not matter: booleans are 0 and 1, characters their codes. */
  lemma NumbersAlike(b: bool, c: int, i: int, j: int)
    ensures CompareSpec(IntCell(i), IntCell(j)) < 0 <==> i < j
    ensures CompareSpec(CharCell(c), IntCell(j)) == CompareSpec(IntCell(c), IntCell(j))
    ensures CompareSpec(BoolCell(b), IntCell(j)) == CompareSpec(IntCell(if b then 1 else 0), IntCell(j))
    ensures CompareSpec(BoolCell(b), CharCell(c)) == CompareSpec(IntCell(if b then 1 else 0), IntCell(c))
  {
  }

  /** The place of a value's type among the types, as the run time lists them. */
  function Rank(v: Cell): nat {
    match v
    case Plain(NullKind) => 0
    case Plain(StopKind) => 1
    case TypeCell(_) => 2
    case BoolCell(_) => 3
    case IntCell(_) => 4
    case CharCell(_) => 5
    case ArrayCell(_) => 6
    case Text(_) => 7
    case TupleCell(_) => 8
    case Plain(IStreamKind) => 9
    case Plain(OStreamKind) => 10
    case Plain(FunctionKind) => 11
    case Plain(IteratorKind) => 12
    case Plain(CoroutineKind) => 13
    case Plain(NativeKind) => 14
    case Plain(ClockKind) => 15
    case Plain(StructKind) => 16
    case QueueCell(_) => 17
    case StackCell(_) => 18
    case Plain(RngKind) => 19
  }

  /** As map keys, and unless both are numbers also otherwise, values of different types
      are in the order of their types, whatever they are. */
  lemma TypesInOrder(l: Cell, r: Cell)
    requires Rank(l) < Rank(r)
    ensures StrictSpec(l, r) < 0
    ensures !(IsNumber(l) && IsNumber(r)) ==> CompareSpec(l, r) < 0
  {
    hide IsNumber;
    CodesRise(l, r);
  }

  lemma CodesRise(l: Cell, r: Cell)
    ensures Rank(l) < Rank(r) <==> Code(l) < Code(r)
  {
  }

  /** As map keys, values of one type are in the order of the comparison, and numbers of
      different types are not equal. */
  lemma StrictIsLess(l: Cell, r: Cell)
    ensures Code(l) == Code(r) ==> (StrictSpec(l, r) < 0 <==> Less(l, r)) && (StrictSpec(l, r) == 0 <==> Same(l, r))
    ensures Code(l) != Code(r) ==> (StrictSpec(l, r) < 0 <==> Code(l) < Code(r)) && StrictSpec(l, r) != 0
  {
    CompareIsLess(l, r);
    CompareFlips(l, r);
  }
}
