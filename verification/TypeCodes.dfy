/** Type expressions, their code in the instruction stream, and the table that interns
    decoded types. */
module TypeCodes {
  import opened Binary

  datatype Option<+T> = None | Some(value: T)

  datatype Leaf =
    | Any | NullT | BoolT | CharT | IntT | FloatT | StringT | Tuple | Fx | Coroutine
    | IStream | OStream | Iterator | IteratorStop | Rng | Clock | TypeT

  datatype Container = Array | Queue | Stack

  /** A type as written: the parts of containers and maps may be missing. */
  datatype AstType =
    | Simple(leaf: Leaf)
    | Of(container: Container, contains: Option<AstType>)
    | MapOf(key: Option<AstType>, val: Option<AstType>)
    | TupleOf(types: AstTypes)
    | FxOf(arity: nat)
    | StructOf(members: AstMembers)

  datatype AstTypes = ANil | ACons(head: AstType, tail: AstTypes)
  datatype AstMembers = AmNil | AmCons(id: nat, ty: AstType, rest: AstMembers)

  /** A type as the machine knows it. */
  datatype Ty =
    | TLeaf(leaf: Leaf)
    | TOf(container: Container, sub: Ty)
    | TMap(key: Ty, val: Ty)
    | TTuple(types: Tys)
    | TFx(arity: nat)
    | TStruct(members: TyMembers)

  datatype Tys = TNil | TCons(head: Ty, tail: Tys)
  datatype TyMembers = MNil | MCons(id: nat, ty: Ty, rest: TyMembers)

  function LeafCode(l: Leaf): Byte {
    match l
    case Any => 'x' as int
    case NullT => 'N' as int
    case BoolT => 'b' as int
    case CharT => 'c' as int
    case IntT => 'i' as int
    case FloatT => 'f' as int
    case StringT => 's' as int
    case Tuple => 't' as int
    case Fx => 'F' as int
    case Coroutine => 'C' as int
    case IStream => '>' as int
    case OStream => '<' as int
    case Iterator => 'I' as int
    case IteratorStop => '|' as int
    case Rng => '?' as int
    case Clock => 'H' as int
    case TypeT => ':' as int
  }

  function ContainerCode(c: Container): Byte {
    match c case Array => 'a' as int case Queue => 'Q' as int case Stack => 'S' as int
  }

  const TUPLE_N: Byte := 'T' as int
  const FX_N: Byte := 'X' as int
  const MAP: Byte := 'M' as int
  const STRUCT: Byte := '.' as int

  /** The encoder. */
  function Encode(a: AstType): seq<Byte> {
    match a
    case Simple(l) => [LeafCode(l)]
    case Of(c, sub) => [ContainerCode(c)] + EncodeOptional(sub)
    case MapOf(k, v) => [MAP] + EncodeOptional(k) + EncodeOptional(v)
    case TupleOf(ts) => [TUPLE_N] + Le(CountTypes(ts), 8) + EncodeTypes(ts)
    case FxOf(n) => [FX_N] + Le(n, 8)
    case StructOf(ms) => [STRUCT] + Le(CountMembers(ms), 8) + EncodeMembers(ms)
  }

  function EncodeOptional(o: Option<AstType>): seq<Byte> {
    match o case None => [LeafCode(Any)] case Some(a) => Encode(a)
  }

  function EncodeTypes(ts: AstTypes): seq<Byte> {
    match ts case ANil => [] case ACons(a, tail) => Encode(a) + EncodeTypes(tail)
  }

  function EncodeMembers(ms: AstMembers): seq<Byte> {
    match ms case AmNil => [] case AmCons(id, a, rest) => Le(id, 8) + Encode(a) + EncodeMembers(rest)
  }

  function CountTypes(ts: AstTypes): nat { if ts.ANil? then 0 else 1 + CountTypes(ts.tail) }
  function CountMembers(ms: AstMembers): nat { if ms.AmNil? then 0 else 1 + CountMembers(ms.rest) }

  /** What a written type means: a missing part is any. */
  function Meant(a: AstType): Ty {
    match a
    case Simple(l) => TLeaf(l)
    case Of(c, sub) => TOf(c, MeantOptional(sub))
    case MapOf(k, v) => TMap(MeantOptional(k), MeantOptional(v))
    case TupleOf(ts) => TTuple(MeantTypes(ts))
    case FxOf(n) => TFx(n)
    case StructOf(ms) => TStruct(MeantMembers(ms))
  }

  function MeantOptional(o: Option<AstType>): Ty {
    match o case None => TLeaf(Any) case Some(a) => Meant(a)
  }

  function MeantTypes(ts: AstTypes): Tys {
    match ts case ANil => TNil case ACons(a, tail) => TCons(Meant(a), MeantTypes(tail))
  }

  function MeantMembers(ms: AstMembers): TyMembers {
    match ms case AmNil => MNil case AmCons(id, a, rest) => MCons(id, Meant(a), MeantMembers(rest))
  }

  /** The code of a decoded type, its key in the table. */
  function Code(t: Ty): seq<Byte> {
    match t
    case TLeaf(l) => [LeafCode(l)]
    case TOf(c, sub) => [ContainerCode(c)] + Code(sub)
    case TMap(k, v) => [MAP] + Code(k) + Code(v)
    case TTuple(ts) => [TUPLE_N] + Le(Arity(ts), 8) + Codes(ts)
    case TFx(n) => [FX_N] + Le(n, 8)
    case TStruct(ms) => [STRUCT] + Le(Width(ms), 8) + MemberCodes(ms)
  }

  function Codes(ts: Tys): seq<Byte> {
    match ts case TNil => [] case TCons(t, tail) => Code(t) + Codes(tail)
  }

  function MemberCodes(ms: TyMembers): seq<Byte> {
    match ms case MNil => [] case MCons(id, t, rest) => Le(id, 8) + Code(t) + MemberCodes(rest)
  }

  function Arity(ts: Tys): nat { if ts.TNil? then 0 else 1 + Arity(ts.tail) }
  function Width(ms: TyMembers): nat { if ms.MNil? then 0 else 1 + Width(ms.rest) }

  /** Every number in the type is a 64-bit one. */
  predicate Fits(t: Ty) {
    match t
    case TLeaf(_) => true
    case TOf(_, sub) => Fits(sub)
    case TMap(k, v) => Fits(k) && Fits(v)
    case TTuple(ts) => Arity(ts) < TWO64 && AllFit(ts)
    case TFx(n) => n < TWO64
    case TStruct(ms) => Width(ms) < TWO64 && MembersFit(ms)
  }

  predicate AllFit(ts: Tys) { ts.TCons? ==> Fits(ts.head) && AllFit(ts.tail) }
  predicate MembersFit(ms: TyMembers) { ms.MCons? ==> ms.id < TWO64 && Fits(ms.ty) && MembersFit(ms.rest) }

  /** The encoder writes the code of what the type means. */
  lemma {:induction false} EncodeIsCode(a: AstType)
    ensures Encode(a) == Code(Meant(a))
  {
    match a
    case Simple(_) =>
    case Of(_, sub) => EncodeIsCodeOptional(sub);
    case MapOf(k, v) => EncodeIsCodeOptional(k); EncodeIsCodeOptional(v);
    case TupleOf(ts) => EncodeIsCodes(ts);
    case FxOf(_) =>
    case StructOf(ms) => EncodeIsMemberCodes(ms);
  }

  lemma {:induction false} EncodeIsCodeOptional(o: Option<AstType>)
    ensures EncodeOptional(o) == Code(MeantOptional(o))
  {
    if o.Some? { EncodeIsCode(o.value); }
  }

  lemma {:induction false} EncodeIsCodes(ts: AstTypes)
    ensures EncodeTypes(ts) == Codes(MeantTypes(ts)) && CountTypes(ts) == Arity(MeantTypes(ts))
  {
    if ts.ACons? { EncodeIsCode(ts.head); EncodeIsCodes(ts.tail); }
  }

  lemma {:induction false} EncodeIsMemberCodes(ms: AstMembers)
    ensures EncodeMembers(ms) == MemberCodes(MeantMembers(ms)) && CountMembers(ms) == Width(MeantMembers(ms))
  {
    if ms.AmCons? { EncodeIsCode(ms.ty); EncodeIsMemberCodes(ms.rest); }
  }

  function LeafOf(b: Byte): Option<Leaf> {
    if b == 'x' as int then Some(Any)
    else if b == 'N' as int then Some(NullT)
    else if b == 'b' as int then Some(BoolT)
    else if b == 'c' as int then Some(CharT)
    else if b == 'i' as int then Some(IntT)
    else if b == 'f' as int then Some(FloatT)
    else if b == 's' as int then Some(StringT)
    else if b == 't' as int then Some(Tuple)
    else if b == 'F' as int then Some(Fx)
    else if b == 'C' as int then Some(Coroutine)
    else if b == '>' as int then Some(IStream)
    else if b == '<' as int then Some(OStream)
    else if b == 'I' as int then Some(Iterator)
    else if b == '|' as int then Some(IteratorStop)
    else if b == '?' as int then Some(Rng)
    else if b == 'H' as int then Some(Clock)
    else if b == ':' as int then Some(TypeT)
    else None
  }

  function ContainerOf(b: Byte): Option<Container> {
    if b == 'a' as int then Some(Array)
    else if b == 'Q' as int then Some(Queue)
    else if b == 'S' as int then Some(Stack)
    else None
  }

  function U64At(code: seq<Byte>, pos: nat): Option<nat> {
    if pos + 8 <= |code| then Some(UnLe(code[pos..pos + 8])) else None
  }

  /** The decoder: a type and the position after its code. */
  function Decode(code: seq<Byte>, pos: nat): (r: Option<(Ty, nat)>)
    ensures r.Some? ==> pos < r.value.1 <= |code|
    decreases |code| - pos, 0
  {
    if pos >= |code| then None
    else if LeafOf(code[pos]).Some? then Some((TLeaf(LeafOf(code[pos]).value), pos + 1))
    else if ContainerOf(code[pos]).Some? then
      match Decode(code, pos + 1)
      case Some((t, e)) => Some((TOf(ContainerOf(code[pos]).value, t), e))
      case None => None
    else if code[pos] == MAP then
      match Decode(code, pos + 1)
      case None => None
      case Some((k, mid)) =>
        (match Decode(code, mid)
         case Some((v, e)) => Some((TMap(k, v), e))
         case None => None)
    else if U64At(code, pos + 1).None? then None
    else if code[pos] == FX_N then Some((TFx(U64At(code, pos + 1).value), pos + 9))
    else if code[pos] == TUPLE_N then
      match DecodeTypes(code, pos + 9, U64At(code, pos + 1).value)
      case Some((ts, e)) => Some((TTuple(ts), e))
      case None => None
    else if code[pos] == STRUCT then
      match DecodeMembers(code, pos + 9, U64At(code, pos + 1).value)
      case Some((ms, e)) => Some((TStruct(ms), e))
      case None => None
    else None
  }

  function DecodeTypes(code: seq<Byte>, pos: nat, n: nat): (r: Option<(Tys, nat)>)
    requires pos <= |code|
    ensures r.Some? ==> pos <= r.value.1 <= |code|
    decreases |code| - pos, 1
  {
    if n == 0 then Some((TNil, pos))
    else match Decode(code, pos)
      case None => None
      case Some((t, next)) =>
        match DecodeTypes(code, next, n - 1)
        case Some((ts, e)) => Some((TCons(t, ts), e))
        case None => None
  }

  function DecodeMembers(code: seq<Byte>, pos: nat, n: nat): (r: Option<(TyMembers, nat)>)
    requires pos <= |code|
    ensures r.Some? ==> pos <= r.value.1 <= |code|
    decreases |code| - pos, 1
  {
    if n == 0 then Some((MNil, pos))
    else if U64At(code, pos).None? then None
    else match Decode(code, pos + 8)
      case None => None
      case Some((t, next)) =>
        match DecodeMembers(code, next, n - 1)
        case Some((ms, e)) => Some((MCons(U64At(code, pos).value, t, ms), e))
        case None => None
  }

  ghost predicate At(code: seq<Byte>, pos: nat, part: seq<Byte>) {
    pos + |part| <= |code| && code[pos..pos + |part|] == part
  }

  lemma SplitAt(code: seq<Byte>, pos: nat, a: seq<Byte>, b: seq<Byte>)
    requires At(code, pos, a + b)
    ensures At(code, pos, a) && At(code, pos + |a|, b) && pos + |a| + |b| <= |code|
  {
    assert code[pos..pos + |a|] == code[pos..pos + |a + b|][..|a|];
    assert code[pos + |a|..pos + |a| + |b|] == code[pos..pos + |a + b|][|a|..];
  }

  lemma JoinAt(code: seq<Byte>, pos: nat, a: seq<Byte>, b: seq<Byte>)
    requires At(code, pos, a) && At(code, pos + |a|, b)
    ensures At(code, pos, a + b)
  {
    assert code[pos..pos + |a| + |b|] == code[pos..pos + |a|] + code[pos + |a|..pos + |a| + |b|];
  }

  /** A code is its first byte and the rest. */
  lemma TagAt(code: seq<Byte>, pos: nat, tag: Byte, rest: seq<Byte>)
    requires At(code, pos, [tag] + rest)
    ensures pos < |code| && code[pos] == tag && At(code, pos + 1, rest) && pos + 1 + |rest| <= |code|
  {
    SplitAt(code, pos, [tag], rest);
    assert code[pos..pos + 1][0] == code[pos];
  }

  lemma NumberAt(code: seq<Byte>, pos: nat, n: nat)
    requires n < TWO64 && At(code, pos, Le(n, 8))
    ensures U64At(code, pos) == Some(n)
  {
    EightBytes();
    LeRoundTrip(n, 8);
  }

  lemma NumberIs(code: seq<Byte>, pos: nat)
    requires U64At(code, pos).Some?
    ensures U64At(code, pos).value < TWO64 && At(code, pos, Le(U64At(code, pos).value, 8)) && pos + 8 <= |code|
  {
    EightBytes();
    UnLeRoundTrip(code[pos..pos + 8]);
  }

  /** The five kinds of first bytes are told apart. */
  lemma Tags(l: Leaf, c: Container)
    ensures LeafOf(LeafCode(l)) == Some(l)
    ensures LeafOf(ContainerCode(c)).None? && ContainerOf(ContainerCode(c)) == Some(c)
    ensures forall b: Byte :: b == MAP || b == FX_N || b == TUPLE_N || b == STRUCT ==>
        LeafOf(b).None? && ContainerOf(b).None?
  {
  }

  /** Decoding a code, whatever follows it, gives back the type and stops at its end. */
  lemma {:induction false} DecodeCode(code: seq<Byte>, pos: nat, t: Ty)
    requires Fits(t) && At(code, pos, Code(t))
    ensures Decode(code, pos) == Some((t, pos + |Code(t)|))
    decreases t
  {
    hide At, U64At, LeafOf, ContainerOf, LeafCode, ContainerCode, Le, DecodeTypes, DecodeMembers, Codes, MemberCodes;
    match t
    case TLeaf(l) =>
      Tags(l, Array);
      assert Code(t) == [LeafCode(l)] + [];
      TagAt(code, pos, LeafCode(l), []);
    case TOf(c, sub) =>
      Tags(Any, c);
      TagAt(code, pos, ContainerCode(c), Code(sub));
      DecodeCode(code, pos + 1, sub);
    case TMap(k, v) =>
      assert Code(t) == [MAP] + Code(k) + Code(v);
      DecodeMapCode(code, pos, k, v);
    case TTuple(ts) =>
      NumberedAt(code, pos, TUPLE_N, Arity(ts), Codes(ts));
      DecodeCodes(code, pos + 9, ts);
    case TFx(n) =>
      assert Code(t) == [FX_N] + Le(n, 8) + [];
      NumberedAt(code, pos, FX_N, n, []);
    case TStruct(ms) =>
      NumberedAt(code, pos, STRUCT, Width(ms), MemberCodes(ms));
      DecodeMemberCodes(code, pos + 9, ms);
  }

  lemma {:induction false} DecodeMapCode(code: seq<Byte>, pos: nat, k: Ty, v: Ty)
    requires Fits(k) && Fits(v) && At(code, pos, [MAP] + Code(k) + Code(v))
    ensures Decode(code, pos) == Some((TMap(k, v), pos + 1 + |Code(k)| + |Code(v)|))
    decreases TMap(k, v), 0
  {
    hide At, LeafOf, ContainerOf, Fits, Decode, Code;
    TaggedPair(code, pos, MAP, Code(k), Code(v));
    DecodeCode(code, pos + 1, k);
    DecodeCode(code, pos + 1 + |Code(k)|, v);
    DecodeMapParts(code, pos, k, v, pos + 1 + |Code(k)|, pos + 1 + |Code(k)| + |Code(v)|);
  }

  /** A code that starts with a tag and goes on with two codes. */
  lemma TaggedPair(code: seq<Byte>, pos: nat, tag: Byte, a: seq<Byte>, b: seq<Byte>)
    requires At(code, pos, [tag] + a + b)
    ensures pos < |code| && code[pos] == tag && pos + 1 + |a| <= |code|
    ensures At(code, pos + 1, a) && At(code, pos + 1 + |a|, b)
  {
    hide At;
    SplitAt(code, pos, [tag] + a, b);
    TagAt(code, pos, tag, a);
  }

  lemma DecodeMapParts(code: seq<Byte>, pos: nat, k: Ty, v: Ty, middle: nat, next: nat)
    requires pos < |code| && code[pos] == MAP
    requires Decode(code, pos + 1) == Some((k, middle)) && middle <= |code| && Decode(code, middle) == Some((v, next))
    ensures Decode(code, pos) == Some((TMap(k, v), next))
  {
    Tags(Any, Array);
    hide LeafOf, ContainerOf;
  }

  /** A code that starts with a tag and a number. */
  lemma NumberedAt(code: seq<Byte>, pos: nat, tag: Byte, n: nat, rest: seq<Byte>)
    requires n < TWO64 && At(code, pos, [tag] + Le(n, 8) + rest)
    requires tag == FX_N || tag == TUPLE_N || tag == STRUCT
    ensures pos + 9 <= |code| && code[pos] == tag && LeafOf(tag).None? && ContainerOf(tag).None?
    ensures U64At(code, pos + 1) == Some(n) && At(code, pos + 9, rest)
  {
    hide At, U64At;
    Tags(Any, Array);
    SplitAt(code, pos, [tag] + Le(n, 8), rest);
    TagAt(code, pos, tag, Le(n, 8));
    NumberAt(code, pos + 1, n);
  }

  lemma {:induction false} DecodeCodes(code: seq<Byte>, pos: nat, ts: Tys)
    requires pos <= |code| && AllFit(ts) && At(code, pos, Codes(ts))
    ensures DecodeTypes(code, pos, Arity(ts)) == Some((ts, pos + |Codes(ts)|))
    decreases ts
  {
    hide At, Decode, Code, Fits;
    if ts.TCons? {
      SplitAt(code, pos, Code(ts.head), Codes(ts.tail));
      DecodeCode(code, pos, ts.head);
      DecodeCodes(code, pos + |Code(ts.head)|, ts.tail);
    }
  }

  lemma {:induction false} DecodeMemberCodes(code: seq<Byte>, pos: nat, ms: TyMembers)
    requires pos <= |code| && MembersFit(ms) && At(code, pos, MemberCodes(ms))
    ensures DecodeMembers(code, pos, Width(ms)) == Some((ms, pos + |MemberCodes(ms)|))
    decreases ms
  {
    hide At, Decode, Code, Fits, Le, U64At;
    if ms.MCons? {
      SplitAt(code, pos, Le(ms.id, 8) + Code(ms.ty), MemberCodes(ms.rest));
      SplitAt(code, pos, Le(ms.id, 8), Code(ms.ty));
      NumberAt(code, pos, ms.id);
      DecodeCode(code, pos + 8, ms.ty);
      DecodeMemberCodes(code, pos + 8 + |Code(ms.ty)|, ms.rest);
    }
  }

  lemma LeafBack(b: Byte)
    ensures LeafOf(b).Some? ==> LeafCode(LeafOf(b).value) == b
    ensures ContainerOf(b).Some? ==> ContainerCode(ContainerOf(b).value) == b
  {
  }

  lemma ByteAt(code: seq<Byte>, pos: nat)
    requires pos < |code|
    ensures At(code, pos, [code[pos]])
  {
  }

  /** What the decoder consumed is the code of the type it gives. */
  lemma {:induction false} DecodeIsCode(code: seq<Byte>, pos: nat)
    requires Decode(code, pos).Some?
    ensures var (t, e) := Decode(code, pos).value;
      Fits(t) && e == pos + |Code(t)| && At(code, pos, Code(t))
    decreases |code| - pos, 2
  {
    hide At, U64At, LeafOf, ContainerOf, LeafCode, ContainerCode, Le, DecodeTypes, DecodeMembers, Codes, MemberCodes;
    var b := code[pos];
    LeafBack(b);
    ByteAt(code, pos);
    if LeafOf(b).Some? {
    } else if ContainerOf(b).Some? {
      DecodeIsCode(code, pos + 1);
      JoinAt(code, pos, [b], Code(Decode(code, pos + 1).value.0));
    } else if b == MAP {
      DecodeIsMap(code, pos);
    } else {
      NumberIs(code, pos + 1);
      var n := U64At(code, pos + 1).value;
      JoinAt(code, pos, [b], Le(n, 8));
      if b == TUPLE_N {
        DecodeIsCodes(code, pos + 9, n);
        JoinAt(code, pos, [b] + Le(n, 8), Codes(DecodeTypes(code, pos + 9, n).value.0));
      } else if b == STRUCT {
        DecodeIsMemberCodes(code, pos + 9, n);
        JoinAt(code, pos, [b] + Le(n, 8), MemberCodes(DecodeMembers(code, pos + 9, n).value.0));
      }
    }
  }

  lemma {:induction false} DecodeIsMap(code: seq<Byte>, pos: nat)
    requires pos < |code| && code[pos] == MAP && Decode(code, pos).Some?
    ensures var (t, e) := Decode(code, pos).value;
      t.TMap? && Fits(t) && e == pos + |Code(t)| && At(code, pos, Code(t))
    decreases |code| - pos, 0
  {
    Tags(Any, Array);
    hide At, LeafOf, ContainerOf, LeafCode, ContainerCode;
    ByteAt(code, pos);
    DecodeIsCode(code, pos + 1);
    var (k, mid) := Decode(code, pos + 1).value;
    DecodeIsCode(code, mid);
    var (v, e) := Decode(code, mid).value;
    JoinAt(code, pos, [MAP], Code(k));
    JoinAt(code, pos, [MAP] + Code(k), Code(v));
  }

  lemma {:induction false} DecodeIsCodes(code: seq<Byte>, pos: nat, n: nat)
    requires pos <= |code| && DecodeTypes(code, pos, n).Some?
    ensures var (ts, e) := DecodeTypes(code, pos, n).value;
      AllFit(ts) && Arity(ts) == n && e == pos + |Codes(ts)| && At(code, pos, Codes(ts))
    decreases |code| - pos, 3
  {
    if n > 0 {
      hide At, Decode, Code, Fits;
      DecodeIsCode(code, pos);
      var (t, next) := Decode(code, pos).value;
      DecodeIsCodes(code, next, n - 1);
      JoinAt(code, pos, Code(t), Codes(DecodeTypes(code, next, n - 1).value.0));
    }
  }

  lemma {:induction false} DecodeIsMemberCodes(code: seq<Byte>, pos: nat, n: nat)
    requires pos <= |code| && DecodeMembers(code, pos, n).Some?
    ensures MembersRead(code, pos, n, DecodeMembers(code, pos, n).value.0, DecodeMembers(code, pos, n).value.1)
    decreases |code| - pos, 3
  {
    hide MembersRead;
    if n == 0 {
      NoMembersRead(code, pos);
    } else {
      hide At, Decode, Code, Fits, Le, U64At;
      NumberIs(code, pos);
      DecodeIsCode(code, pos + 8);
      var (t, next) := Decode(code, pos + 8).value;
      DecodeIsMemberCodes(code, next, n - 1);
      MemberJoins(code, pos, n, U64At(code, pos).value, t, next, DecodeMembers(code, next, n - 1).value.0,
        DecodeMembers(code, next, n - 1).value.1);
    }
  }

  /** These n members, and no others, are coded from pos up to next. */
  ghost predicate MembersRead(code: seq<Byte>, pos: nat, n: nat, ms: TyMembers, next: nat) {
    MembersFit(ms) && Width(ms) == n && next == pos + |MemberCodes(ms)| && At(code, pos, MemberCodes(ms))
  }

  lemma NoMembersRead(code: seq<Byte>, pos: nat)
    requires pos <= |code|
    ensures MembersRead(code, pos, 0, MNil, pos)
  {
  }

  lemma MemberJoins(code: seq<Byte>, pos: nat, n: nat, id: nat, t: Ty, next: nat, rest: TyMembers, end: nat)
    requires n > 0 && id < TWO64 && Fits(t) && next == pos + 8 + |Code(t)|
    requires At(code, pos, Le(id, 8)) && At(code, pos + 8, Code(t)) && MembersRead(code, next, n - 1, rest, end)
    ensures MembersRead(code, pos, n, MCons(id, t, rest), end)
  {
    hide At, Le, Code, Fits;
    JoinAt(code, pos, Le(id, 8), Code(t));
    JoinAt(code, pos, Le(id, 8) + Code(t), MemberCodes(rest));
  }

  /** For every type expression: the machine decodes its code, followed by any bytes, to
      what the expression means, and stops exactly at the end of the code. */
  lemma TypeRoundTrip(a: AstType, rest: seq<Byte>)
    requires Fits(Meant(a))
    ensures Decode(Encode(a) + rest, 0) == Some((Meant(a), |Encode(a)|))
  {
    EncodeIsCode(a);
    assert At(Encode(a) + rest, 0, Code(Meant(a)));
    DecodeCode(Encode(a) + rest, 0, Meant(a));
  }

  /** No code is a proper prefix of another, and equal codes mean equal types. */
  lemma CodesDistinguish(t: Ty, u: Ty)
    requires Fits(t) && Fits(u) && Code(t) <= Code(u)
    ensures t == u
  {
    assert At(Code(u), 0, Code(t));
    assert At(Code(u), 0, Code(u));
    DecodeCode(Code(u), 0, t);
    DecodeCode(Code(u), 0, u);
  }
}
