/** Instructions as bytes, and how the machine fetches them back. */
module Bytecode {
  import opened Binary
  import opened Values
  import opened Instructions
  import T = TypeCodes

  /** Opcodes of the instructions without operands that are primitives. */
  function SimpleCode(op: SimpleOp): Byte {
    match op
    case Add => 0x10
    case Sub => 0x11
    case Mlt => 0x12
    case Div => 0x13
    case Mod => 0x14
    case Pow => 0x15
    case Eql => 0x18
    case Ueql => 0x19
    case Lt => 0x1a
    case Gt => 0x1b
    case LtEql => 0x1c
    case GtEql => 0x1d
    case ShiftL => 0x1e
    case ShiftR => 0x1f
    case Neg => 0x20
    case Not => 0x21
    case Inc => 0x22
    case Dec => 0x23
    case Deref => 0x24
    case Comp => 0x28
    case True => 0x33
    case False => 0x34
    case Nvll => 0x35
    case NewClock => 0x53
    case NewStruct => 0x54
    case NewStack => 0x55
    case NewQueue => 0x56
    case NewMap => 0x57
    case NewIConst0 => 0x70
    case NewIConst1 => 0x71
    case NewIConst2 => 0x72
    case BitAnd => 0x90
    case BitOr => 0x91
    case BitXor => 0x92
    case BitNot => 0x93
    case At => 0xa0
    case AtWrite => 0xa1
    case Iter => 0xa2
    case CastBool => 0xb0
  }

  function SimpleOf(b: Byte): Option<SimpleOp> {
    if b == 0x10 then Some(Add)
    else if b == 0x11 then Some(Sub)
    else if b == 0x12 then Some(Mlt)
    else if b == 0x13 then Some(Div)
    else if b == 0x14 then Some(Mod)
    else if b == 0x15 then Some(Pow)
    else if b == 0x18 then Some(Eql)
    else if b == 0x19 then Some(Ueql)
    else if b == 0x1a then Some(Lt)
    else if b == 0x1b then Some(Gt)
    else if b == 0x1c then Some(LtEql)
    else if b == 0x1d then Some(GtEql)
    else if b == 0x1e then Some(ShiftL)
    else if b == 0x1f then Some(ShiftR)
    else if b == 0x20 then Some(Neg)
    else if b == 0x21 then Some(Not)
    else if b == 0x22 then Some(Inc)
    else if b == 0x23 then Some(Dec)
    else if b == 0x24 then Some(Deref)
    else if b == 0x28 then Some(Comp)
    else if b == 0x33 then Some(True)
    else if b == 0x34 then Some(False)
    else if b == 0x35 then Some(Nvll)
    else if b == 0x53 then Some(NewClock)
    else if b == 0x54 then Some(NewStruct)
    else if b == 0x55 then Some(NewStack)
    else if b == 0x56 then Some(NewQueue)
    else if b == 0x57 then Some(NewMap)
    else if b == 0x70 then Some(NewIConst0)
    else if b == 0x71 then Some(NewIConst1)
    else if b == 0x72 then Some(NewIConst2)
    else if b == 0x90 then Some(BitAnd)
    else if b == 0x91 then Some(BitOr)
    else if b == 0x92 then Some(BitXor)
    else if b == 0x93 then Some(BitNot)
    else if b == 0xa0 then Some(At)
    else if b == 0xa1 then Some(AtWrite)
    else if b == 0xa2 then Some(Iter)
    else if b == 0xb0 then Some(CastBool)
    else None
  }

  /** The other instructions without operands. */
  function PlainCode(i: Op): Option<Byte> {
    match i
    case Exit => Some(0x00)
    case Throw => Some(0x03)
    case Return => Some(0x42)
    case Capture => Some(0x46)
    case Yield => Some(0x48)
    case CoReturn => Some(0x49)
    case CoDump => Some(0x4a)
    case ReturnNull => Some(0x4b)
    case Scrap => Some(0x60)
    case Duplicate => Some(0x61)
    case Swap => Some(0x64)
    case LoadK(k) => if k < 4 then Some(0x68 + k) else None
    case StoreK(k) => if k < 4 then Some(0x6c + k) else None
    case Prim(Simple(op)) => Some(SimpleCode(op))
    case _ => None
  }

  function PlainOf(b: Byte): Option<Op> {
    if b == 0x00 then Some(Exit)
    else if b == 0x03 then Some(Throw)
    else if b == 0x42 then Some(Return)
    else if b == 0x46 then Some(Capture)
    else if b == 0x48 then Some(Yield)
    else if b == 0x49 then Some(CoReturn)
    else if b == 0x4a then Some(CoDump)
    else if b == 0x4b then Some(ReturnNull)
    else if b == 0x60 then Some(Scrap)
    else if b == 0x61 then Some(Duplicate)
    else if b == 0x64 then Some(Swap)
    else if 0x68 <= b < 0x6c then Some(LoadK(b - 0x68))
    else if 0x6c <= b < 0x70 then Some(StoreK(b - 0x6c))
    else match SimpleOf(b) case Some(op) => Some(Prim(Simple(op))) case None => None
  }

  /** Instructions followed by a 64-bit number. */
  function WideCode(i: Op): Option<(Byte, nat)> {
    match i
    case Try(l) => Some((0x02, l))
    case Goto(l) => Some((0x40, l))
    case Call(f) => Some((0x41, f))
    case IfElse(l) => Some((0x43, l))
    case ForNext(l) => Some((0x47, l))
    case NewFx(f) => Some((0x52, f))
    case LoadX(a) => Some((0x62, a))
    case StoreX(a) => Some((0x63, a))
    case GlobalRead(id) => Some((0xd2, id))
    case GlobalWrite(id) => Some((0xd3, id))
    case Prim(NewI(v)) => Some((0x30, Unsigned64(v)))
    case Prim(NewF(bits)) => Some((0x31, bits))
    case Prim(NewArr(n)) => Some((0x50, n))
    case Prim(NewTuple(n)) => Some((0x58, n))
    case Prim(MemberRead(id)) => Some((0xd0, id))
    case Prim(MemberWrite(id)) => Some((0xd1, id))
    case _ => None
  }

  function WideOf(b: Byte, n: nat): Option<Op> {
    if b == 0x02 then Some(Try(n))
    else if b == 0x40 then Some(Goto(n))
    else if b == 0x41 then Some(Call(n))
    else if b == 0x43 then Some(IfElse(n))
    else if b == 0x47 then Some(ForNext(n))
    else if b == 0x52 then Some(NewFx(n))
    else if b == 0x62 then Some(LoadX(n))
    else if b == 0x63 then Some(StoreX(n))
    else if b == 0xd2 then Some(GlobalRead(n))
    else if b == 0xd3 then Some(GlobalWrite(n))
    else if b == 0x30 then Some(Prim(NewI(Signed64(n))))
    else if b == 0x31 then Some(Prim(NewF(n)))
    else if b == 0x50 then Some(Prim(NewArr(n)))
    else if b == 0x58 then Some(Prim(NewTuple(n)))
    else if b == 0xd0 then Some(Prim(MemberRead(n)))
    else if b == 0xd1 then Some(Prim(MemberWrite(n)))
    else None
  }

  /** Instructions followed by one byte. */
  function NarrowCode(i: Op): Option<(Byte, nat)> {
    match i
    case Invoke(n) => Some((0x44, n))
    case Unpack(n) => Some((0x65, n))
    case Prim(NewC(c)) => Some((0x32, c))
    case Prim(NewISmall(b)) => Some((0x36, b))
    case _ => None
  }

  function NarrowOf(b: Byte, n: nat): Option<Op> {
    if b == 0x44 then Some(Invoke(n))
    else if b == 0x65 then Some(Unpack(n))
    else if b == 0x32 then Some(Prim(NewC(n)))
    else if b == 0x36 then Some(Prim(NewISmall(n)))
    else None
  }

  const NEWSTR: Byte := 0x51
  const NEWTYPE: Byte := 0x59

  /** The first position of a string in the pool. */
  function PoolIndex(pool: seq<string>, s: string): Option<nat> {
    if pool == [] then None
    else if pool[0] == s then Some(0)
    else match PoolIndex(pool[1..], s) case Some(i) => Some(i + 1) case None => None
  }

  predicate IsBytes(code: seq<nat>) { forall i :: 0 <= i < |code| ==> code[i] < 256 }

  function AsBytes(code: seq<nat>): (r: seq<Byte>)
    requires IsBytes(code)
    ensures |r| == |code| && forall i :: 0 <= i < |code| ==> r[i] == code[i]
  {
    seq(|code|, i requires 0 <= i < |code| => code[i])
  }

  /** Operands fit their width, strings are in the pool, and type codes are codes of types. */
  ghost predicate Encodable(i: Op, pool: seq<string>) {
    || PlainCode(i).Some?
    || (WideCode(i).Some? && WideCode(i).value.1 < TWO64 &&
          (i.Prim? && i.p.NewI? ==> -(TWO64 / 2) <= i.p.i < TWO64 / 2))
    || (NarrowCode(i).Some? && NarrowCode(i).value.1 < 256)
    || (i.Prim? && i.p.NewStr? && PoolIndex(pool, i.p.s).Some? && |pool| <= TWO64)
    || (i.Prim? && i.p.NewType? && IsBytes(i.p.code) && IsTypeCode(AsBytes(i.p.code)))
  }

  ghost predicate IsTypeCode(code: seq<Byte>) {
    exists t :: T.Fits(t) && code == T.Code(t)
  }

  /** The bytes of an instruction whose labels are resolved; labels have none. */
  function Bytes(i: Op, pool: seq<string>): seq<Byte> {
    if i.Mark? then []
    else if PlainCode(i).Some? then [PlainCode(i).value]
    else if WideCode(i).Some? then [WideCode(i).value.0] + Be(WideCode(i).value.1, 8)
    else if NarrowCode(i).Some? then [NarrowCode(i).value.0, NarrowCode(i).value.1 % 256]
    else match i
      case Prim(NewStr(s)) =>
        [NEWSTR] + Be(match PoolIndex(pool, s) case Some(k) => k case None => 0, 8)
      case Prim(NewType(code)) => if IsBytes(code) then [NEWTYPE] + AsBytes(code) + [0] else []
      case _ => []
  }

  /** The instruction at pc, and where the next one starts. */
  function Fetch(code: seq<Byte>, pool: seq<string>, pc: nat): Option<(Op, nat)> {
    if pc >= |code| then None
    else if PlainOf(code[pc]).Some? then Some((PlainOf(code[pc]).value, pc + 1))
    else if NarrowOf(code[pc], 0).Some? then
      if pc + 2 <= |code| then Some((NarrowOf(code[pc], code[pc + 1]).value, pc + 2)) else None
    else if code[pc] == NEWTYPE then
      (match T.Decode(code, pc + 1)
       case Some((t, e)) => Some((Prim(NewType(code[pc + 1..e])), e + 1))
       case None => None)
    else if pc + 9 > |code| then None
    else
      var n := UnBe(code[pc + 1..pc + 9]);
      if WideOf(code[pc], n).Some? then Some((WideOf(code[pc], n).value, pc + 9))
      else if code[pc] == NEWSTR && n < |pool| then Some((Prim(NewStr(pool[n])), pc + 9))
      else None
  }

  lemma SimpleBack(op: SimpleOp)
    ensures SimpleOf(SimpleCode(op)) == Some(op)
  {
  }

  lemma PlainBack(i: Op)
    requires PlainCode(i).Some?
    ensures PlainOf(PlainCode(i).value) == Some(i)
  {
    if i.Prim? { SimpleBack(i.p.op); }
  }

  lemma WideBack(i: Op)
    requires WideCode(i).Some? && (i.Prim? && i.p.NewI? ==> -(TWO64 / 2) <= i.p.i < TWO64 / 2)
    ensures WideOf(WideCode(i).value.0, WideCode(i).value.1) == Some(i)
  {
    if i.Prim? && i.p.NewI? { SignedRoundTrip(i.p.i); }
  }

  lemma NarrowBack(i: Op)
    requires NarrowCode(i).Some?
    ensures NarrowOf(NarrowCode(i).value.0, NarrowCode(i).value.1) == Some(i)
  {
  }

  /** The formats are told apart by the opcode. */
  lemma OpcodesDisjoint(b: Byte, n: nat, m: nat)
    ensures PlainOf(b).Some? ==> NarrowOf(b, n).None? && WideOf(b, n).None? && b != NEWSTR && b != NEWTYPE
    ensures NarrowOf(b, n).Some? <==> NarrowOf(b, m).Some?
    ensures NarrowOf(b, n).Some? ==> WideOf(b, m).None? && b != NEWSTR && b != NEWTYPE
    ensures WideOf(b, n).Some? ==> b != NEWSTR && b != NEWTYPE
  {
  }

  lemma {:induction false} PoolIndexIs(pool: seq<string>, s: string)
    ensures PoolIndex(pool, s).Some? ==> PoolIndex(pool, s).value < |pool| && pool[PoolIndex(pool, s).value] == s
    ensures s in pool ==> PoolIndex(pool, s).Some?
    decreases |pool|
  {
    if pool != [] { PoolIndexIs(pool[1..], s); }
  }

  lemma FetchType(code: seq<Byte>, pool: seq<string>, pc: nat, i: Op)
    requires i.Prim? && i.p.NewType? && IsBytes(i.p.code) && IsTypeCode(AsBytes(i.p.code))
    requires T.At(code, pc, Bytes(i, pool))
    ensures Fetch(code, pool, pc) == Some((i, pc + |Bytes(i, pool)|))
  {
    hide T.Decode, T.Code, T.Fits;
    var body := AsBytes(i.p.code);
    var t :| T.Fits(t) && body == T.Code(t);
    T.SplitAt(code, pc, [NEWTYPE] + body, [0]);
    T.TagAt(code, pc, NEWTYPE, body);
    T.DecodeCode(code, pc + 1, t);
    OpcodesDisjoint(NEWTYPE, 0, 0);
    var e := pc + 1 + |body|;
    assert code[pc + 1..e] == i.p.code;
  }

  lemma FetchWide(code: seq<Byte>, pool: seq<string>, pc: nat, tag: Byte, n: nat)
    requires n < TWO64 && T.At(code, pc, [tag] + Be(n, 8))
    requires WideOf(tag, n).Some? || (tag == NEWSTR && n < |pool|)
    ensures Fetch(code, pool, pc) ==
      Some((if WideOf(tag, n).Some? then WideOf(tag, n).value else Prim(NewStr(pool[n])), pc + 9))
  {
    T.TagAt(code, pc, tag, Be(n, 8));
    OpcodesDisjoint(tag, 0, n);
    OpcodesDisjoint(tag, n, 0);
    EightBytes();
    BeRoundTrip(n, 8);
    hide PlainOf, NarrowOf, WideOf, T.Decode, Be, UnBe;
    assert code[pc + 1..pc + 9] == Be(n, 8);
  }

  /** Fetching where an instruction was written gives it back, and the next one's place. */
  lemma FetchBytes(code: seq<Byte>, pool: seq<string>, pc: nat, i: Op)
    requires Encodable(i, pool) && !i.Mark? && T.At(code, pc, Bytes(i, pool))
    ensures Fetch(code, pool, pc) == Some((i, pc + |Bytes(i, pool)|))
  {
    hide T.Decode, PlainOf, NarrowOf, WideOf, Be, UnBe, SimpleCode, IsTypeCode;
    if PlainCode(i).Some? {
      PlainBack(i);
      T.TagAt(code, pc, PlainCode(i).value, []);
      assert [PlainCode(i).value] + [] == [PlainCode(i).value];
    } else if WideCode(i).Some? {
      WideBack(i);
      FetchWide(code, pool, pc, WideCode(i).value.0, WideCode(i).value.1);
    } else if NarrowCode(i).Some? {
      var (tag, n) := NarrowCode(i).value;
      NarrowBack(i);
      OpcodesDisjoint(tag, n, 0);
      assert [tag, n % 256] == [tag] + [n];
      T.TagAt(code, pc, tag, [n]);
      assert code[pc + 1..pc + 2][0] == code[pc + 1];
    } else if i.p.NewStr? {
      PoolIndexIs(pool, i.p.s);
      var k := PoolIndex(pool, i.p.s).value;
      OpcodesDisjoint(NEWSTR, k, k);
      FetchWide(code, pool, pc, NEWSTR, k);
    } else {
      FetchType(code, pool, pc, i);
    }
  }
}
