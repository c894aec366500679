/** The header of a bytecode file: what assemble writes before the instructions and the
    machine reads back before it starts. */
module FileHeader {
  import opened Values
  import opened Binary

  datatype Entry = Entry(
    name: seq<Byte>, arity: Byte, address: nat, frameSize: nat, isExternal: bool, isVariadic: bool)

  datatype Member = Member(name: seq<Byte>, id: nat)

  /** A reader gives what it read and the position behind it; None if the file ends first. */
  type Reading<T> = Option<(T, nat)>

  const MAJOR_VERSION: Byte := 3

  predicate Holds(code: seq<Byte>, pos: nat, x: seq<Byte>) {
    pos + |x| <= |code| && code[pos..pos + |x|] == x
  }

  lemma HoldsParts(code: seq<Byte>, pos: nat, x: seq<Byte>, y: seq<Byte>)
    ensures Holds(code, pos, x + y) <==> Holds(code, pos, x) && Holds(code, pos + |x|, y)
  {
    if pos + |x| + |y| <= |code| {
      var z := code[pos..pos + |x + y|];
      assert z[..|x|] == code[pos..pos + |x|] && z[|x|..] == code[pos + |x|..pos + |x| + |y|];
      assert (x + y)[..|x|] == x && (x + y)[|x|..] == y;
      assert z == z[..|x|] + z[|x|..];
    }
  }

  /** A number as eight bytes, the highest first. */
  function ReadU64(code: seq<Byte>, pos: nat): Reading<nat> {
    if pos + 8 <= |code| then Some((UnBe(code[pos..pos + 8]), pos + 8)) else None
  }

  lemma U64Reads(code: seq<Byte>, pos: nat, n: nat)
    requires n < TWO64 && Holds(code, pos, Be(n, 8))
    ensures ReadU64(code, pos) == Some((n, pos + 8))
  {
    EightBytes();
    BeRoundTrip(n, 8);
  }

  /** A name: its length, then its bytes. */
  function NameBytes(name: seq<Byte>): seq<Byte> { Be(|name|, 8) + name }

  function ReadName(code: seq<Byte>, pos: nat): Reading<seq<Byte>> {
    match ReadU64(code, pos)
    case None => None
    case Some((n, p)) => if p + n <= |code| then Some((code[p..p + n], p + n)) else None
  }

  lemma NameReads(code: seq<Byte>, pos: nat, name: seq<Byte>)
    requires |name| < TWO64 && Holds(code, pos, NameBytes(name))
    ensures ReadName(code, pos) == Some((name, pos + |NameBytes(name)|))
  {
    HoldsParts(code, pos, Be(|name|, 8), name);
    U64Reads(code, pos, |name|);
  }

  function Flags(e: Entry): Byte { (if e.isExternal then 1 else 0) + if e.isVariadic then 2 else 0 }

  function Tail(e: Entry): seq<Byte> { [e.arity] + (Be(e.address, 8) + (Be(e.frameSize, 8) + [Flags(e)])) }

  function EntryBytes(e: Entry): seq<Byte> { NameBytes(e.name) + Tail(e) }

  function ReadEntry(code: seq<Byte>, pos: nat): Reading<Entry> {
    match ReadName(code, pos)
    case None => None
    case Some((name, p)) =>
      if p + 18 > |code| then None
      else
        var address, frame, flags := UnBe(code[p + 1..p + 9]), UnBe(code[p + 9..p + 17]), code[p + 17];
        Some((Entry(name, code[p], address, frame, flags % 2 == 1, flags / 2 % 2 == 1), p + 18))
  }

  predicate Fits(e: Entry) { |e.name| < TWO64 && e.address < TWO64 && e.frameSize < TWO64 }

  lemma EntryReads(code: seq<Byte>, pos: nat, e: Entry)
    requires Fits(e) && Holds(code, pos, EntryBytes(e))
    ensures ReadEntry(code, pos) == Some((e, pos + |EntryBytes(e)|))
  {
    hide Be, UnBe;
    var p := pos + |NameBytes(e.name)|;
    HoldsParts(code, pos, NameBytes(e.name), Tail(e));
    NameReads(code, pos, e.name);
    HoldsParts(code, p, [e.arity], Be(e.address, 8) + (Be(e.frameSize, 8) + [Flags(e)]));
    HoldsParts(code, p + 1, Be(e.address, 8), Be(e.frameSize, 8) + [Flags(e)]);
    HoldsParts(code, p + 9, Be(e.frameSize, 8), [Flags(e)]);
    U64Reads(code, p + 1, e.address);
    U64Reads(code, p + 9, e.frameSize);
    assert code[p..p + 1][0] == e.arity && code[p + 17..p + 18][0] == Flags(e);
  }

  /** A string of the string pool ends with a zero byte. */
  function TextBytes(s: seq<Byte>): seq<Byte> { s + [0] }

  function ReadText(code: seq<Byte>, pos: nat): Reading<seq<Byte>>
    decreases |code| - pos
  {
    if pos >= |code| then None
    else if code[pos] == 0 then Some(([], pos + 1))
    else match ReadText(code, pos + 1)
      case None => None
      case Some((s, next)) => Some(([code[pos]] + s, next))
  }

  lemma {:induction false} CleanTextReads(code: seq<Byte>, pos: nat, s: seq<Byte>)
    requires Holds(code, pos, TextBytes(s)) && 0 !in s
    ensures ReadText(code, pos) == Some((s, pos + |TextBytes(s)|))
    decreases |s|
  {
    if s == [] {
      assert code[pos..pos + 1][0] == 0;
    } else {
      assert code[pos..pos + |s| + 1][0] == s[0] && s[0] in s;
      assert TextBytes(s) == [s[0]] + TextBytes(s[1..]) && s == [s[0]] + s[1..];
      HoldsParts(code, pos, [s[0]], TextBytes(s[1..]));
      CleanTextReads(code, pos + 1, s[1..]);
    }
  }

  lemma {:induction false} ReadTextClean(code: seq<Byte>, pos: nat)
    ensures ReadText(code, pos).Some? ==> 0 !in ReadText(code, pos).value.0
    decreases |code| - pos
  {
    if pos < |code| && code[pos] != 0 { ReadTextClean(code, pos + 1); }
  }

  /** A string comes back just when there is no zero byte in it. */
  lemma TextReads(code: seq<Byte>, pos: nat, s: seq<Byte>)
    requires Holds(code, pos, TextBytes(s))
    ensures ReadText(code, pos) == Some((s, pos + |TextBytes(s)|)) <==> 0 !in s
  {
    if 0 !in s { CleanTextReads(code, pos, s); } else { ReadTextClean(code, pos); }
  }

  function MemberBytes(m: Member): seq<Byte> { NameBytes(m.name) + Be(m.id, 8) }

  function ReadMember(code: seq<Byte>, pos: nat): Reading<Member> {
    match ReadName(code, pos)
    case None => None
    case Some((name, p)) =>
      match ReadU64(code, p)
      case None => None
      case Some((id, next)) => Some((Member(name, id), next))
  }

  lemma MemberReads(code: seq<Byte>, pos: nat, m: Member)
    requires |m.name| < TWO64 && m.id < TWO64 && Holds(code, pos, MemberBytes(m))
    ensures ReadMember(code, pos) == Some((m, pos + |MemberBytes(m)|))
  {
    HoldsParts(code, pos, NameBytes(m.name), Be(m.id, 8));
    NameReads(code, pos, m.name);
    U64Reads(code, pos + |NameBytes(m.name)|, m.id);
  }

  /** A table: the number of its items, then the items. */
  function ItemsBytes<T>(write: T -> seq<Byte>, items: seq<T>): seq<Byte> {
    if items == [] then [] else write(items[0]) + ItemsBytes(write, items[1..])
  }

  function TableBytes<T>(write: T -> seq<Byte>, items: seq<T>): seq<Byte> {
    Be(|items|, 8) + ItemsBytes(write, items)
  }

  function Prepend<T>(done: seq<T>, r: Reading<seq<T>>): Reading<seq<T>> {
    match r
    case None => None
    case Some((rest, next)) => Some((done + rest, next))
  }

  function ReadItems<T>(read: (seq<Byte>, nat) -> Reading<T>, code: seq<Byte>, pos: nat, n: nat): Reading<seq<T>>
    decreases n
  {
    if n == 0 then Some(([], pos))
    else match read(code, pos)
      case None => None
      case Some((x, p)) => Prepend([x], ReadItems(read, code, p, n - 1))
  }

  function ReadTable<T>(read: (seq<Byte>, nat) -> Reading<T>, code: seq<Byte>, pos: nat): Reading<seq<T>> {
    match ReadU64(code, pos)
    case None => None
    case Some((n, p)) => ReadItems(read, code, p, n)
  }

  ghost predicate ReadsBack<T>(read: (seq<Byte>, nat) -> Reading<T>, write: T -> seq<Byte>, x: T) {
    forall code, pos: nat :: Holds(code, pos, write(x)) ==> read(code, pos) == Some((x, pos + |write(x)|))
  }

  lemma {:induction false} ItemsRead<T>(
    read: (seq<Byte>, nat) -> Reading<T>, write: T -> seq<Byte>, code: seq<Byte>, pos: nat, items: seq<T>)
    requires forall i :: 0 <= i < |items| ==> ReadsBack(read, write, items[i])
    requires Holds(code, pos, ItemsBytes(write, items))
    ensures ReadItems(read, code, pos, |items|) == Some((items, pos + |ItemsBytes(write, items)|))
    decreases |items|
  {
    hide Holds, Be;
    if items != [] {
      HoldsParts(code, pos, write(items[0]), ItemsBytes(write, items[1..]));
      assert ReadsBack(read, write, items[0]);
      ItemsRead(read, write, code, pos + |write(items[0])|, items[1..]);
      assert items == [items[0]] + items[1..];
    }
  }

  lemma TableReads<T>(
    read: (seq<Byte>, nat) -> Reading<T>, write: T -> seq<Byte>, code: seq<Byte>, pos: nat, items: seq<T>)
    requires |items| < TWO64 && forall i :: 0 <= i < |items| ==> ReadsBack(read, write, items[i])
    requires Holds(code, pos, TableBytes(write, items))
    ensures ReadTable(read, code, pos) == Some((items, pos + |TableBytes(write, items)|))
  {
    HoldsParts(code, pos, Be(|items|, 8), ItemsBytes(write, items));
    U64Reads(code, pos, |items|);
    ItemsRead(read, write, code, pos + 8, items);
  }

  lemma PrependNothing<T>(r: Reading<seq<T>>)
    ensures Prepend([], r) == r
  {
    if r.Some? { assert [] + r.value.0 == r.value.0; }
  }

  lemma PrependMore<T>(done: seq<T>, x: T, r: Reading<seq<T>>)
    ensures Prepend(done, Prepend([x], r)) == Prepend(done + [x], r)
  {
    if r.Some? { assert done + ([x] + r.value.0) == (done + [x]) + r.value.0; }
  }

  /** The loop that fills a table while the position moves on. */
  method ReadAll<T>(read: (seq<Byte>, nat) -> Reading<T>, code: seq<Byte>, pos: nat) returns (r: Reading<seq<T>>)
    ensures r == ReadTable(read, code, pos)
  {
    var size := ReadU64(code, pos);
    if size == None { return None; }
    var n, p := size.value.0, size.value.1;
    var items: seq<T> := [];
    PrependNothing(ReadItems(read, code, p, n));
    for i := 0 to n
      invariant ReadTable(read, code, pos) == Prepend(items, ReadItems(read, code, p, n - i))
    {
      var item := read(code, p);
      if item == None { return None; }
      PrependMore(items, item.value.0, ReadItems(read, code, item.value.1, n - i - 1));
      items, p := items + [item.value.0], item.value.1;
    }
    assert items + [] == items;
    r := Some((items, p));
  }

  lemma {:induction false} ItemsSnoc<T>(write: T -> seq<Byte>, items: seq<T>, x: T)
    ensures ItemsBytes(write, items + [x]) == ItemsBytes(write, items) + write(x)
    decreases |items|
  {
    if items == [] {
      assert [] + [x] == [x] && [x][1..] == [];
    } else {
      ItemsSnoc(write, items[1..], x);
      assert (items + [x])[1..] == items[1..] + [x];
    }
  }

  lemma StartOfTable<T>(write: T -> seq<Byte>, items: seq<T>, before: seq<Byte>)
    ensures before + Be(|items|, 8) == before + (Be(|items|, 8) + ItemsBytes(write, items[..0]))
  {
  }

  /** The loop that writes a table. */
  method WriteAll<T>(write: T -> seq<Byte>, items: seq<T>, before: seq<Byte>) returns (bytes: seq<Byte>)
    ensures bytes == before + TableBytes(write, items)
  {
    hide ItemsBytes, Be;
    bytes := before + Be(|items|, 8);
    StartOfTable(write, items, before);
    for i := 0 to |items|
      invariant bytes == before + (Be(|items|, 8) + ItemsBytes(write, items[..i]))
    {
      ItemsSnoc(write, items[..i], items[i]);
      assert items[..i + 1] == items[..i] + [items[i]];
      bytes := bytes + write(items[i]);
      assert before + (Be(|items|, 8) + (ItemsBytes(write, items[..i]) + write(items[i]))) == bytes;
    }
    assert items[..|items|] == items;
  }

  /** The numbers of member names. Numbers below 256 are those of built-in members. */
  class MemberTable {
    var table: map<seq<Byte>, nat>

    ghost predicate Valid()
      reads this
    {
      && (forall x :: x in table ==> 256 <= table[x] < 256 + |table|)
      && (forall x, y :: x in table && y in table && x != y ==> table[x] != table[y])
    }

    constructor ()
      ensures Valid() && table == map[]
    {
      table := map[];
    }

    /** get_id: the number of a name, a new one if it has none. */
    method GetId(name: seq<Byte>) returns (id: nat)
      requires Valid()
      modifies this
      ensures Valid() && name in table && table[name] == id
      ensures name in old(table) ==> table == old(table)
      ensures name !in old(table) ==> table == old(table)[name := id] && id !in old(table).Values
    {
      if name in table { return table[name]; }
      id := |table| + 256;
      table := table[name := id];
    }
  }

  /** The members are those of the table, each once. */
  ghost predicate Lists(ms: seq<Member>, table: map<seq<Byte>, nat>) {
    && (forall i :: 0 <= i < |ms| ==> ms[i].name in table && table[ms[i].name] == ms[i].id)
    && (forall i, j :: 0 <= i < j < |ms| ==> ms[i].name != ms[j].name)
    && (forall x :: x in table ==> Member(x, table[x]) in ms)
  }

  /** sequence_table: the entries in whatever order the table has them. */
  method SequenceTable(table: map<seq<Byte>, nat>) returns (ms: seq<Member>)
    ensures Lists(ms, table)
  {
    ms := [];
    var rest := table.Keys;
    while rest != {}
      invariant rest <= table.Keys
      invariant forall i :: 0 <= i < |ms| ==>
          ms[i].name in table && table[ms[i].name] == ms[i].id && ms[i].name !in rest
      invariant forall i, j :: 0 <= i < j < |ms| ==> ms[i].name != ms[j].name
      invariant forall x :: x in table ==> x in rest || Member(x, table[x]) in ms
      decreases |rest|
    {
      var x :| x in rest;
      ms, rest := ms + [Member(x, table[x])], rest - {x};
    }
  }

  /** read_name_table: names by number. */
  function NamesOf(ms: seq<Member>): map<nat, seq<Byte>> {
    if ms == [] then map[]
    else
      var last := ms[|ms| - 1];
      NamesOf(ms[..|ms| - 1])[last.id := last.name]
  }

  lemma {:induction false} NamesOfIs(ms: seq<Member>)
    requires forall i, j :: 0 <= i < j < |ms| ==> ms[i].id != ms[j].id
    ensures forall m :: m in ms ==> m.id in NamesOf(ms) && NamesOf(ms)[m.id] == m.name
    ensures forall id :: id in NamesOf(ms) ==> Member(NamesOf(ms)[id], id) in ms
    decreases |ms|
  {
    if ms != [] {
      var front, last := ms[..|ms| - 1], ms[|ms| - 1];
      assert forall i :: 0 <= i < |front| ==> front[i] == ms[i];
      NamesOfIs(front);
      hide NamesOf;
      NamesWithLast(front, last, NamesOf(front));
      assert ms == front + [last];
      assert NamesOf(ms) == NamesOf(front)[last.id := last.name] by { LastName(ms); }
    }
  }

  lemma LastName(ms: seq<Member>)
    requires ms != []
    ensures NamesOf(ms) == NamesOf(ms[..|ms| - 1])[ms[|ms| - 1].id := ms[|ms| - 1].name]
  {
  }

  lemma NamesWithLast(front: seq<Member>, last: Member, names: map<nat, seq<Byte>>)
    requires forall i :: 0 <= i < |front| ==> front[i].id != last.id
    requires forall m :: m in front ==> m.id in names && names[m.id] == m.name
    requires forall id :: id in names ==> Member(names[id], id) in front
    ensures var all := names[last.id := last.name];
      && (forall m :: m in front + [last] ==> m.id in all && all[m.id] == m.name)
      && (forall id :: id in all ==> Member(all[id], id) in front + [last])
  {
    assert last in front + [last];
  }

  function Ascii(s: string): seq<Byte> { seq(|s|, i requires 0 <= i < |s| => s[i] as int % 256) }

  /** The names the machine adds for the operators that structs may define. */
  function OperatorNames(): map<nat, seq<Byte>> {
    map[0x10 := Ascii("{add}"), 0x11 := Ascii("{sub}"), 0x12 := Ascii("{mlt}"), 0x13 := Ascii("{div}"),
        0x14 := Ascii("{mod}"), 0x15 := Ascii("{pow}"), 0x20 := Ascii("{str}"), 0x21 := Ascii("{cmp}"),
        0x22 := Ascii("{bool}")]
  }

  datatype Setup =
    | Ready(functions: seq<Entry>, strings: seq<seq<Byte>>, names: map<nat, seq<Byte>>, start: nat)
    | Refused(why: string)

  /** VM::setup, up to the first instruction. */
  method ReadHeader(file: seq<Byte>) returns (r: Setup)
    ensures |file| < 2 ==> r == Refused("Not an executable program")
    ensures |file| >= 2 && file[0] != MAJOR_VERSION ==> r == Refused("Incompatible bytecode version")
    ensures |file| >= 2 && file[0] == MAJOR_VERSION ==> r == AfterVersion(file)
  {
    if |file| < 2 { return Refused("Not an executable program"); }
    if file[0] != MAJOR_VERSION { return Refused("Incompatible bytecode version"); }
    var functions := ReadAll(ReadEntry, file, 1);
    if functions == None { return Refused("File too short"); }
    var strings := ReadAll(ReadText, file, functions.value.1);
    if strings == None { return Refused("File too short"); }
    var members := ReadAll(ReadMember, file, strings.value.1);
    if members == None { return Refused("File too short"); }
    r := Ready(functions.value.0, strings.value.0, NamesOf(members.value.0) + OperatorNames(), members.value.1);
  }

  function AfterVersion(file: seq<Byte>): Setup {
    match ReadTable(ReadEntry, file, 1)
    case None => Refused("File too short")
    case Some((functions, p)) =>
      match ReadTable(ReadText, file, p)
      case None => Refused("File too short")
      case Some((strings, q)) =>
        match ReadTable(ReadMember, file, q)
        case None => Refused("File too short")
        case Some((members, start)) => Ready(functions, strings, NamesOf(members) + OperatorNames(), start)
  }

  function Header(functions: seq<Entry>, strings: seq<seq<Byte>>, members: seq<Member>): seq<Byte> {
    [MAJOR_VERSION] + (TableBytes(EntryBytes, functions)
      + (TableBytes(TextBytes, strings) + TableBytes(MemberBytes, members)))
  }

  /** The header assemble writes in front of the instructions. */
  method WriteHeader(functions: seq<Entry>, strings: seq<seq<Byte>>, table: map<seq<Byte>, nat>)
    returns (bytes: seq<Byte>, members: seq<Member>)
    ensures Lists(members, table) && bytes == Header(functions, strings, members)
  {
    members := SequenceTable(table);
    bytes := WriteAll(EntryBytes, functions, [MAJOR_VERSION]);
    bytes := WriteAll(TextBytes, strings, bytes);
    bytes := WriteAll(MemberBytes, members, bytes);
  }

  predicate Storable(functions: seq<Entry>, strings: seq<seq<Byte>>, members: seq<Member>) {
    && |functions| < TWO64 && |strings| < TWO64 && |members| < TWO64
    && (forall i :: 0 <= i < |functions| ==> Fits(functions[i]))
    && (forall i :: 0 <= i < |strings| ==> 0 !in strings[i])
    && (forall i :: 0 <= i < |members| ==> |members[i].name| < TWO64 && members[i].id < TWO64)
  }

  /** Reading what was written gives the same functions and strings, and every member name
      under its number; the position is that of the first instruction. */
  lemma HeaderRoundTrip(
    functions: seq<Entry>, strings: seq<seq<Byte>>, members: seq<Member>, table: map<seq<Byte>, nat>, code: seq<Byte>)
    requires Storable(functions, strings, members) && Lists(members, table)
    requires forall x :: x in table ==> table[x] >= 256
    requires forall x, y :: x in table && y in table && x != y ==> table[x] != table[y]
    ensures var h := Header(functions, strings, members);
      var r := AfterVersion(h + code);
      && r.Ready? && r.functions == functions && r.strings == strings
      && r.start == |h| && (h + code)[r.start..] == code
      && (forall x :: x in table ==> table[x] in r.names && r.names[table[x]] == x)
      && (forall id :: id in r.names ==> id in OperatorNames() || (r.names[id] in table && table[r.names[id]] == id))
  {
    hide Holds, Be, UnBe, NamesOf, OperatorNames, ReadTable, TableBytes, ReadEntry, ReadText, ReadMember, EntryBytes,
      TextBytes, MemberBytes;
    var f, t, m := TableBytes(EntryBytes, functions), TableBytes(TextBytes, strings), TableBytes(MemberBytes, members);
    var h := Header(functions, strings, members);
    var file := h + code;
    HoldsPrefix(h, code);
    HoldsParts(file, 0, [MAJOR_VERSION], f + (t + m));
    HoldsParts(file, 1, f, t + m);
    HoldsParts(file, 1 + |f|, t, m);
    AllReadBack(functions, strings, members);
    TableReads(ReadEntry, EntryBytes, file, 1, functions);
    TableReads(ReadText, TextBytes, file, 1 + |f|, strings);
    TableReads(ReadMember, MemberBytes, file, 1 + |f| + |t|, members);
    DistinctIds(members, table);
    NamesOfIs(members);
    OperatorCodes();
  }

  lemma HoldsPrefix(h: seq<Byte>, code: seq<Byte>)
    ensures Holds(h + code, 0, h) && (h + code)[|h|..] == code
  {
  }

  lemma OperatorCodes()
    ensures forall id :: id in OperatorNames() ==> id < 256
  {
  }

  lemma DistinctIds(members: seq<Member>, table: map<seq<Byte>, nat>)
    requires Lists(members, table)
    requires forall x, y :: x in table && y in table && x != y ==> table[x] != table[y]
    ensures forall i, j :: 0 <= i < j < |members| ==> members[i].id != members[j].id
  {
  }

  lemma AllReadBack(functions: seq<Entry>, strings: seq<seq<Byte>>, members: seq<Member>)
    requires Storable(functions, strings, members)
    ensures forall i :: 0 <= i < |functions| ==> ReadsBack(ReadEntry, EntryBytes, functions[i])
    ensures forall i :: 0 <= i < |strings| ==> ReadsBack(ReadText, TextBytes, strings[i])
    ensures forall i :: 0 <= i < |members| ==> ReadsBack(ReadMember, MemberBytes, members[i])
  {
    hide ReadsBack;
    forall i | 0 <= i < |functions| ensures ReadsBack(ReadEntry, EntryBytes, functions[i]) { EntryBack(functions[i]); }
    forall i | 0 <= i < |strings| ensures ReadsBack(ReadText, TextBytes, strings[i]) { TextBack(strings[i]); }
    forall i | 0 <= i < |members| ensures ReadsBack(ReadMember, MemberBytes, members[i]) { MemberBack(members[i]); }
  }

  lemma EntryBack(e: Entry)
    requires Fits(e)
    ensures ReadsBack(ReadEntry, EntryBytes, e)
  {
    hide ReadEntry, EntryBytes, Holds;
    forall code, pos: nat | Holds(code, pos, EntryBytes(e))
      ensures ReadEntry(code, pos) == Some((e, pos + |EntryBytes(e)|))
    {
      EntryReads(code, pos, e);
    }
  }

  lemma TextBack(s: seq<Byte>)
    requires 0 !in s
    ensures ReadsBack(ReadText, TextBytes, s)
  {
    hide ReadText, TextBytes, Holds;
    forall code, pos: nat | Holds(code, pos, TextBytes(s))
      ensures ReadText(code, pos) == Some((s, pos + |TextBytes(s)|))
    {
      TextReads(code, pos, s);
    }
  }

  lemma MemberBack(m: Member)
    requires |m.name| < TWO64 && m.id < TWO64
    ensures ReadsBack(ReadMember, MemberBytes, m)
  {
    hide ReadMember, MemberBytes, Holds;
    forall code, pos: nat | Holds(code, pos, MemberBytes(m))
      ensures ReadMember(code, pos) == Some((m, pos + |MemberBytes(m)|))
    {
      MemberReads(code, pos, m);
    }
  }
}
