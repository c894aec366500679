/** The table that interns decoded types: two type literals get the same entry exactly
    when they mean the same type. */
module TypeTables {
  import opened Binary
  import opened TypeCodes

  /** An entry; its parts are earlier entries. */
  datatype Node =
    | LeafNode(leaf: Leaf)
    | OfNode(container: Container, sub: nat)
    | MapNode(key: nat, val: nat)
    | TupleNode(subs: seq<nat>)
    | FxNode(arity: nat)
    | StructNode(ids: seq<nat>, tys: seq<nat>)

  predicate PartsBelow(n: Node, id: nat) {
    match n
    case LeafNode(_) => true
    case OfNode(_, sub) => sub < id
    case MapNode(k, v) => k < id && v < id
    case TupleNode(subs) => forall i :: 0 <= i < |subs| ==> subs[i] < id
    case FxNode(_) => true
    case StructNode(ids, tys) => |ids| == |tys| && forall i :: 0 <= i < |tys| ==> tys[i] < id
  }

  predicate Grounded(nodes: seq<Node>) {
    forall id :: 0 <= id < |nodes| ==> PartsBelow(nodes[id], id)
  }

  /** The type an entry stands for. */
  function Denoted(nodes: seq<Node>, id: nat): Ty
    requires Grounded(nodes) && id < |nodes|
    decreases id, 2
  {
    assert PartsBelow(nodes[id], id);
    DenotedNode(nodes, nodes[id], id)
  }

  function DenotedNode(nodes: seq<Node>, node: Node, bound: nat): Ty
    requires Grounded(nodes) && bound <= |nodes| && PartsBelow(node, bound)
    decreases bound, 1
  {
    match node
    case LeafNode(l) => TLeaf(l)
    case OfNode(c, sub) => TOf(c, Denoted(nodes, sub))
    case MapNode(k, v) => TMap(Denoted(nodes, k), Denoted(nodes, v))
    case TupleNode(subs) => TTuple(DenotedAll(nodes, subs, bound))
    case FxNode(n) => TFx(n)
    case StructNode(ids, tys) => TStruct(DenotedMembers(nodes, ids, tys, bound))
  }

  function DenotedAll(nodes: seq<Node>, subs: seq<nat>, bound: nat): Tys
    requires Grounded(nodes) && bound <= |nodes| && forall i :: 0 <= i < |subs| ==> subs[i] < bound
    decreases bound, 0, |subs|
  {
    if subs == [] then TNil else TCons(Denoted(nodes, subs[0]), DenotedAll(nodes, subs[1..], bound))
  }

  function DenotedMembers(nodes: seq<Node>, ids: seq<nat>, tys: seq<nat>, bound: nat): TyMembers
    requires Grounded(nodes) && bound <= |nodes| && |ids| == |tys| && forall i :: 0 <= i < |tys| ==> tys[i] < bound
    decreases bound, 0, |tys|
  {
    if tys == [] then MNil
    else MCons(ids[0], Denoted(nodes, tys[0]), DenotedMembers(nodes, ids[1..], tys[1..], bound))
  }

  /** More entries do not change what an entry means. */
  lemma {:induction false} DenotedPrefix(nodes: seq<Node>, more: seq<Node>, id: nat)
    requires Grounded(nodes) && Grounded(more) && nodes <= more && id < |nodes|
    ensures Denoted(more, id) == Denoted(nodes, id)
    decreases id, 2
  {
    assert PartsBelow(nodes[id], id);
    assert more[id] == nodes[id];
    NodePrefix(nodes, more, nodes[id], id, id);
  }

  lemma {:induction false} NodePrefix(nodes: seq<Node>, more: seq<Node>, node: Node, bound: nat, other: nat)
    requires Grounded(nodes) && Grounded(more) && nodes <= more && bound <= |nodes| && bound <= other <= |more|
    requires PartsBelow(node, bound)
    ensures DenotedNode(more, node, other) == DenotedNode(nodes, node, bound)
    decreases bound, 1
  {
    match node
    case OfNode(_, sub) => DenotedPrefix(nodes, more, sub);
    case MapNode(k, v) => DenotedPrefix(nodes, more, k); DenotedPrefix(nodes, more, v);
    case TupleNode(subs) => DenotedAllPrefix(nodes, more, subs, bound, other);
    case StructNode(ids, tys) => DenotedMembersPrefix(nodes, more, ids, tys, bound, other);
    case _ =>
  }

  lemma {:induction false} DenotedAllPrefix(nodes: seq<Node>, more: seq<Node>, subs: seq<nat>, bound: nat, other: nat)
    requires Grounded(nodes) && Grounded(more) && nodes <= more && bound <= |nodes| && bound <= other <= |more|
    requires forall i :: 0 <= i < |subs| ==> subs[i] < bound
    ensures DenotedAll(more, subs, other) == DenotedAll(nodes, subs, bound)
    decreases bound, 0, |subs|
  {
    if subs != [] {
      DenotedPrefix(nodes, more, subs[0]);
      DenotedAllPrefix(nodes, more, subs[1..], bound, other);
    }
  }

  lemma {:induction false} DenotedMembersPrefix(
    nodes: seq<Node>, more: seq<Node>, ids: seq<nat>, tys: seq<nat>, bound: nat, other: nat)
    requires Grounded(nodes) && Grounded(more) && nodes <= more && bound <= |nodes| && bound <= other <= |more|
    requires |ids| == |tys| && forall i :: 0 <= i < |tys| ==> tys[i] < bound
    ensures DenotedMembers(more, ids, tys, other) == DenotedMembers(nodes, ids, tys, bound)
    decreases bound, 0, |tys|
  {
    if tys != [] {
      DenotedPrefix(nodes, more, tys[0]);
      DenotedMembersPrefix(nodes, more, ids[1..], tys[1..], bound, other);
    }
  }

  function Types(nodes: seq<Node>): (r: seq<Ty>)
    requires Grounded(nodes)
    ensures |r| == |nodes|
  {
    seq(|nodes|, id requires 0 <= id < |nodes| => Denoted(nodes, id))
  }

  /** The table's types after making t: the parts first, each type at most once. */
  function Interned(ts: seq<Ty>, t: Ty): seq<Ty>
    decreases t, 1
  {
    Added(InternedParts(ts, t), t)
  }

  function Added(ts: seq<Ty>, t: Ty): seq<Ty> { if t in ts then ts else ts + [t] }

  function InternedParts(ts: seq<Ty>, t: Ty): seq<Ty>
    decreases t, 0
  {
    match t
    case TOf(_, sub) => Interned(ts, sub)
    case TMap(k, v) => Interned(Interned(ts, k), v)
    case TTuple(subs) => InternedAll(ts, subs)
    case TStruct(ms) => InternedMembers(ts, ms)
    case _ => ts
  }

  function InternedAll(ts: seq<Ty>, subs: Tys): seq<Ty>
    decreases subs
  {
    match subs case TNil => ts case TCons(t, tail) => InternedAll(Interned(ts, t), tail)
  }

  function InternedMembers(ts: seq<Ty>, ms: TyMembers): seq<Ty>
    decreases ms
  {
    match ms case MNil => ts case MCons(_, t, rest) => InternedMembers(Interned(ts, t), rest)
  }

  lemma {:induction false} AllSnoc(ts: seq<Ty>, subs: Tys, t: Ty)
    ensures InternedAll(ts, Snoc(subs, t)) == Interned(InternedAll(ts, subs), t)
    decreases subs
  {
    if subs.TCons? { AllSnoc(Interned(ts, subs.head), subs.tail, t); }
  }

  lemma {:induction false} MembersSnoc(ts: seq<Ty>, ms: TyMembers, id: nat, t: Ty)
    ensures InternedMembers(ts, SnocMember(ms, id, t)) == Interned(InternedMembers(ts, ms), t)
    decreases ms
  {
    if ms.MCons? { MembersSnoc(Interned(ts, ms.ty), ms.rest, id, t); }
  }

  function Snoc(ts: Tys, t: Ty): Tys {
    match ts case TNil => TCons(t, TNil) case TCons(h, tail) => TCons(h, Snoc(tail, t))
  }

  function SnocMember(ms: TyMembers, id: nat, t: Ty): TyMembers {
    match ms case MNil => MCons(id, t, MNil) case MCons(i, h, rest) => MCons(i, h, SnocMember(rest, id, t))
  }

  lemma {:induction false} DenotedSnoc(nodes: seq<Node>, subs: seq<nat>, id: nat, bound: nat)
    requires Grounded(nodes) && bound <= |nodes| && id < bound && forall i :: 0 <= i < |subs| ==> subs[i] < bound
    ensures forall i :: 0 <= i < |subs + [id]| ==> (subs + [id])[i] < bound
    ensures DenotedAll(nodes, subs + [id], bound) == Snoc(DenotedAll(nodes, subs, bound), Denoted(nodes, id))
    decreases |subs|
  {
    if subs == [] {
      assert [] + [id] == [id] && [id][1..] == [];
    } else {
      assert (subs + [id])[1..] == subs[1..] + [id];
      DenotedSnoc(nodes, subs[1..], id, bound);
    }
  }

  lemma {:induction false} DenotedMemberSnoc(
    nodes: seq<Node>, ids: seq<nat>, tys: seq<nat>, m: nat, id: nat, bound: nat)
    requires Grounded(nodes) && bound <= |nodes| && id < bound && |ids| == |tys|
    requires forall i :: 0 <= i < |tys| ==> tys[i] < bound
    ensures forall i :: 0 <= i < |tys + [id]| ==> (tys + [id])[i] < bound
    ensures DenotedMembers(nodes, ids + [m], tys + [id], bound) ==
            SnocMember(DenotedMembers(nodes, ids, tys, bound), m, Denoted(nodes, id))
    decreases |tys|
  {
    if tys == [] {
      assert ids + [m] == [m] && tys + [id] == [id] && [m][1..] == [] && [id][1..] == [];
    } else {
      assert (ids + [m])[1..] == ids[1..] + [m] && (tys + [id])[1..] == tys[1..] + [id];
      DenotedMemberSnoc(nodes, ids[1..], tys[1..], m, id, bound);
    }
  }

  /** Decoding n + 1 types is decoding n and then one. */
  lemma {:induction false} DecodeSnoc(code: seq<Byte>, pos: nat, n: nat)
    requires pos <= |code|
    ensures var a := DecodeTypes(code, pos, n);
      DecodeTypes(code, pos, n + 1) ==
        if a.None? then None
        else match Decode(code, a.value.1)
          case None => None
          case Some((t, e)) => Some((Snoc(a.value.0, t), e))
    decreases n
  {
    hide Decode;
    if n > 0 && Decode(code, pos).Some? {
      DecodeSnoc(code, Decode(code, pos).value.1, n - 1);
    }
  }

  lemma {:induction false} DecodeMemberSnoc(code: seq<Byte>, pos: nat, n: nat)
    requires pos <= |code|
    ensures var a := DecodeMembers(code, pos, n);
      DecodeMembers(code, pos, n + 1) ==
        if a.None? || U64At(code, a.value.1).None? then None
        else match Decode(code, a.value.1 + 8)
          case None => None
          case Some((t, e)) => Some((SnocMember(a.value.0, U64At(code, a.value.1).value, t), e))
    decreases n
  {
    hide Decode, U64At;
    if n > 0 && U64At(code, pos).Some? && Decode(code, pos + 8).Some? {
      DecodeMemberSnoc(code, Decode(code, pos + 8).value.1, n - 1);
    }
  }

  lemma {:induction false} MoreTypesFail(code: seq<Byte>, pos: nat, i: nat, n: nat)
    requires pos <= |code| && i <= n && DecodeTypes(code, pos, i).None?
    ensures DecodeTypes(code, pos, n).None?
    decreases n
  {
    if i < n {
      MoreTypesFail(code, pos, i, n - 1);
      DecodeSnoc(code, pos, n - 1);
    }
  }

  lemma {:induction false} MoreMembersFail(code: seq<Byte>, pos: nat, i: nat, n: nat)
    requires pos <= |code| && i <= n && DecodeMembers(code, pos, i).None?
    ensures DecodeMembers(code, pos, n).None?
    decreases n
  {
    if i < n {
      MoreMembersFail(code, pos, i, n - 1);
      DecodeMemberSnoc(code, pos, n - 1);
    }
  }

  /** Every entry is found under the code of what it means, and nothing else is found. */
  ghost predicate Consistent(nodes: seq<Node>, table: map<seq<Byte>, nat>)
    requires Grounded(nodes)
  {
    && (forall id :: 0 <= id < |nodes| ==>
          var t := Denoted(nodes, id); Fits(t) && Code(t) in table && table[Code(t)] == id)
    && (forall c :: c in table ==> table[c] < |nodes| && Code(Denoted(nodes, table[c])) == c)
  }

  lemma FoundEntry(nodes: seq<Node>, table: map<seq<Byte>, nat>, t: Ty)
    requires Grounded(nodes) && Consistent(nodes, table) && Fits(t) && Code(t) in table
    ensures table[Code(t)] < |nodes| && Denoted(nodes, table[Code(t)]) == t && t in Types(nodes)
  {
    hide Code, Denoted, Fits;
    var id := table[Code(t)];
    CodesDistinguish(Denoted(nodes, id), t);
    assert Types(nodes)[id] == t;
  }

  lemma NewEntry(nodes: seq<Node>, table: map<seq<Byte>, nat>, node: Node)
    requires Grounded(nodes) && Consistent(nodes, table) && PartsBelow(node, |nodes|)
    requires Fits(DenotedNode(nodes, node, |nodes|)) && Code(DenotedNode(nodes, node, |nodes|)) !in table
    ensures var t, more := DenotedNode(nodes, node, |nodes|), nodes + [node];
      && Grounded(more) && Consistent(more, table[Code(t) := |nodes|]) && Denoted(more, |nodes|) == t
      && t !in Types(nodes) && Types(more) == Types(nodes) + [t]
  {
    hide Code, Fits, DenotedNode;
    var more := nodes + [node];
    GroundedSnoc(nodes, node);
    NodePrefix(nodes, more, node, |nodes|, |nodes|);
    assert Denoted(more, |nodes|) == DenotedNode(nodes, node, |nodes|);
    hide Denoted;
    forall k | 0 <= k < |nodes| ensures Denoted(more, k) == Denoted(nodes, k) { DenotedPrefix(nodes, more, k); }
  }

  /** Two entries are the same exactly when they mean the same. */
  lemma EntriesDistinct(nodes: seq<Node>, table: map<seq<Byte>, nat>, i: nat, j: nat)
    requires Grounded(nodes) && Consistent(nodes, table) && i < |nodes| && j < |nodes|
    ensures i == j <==> Denoted(nodes, i) == Denoted(nodes, j)
  {
    hide Denoted, Code;
  }

  /** What make achieves between two states of the table. */
  ghost predicate Makes(before: seq<Node>, after: seq<Node>, code: seq<Byte>, pos: nat, r: Option<(nat, nat)>) {
    && Grounded(before) && Grounded(after) && before <= after
    && match Decode(code, pos)
       case None => r.None?
       case Some((t, e)) =>
         && r.Some? && r.value.1 == e && r.value.0 < |after| && Denoted(after, r.value.0) == t
         && Types(after) == Interned(Types(before), t)
  }

  /** The last step of make: the parts are there, and the entry for the whole is added. */
  lemma Completes(
    before: seq<Node>, mid: seq<Node>, after: seq<Node>, node: Node, code: seq<Byte>, pos: nat, end: nat, id: nat)
    requires Grounded(before) && Grounded(mid) && Grounded(after) && before <= mid <= after && PartsBelow(node, |mid|)
    requires Decode(code, pos) == Some((DenotedNode(mid, node, |mid|), end))
    requires Types(mid) == InternedParts(Types(before), DenotedNode(mid, node, |mid|))
    requires id < |after| && Denoted(after, id) == DenotedNode(mid, node, |mid|)
    requires Types(after) == Added(Types(mid), DenotedNode(mid, node, |mid|))
    ensures Makes(before, after, code, pos, Some((id, end)))
  {
    hide Decode, Types, Denoted, DenotedNode, Grounded;
  }

  lemma NothingMade(nodes: seq<Node>, code: seq<Byte>, pos: nat)
    requires Grounded(nodes) && Decode(code, pos).None?
    ensures Makes(nodes, nodes, code, pos, None)
  {
  }

  class TypeTable {
    var types: seq<Node>
    var codeToId: map<seq<Byte>, nat>

    ghost predicate Valid()
      reads this
    {
      Grounded(types) && Consistent(types, codeToId)
    }

    constructor ()
      ensures Valid() && types == []
    {
      types, codeToId := [], map[];
    }

    /** get_type: the entry with this code, made from this node if there is none. */
    method GetType(code: seq<Byte>, node: Node) returns (id: nat)
      requires Valid() && PartsBelow(node, |types|)
      requires Fits(DenotedNode(types, node, |types|)) && code == Code(DenotedNode(types, node, |types|))
      modifies this
      ensures Valid() && old(types) <= types
      ensures id < |types| && Denoted(types, id) == old(DenotedNode(types, node, |types|))
      ensures Types(types) == Added(old(Types(types)), old(DenotedNode(types, node, |types|)))
    {
      hide Grounded, Consistent, Code, Denoted, DenotedNode, Types, Fits, PartsBelow;
      if code in codeToId {
        id := codeToId[code];
        FoundEntry(types, codeToId, DenotedNode(types, node, |types|));
      } else {
        NewEntry(types, codeToId, node);
        id := |types|;
        codeToId := codeToId[code := id];
        types := types + [node];
      }
    }

    /** make: decodes the type at pos and interns it, its parts first. */
    method Make(code: seq<Byte>, pos: nat) returns (r: Option<(nat, nat)>)
      requires Valid()
      modifies this
      ensures Valid() && Makes(old(types), types, code, pos, r)
      decreases |code| - pos, 2
    {
      hide Grounded, Consistent, Code, Denoted, DenotedNode, Types, Fits, DecodeTypes, DecodeMembers, Interned, Makes;
      if pos >= |code| {
        r := None;
        NothingMade(types, code, pos);
      } else if LeafOf(code[pos]).Some? {
        r := MakeLeaf(code, pos);
      } else if ContainerOf(code[pos]).Some? {
        r := MakeOf(code, pos);
      } else if code[pos] == MAP {
        r := MakeMap(code, pos);
      } else if pos + 9 > |code| {
        r := None;
        NothingMade(types, code, pos);
      } else if code[pos] == FX_N {
        r := MakeFx(code, pos);
      } else if code[pos] == TUPLE_N {
        r := MakeTuple(code, pos);
      } else if code[pos] == STRUCT {
        r := MakeStruct(code, pos);
      } else {
        r := None;
        NothingMade(types, code, pos);
      }
    }

    /** get_type for a node whose parts were just made. */
    method Complete(
      ghost before: seq<Node>, code: seq<Byte>, pos: nat, node: Node, end: nat) returns (r: Option<(nat, nat)>)
      requires Valid() && Grounded(before) && before <= types && PartsBelow(node, |types|)
      requires Decode(code, pos) == Some((DenotedNode(types, node, |types|), end))
      requires Types(types) == InternedParts(Types(before), DenotedNode(types, node, |types|))
      modifies this
      ensures Valid() && Makes(before, types, code, pos, r) && r.Some?
    {
      hide Grounded, Consistent, Code, Denoted, DenotedNode, Types, Fits, PartsBelow, Decode, Makes, InternedParts;
      ghost var mid := types;
      DecodeIsCode(code, pos);
      var id := GetType(code[pos..end], node);
      r := Some((id, end));
      Completes(before, mid, types, node, code, pos, end, id);
    }

    method MakeLeaf(code: seq<Byte>, pos: nat) returns (r: Option<(nat, nat)>)
      requires Valid() && pos < |code| && LeafOf(code[pos]).Some?
      modifies this
      ensures Valid() && Makes(old(types), types, code, pos, r)
    {
      hide Grounded, Consistent, Code, Denoted, Types, Fits, LeafOf, Makes;
      r := Complete(types, code, pos, LeafNode(LeafOf(code[pos]).value), pos + 1);
    }

    method MakeFx(code: seq<Byte>, pos: nat) returns (r: Option<(nat, nat)>)
      requires Valid() && pos + 9 <= |code| && code[pos] == FX_N
      modifies this
      ensures Valid() && Makes(old(types), types, code, pos, r)
    {
      Tags(Any, Array);
      hide Grounded, Consistent, Code, Denoted, Types, Fits, LeafOf, ContainerOf, Makes;
      var n := ReadUint64(code, pos + 1);
      r := Complete(types, code, pos, FxNode(n), pos + 9);
    }

    method MakeOf(code: seq<Byte>, pos: nat) returns (r: Option<(nat, nat)>)
      requires Valid() && pos < |code| && LeafOf(code[pos]).None? && ContainerOf(code[pos]).Some?
      modifies this
      ensures Valid() && Makes(old(types), types, code, pos, r)
      decreases |code| - pos, 0
    {
      hide Grounded, Consistent, Code, Denoted, Types, Fits, LeafOf, ContainerOf;
      ghost var before := types;
      var sub := Make(code, pos + 1);
      if sub.None? { return None; }
      assert Types(types) == Interned(Types(before), Denoted(types, sub.value.0));
      r := Complete(before, code, pos, OfNode(ContainerOf(code[pos]).value, sub.value.0), sub.value.1);
    }

    method MakeMap(code: seq<Byte>, pos: nat) returns (r: Option<(nat, nat)>)
      requires Valid() && pos < |code| && code[pos] == MAP
      modifies this
      ensures Valid() && Makes(old(types), types, code, pos, r)
      decreases |code| - pos, 0
    {
      Tags(Any, Array);
      hide Grounded, Consistent, Code, Denoted, Types, Fits, LeafOf, ContainerOf;
      ghost var before := types;
      var key := Make(code, pos + 1);
      if key.None? { return None; }
      ghost var mid := types;
      var val := Make(code, key.value.1);
      if val.None? { return None; }
      DenotedPrefix(mid, types, key.value.0);
      r := Complete(before, code, pos, MapNode(key.value.0, val.value.0), val.value.1);
    }

    method MakeTuple(code: seq<Byte>, pos: nat) returns (r: Option<(nat, nat)>)
      requires Valid() && pos + 9 <= |code| && code[pos] == TUPLE_N
      modifies this
      ensures Valid() && Makes(old(types), types, code, pos, r)
      decreases |code| - pos, 0
    {
      Tags(Any, Array);
      hide Grounded, Consistent, Code, Denoted, Types, Fits, LeafOf, ContainerOf, DecodeTypes, DenotedAll;
      ghost var before := types;
      var n := ReadUint64(code, pos + 1);
      var subs, end := MakeTypes(code, pos + 9, n);
      if end.None? { return None; }
      r := Complete(before, code, pos, TupleNode(subs), end.value);
    }

    method MakeStruct(code: seq<Byte>, pos: nat) returns (r: Option<(nat, nat)>)
      requires Valid() && pos + 9 <= |code| && code[pos] == STRUCT
      modifies this
      ensures Valid() && Makes(old(types), types, code, pos, r)
      decreases |code| - pos, 0
    {
      Tags(Any, Array);
      hide Grounded, Consistent, Code, Denoted, Types, Fits, LeafOf, ContainerOf, DecodeMembers, DenotedMembers;
      ghost var before := types;
      var n := ReadUint64(code, pos + 1);
      var ids, tys, end := MakeMembers(code, pos + 9, n);
      if end.None? { return None; }
      r := Complete(before, code, pos, StructNode(ids, tys), end.value);
    }

    method MakeTypes(code: seq<Byte>, pos: nat, n: nat) returns (subs: seq<nat>, end: Option<nat>)
      requires Valid() && pos <= |code|
      modifies this
      ensures Valid() && old(types) <= types
      ensures forall i :: 0 <= i < |subs| ==> subs[i] < |types|
      ensures match DecodeTypes(code, pos, n)
        case None => end.None?
        case Some((ts, e)) =>
          end == Some(e) && DenotedAll(types, subs, |types|) == ts && Types(types) == InternedAll(old(Types(types)), ts)
      decreases |code| - pos, 3
    {
      hide Grounded, Consistent, Code, Denoted, Types, Fits, Decode, Interned;
      subs, end := [], Some(pos);
      var i := 0;
      while i < n
        invariant i <= n && end.Some? && pos <= end.value <= |code|
        invariant Valid() && old(types) <= types
        invariant forall k :: 0 <= k < |subs| ==> subs[k] < |types|
        invariant DecodeTypes(code, pos, i) == Some((DenotedAll(types, subs, |types|), end.value))
        invariant Types(types) == InternedAll(old(Types(types)), DenotedAll(types, subs, |types|))
      {
        ghost var before := types;
        ghost var ts := DenotedAll(types, subs, |types|);
        DecodeSnoc(code, pos, i);
        var sub := Make(code, end.value);
        if sub.None? {
          MoreTypesFail(code, pos, i + 1, n);
          end := None;
          return;
        }
        DenotedAllPrefix(before, types, subs, |before|, |types|);
        DenotedSnoc(types, subs, sub.value.0, |types|);
        AllSnoc(old(Types(types)), ts, Denoted(types, sub.value.0));
        subs, end, i := subs + [sub.value.0], Some(sub.value.1), i + 1;
      }
    }

    method MakeMembers(code: seq<Byte>, pos: nat, n: nat) returns (ids: seq<nat>, tys: seq<nat>, end: Option<nat>)
      requires Valid() && pos <= |code|
      modifies this
      ensures Valid() && old(types) <= types
      ensures |ids| == |tys| && forall i :: 0 <= i < |tys| ==> tys[i] < |types|
      ensures match DecodeMembers(code, pos, n)
        case None => end.None?
        case Some((ms, e)) =>
          && end == Some(e) && DenotedMembers(types, ids, tys, |types|) == ms
          && Types(types) == InternedMembers(old(Types(types)), ms)
      decreases |code| - pos, 3
    {
      hide Grounded, Consistent, Code, Denoted, Types, Fits, Decode, Interned;
      ids, tys, end := [], [], Some(pos);
      var i := 0;
      while i < n
        invariant i <= n && end.Some? && pos <= end.value <= |code|
        invariant Valid() && old(types) <= types
        invariant |ids| == |tys| && forall k :: 0 <= k < |tys| ==> tys[k] < |types|
        invariant DecodeMembers(code, pos, i) == Some((DenotedMembers(types, ids, tys, |types|), end.value))
        invariant Types(types) == InternedMembers(old(Types(types)), DenotedMembers(types, ids, tys, |types|))
      {
        ghost var before := types;
        ghost var ms := DenotedMembers(types, ids, tys, |types|);
        DecodeMemberSnoc(code, pos, i);
        if end.value + 8 > |code| {
          MoreMembersFail(code, pos, i + 1, n);
          end := None;
          return;
        }
        var m := ReadUint64(code, end.value);
        var sub := Make(code, end.value + 8);
        if sub.None? {
          MoreMembersFail(code, pos, i + 1, n);
          end := None;
          return;
        }
        DenotedMembersPrefix(before, types, ids, tys, |before|, |types|);
        DenotedMemberSnoc(types, ids, tys, m, sub.value.0, |types|);
        MembersSnoc(old(Types(types)), ms, m, Denoted(types, sub.value.0));
        ids, tys, end, i := ids + [m], tys + [sub.value.0], Some(sub.value.1), i + 1;
      }
    }
  }

  lemma GroundedSnoc(nodes: seq<Node>, node: Node)
    requires Grounded(nodes) && PartsBelow(node, |nodes|)
    ensures Grounded(nodes + [node])
  {
  }

  /** Two type literals, made one after the other, get the same entry exactly when they
      mean the same type. */
  method TypeLiterals(table: TypeTable, a: AstType, b: AstType) returns (i: nat, j: nat)
    requires table.Valid() && Fits(Meant(a)) && Fits(Meant(b))
    modifies table
    ensures table.Valid() && (i == j <==> Meant(a) == Meant(b))
    ensures Types(table.types) == Interned(Interned(old(Types(table.types)), Meant(a)), Meant(b))
  {
    TypeRoundTrip(a, []);
    TypeRoundTrip(b, []);
    assert Encode(a) + [] == Encode(a) && Encode(b) + [] == Encode(b);
    var x := table.Make(Encode(a), 0);
    ghost var mid := table.types;
    var y := table.Make(Encode(b), 0);
    i, j := x.value.0, y.value.0;
    DenotedPrefix(mid, table.types, i);
    EntriesDistinct(table.types, table.codeToId, i, j);
  }
}
