/** Linking and assembling: offsets of labels, the string pool, and the byte code. */
module Linking {
  import opened Binary
  import opened Values
  import opened Instructions
  import opened Labelled
  import opened Bytecode
  import opened Relocation
  import T = TypeCodes

  /** Sizes as the linker counts them, before labels are resolved. */
  function InstSize(i: Asm): nat {
    match i
    case Mark(_) => 0
    case Goto(_) => 9
    case IfElse(_) => 9
    case ForNext(_) => 9
    case Try(_) => 9
    case Call(_) => 9
    case NewFx(_) => 9
    case Invoke(_) => 2
    case Unpack(_) => 2
    case LoadX(_) => 9
    case StoreX(_) => 9
    case GlobalRead(_) => 9
    case GlobalWrite(_) => 9
    case Prim(p) => PrimSize(p)
    case _ => 1
  }

  function PrimSize(p: PrimOp): nat {
    match p
    case Simple(_) => 1
    case NewC(_) => 2
    case NewISmall(_) => 2
    case NewType(code) => 1 + |code| + 1
    case _ => 9
  }

  /** Where the instruction at position k starts; beyond the end, where the code ends. */
  function Offset(code: seq<Asm>, k: nat): nat
    decreases k
  {
    if k == 0 || code == [] then 0 else InstSize(code[0]) + Offset(code[1..], k - 1)
  }

  lemma {:induction false} OffsetStep(code: seq<Asm>, k: nat)
    requires k < |code|
    ensures Offset(code, k + 1) == Offset(code, k) + InstSize(code[k])
    decreases k
  {
    if k > 0 { OffsetStep(code[1..], k - 1); }
  }

  function ToOffset(code: seq<Asm>): Move { (k: nat) => Offset(code, k) }

  /** An instruction as it is written: labels as offsets, functions as pool indices. */
  function Placed(code: seq<Asm>, fns: seq<Context>, i: Asm): Op {
    MapOp(ResolveInst(code, fns, i), ToOffset(code))
  }

  /** The code from position k on, as bytes. */
  function BytesFrom(code: seq<Asm>, fns: seq<Context>, pool: seq<string>, k: nat): seq<Byte>
    decreases |code| - k
  {
    if k >= |code| then [] else Bytes(Placed(code, fns, code[k]), pool) + BytesFrom(code, fns, pool, k + 1)
  }

  function Assembled(code: seq<Asm>, fns: seq<Context>, pool: seq<string>): seq<Byte> {
    BytesFrom(code, fns, pool, 0)
  }

  /** Every instruction fits the format once its labels are resolved. */
  ghost predicate FitsFormat(code: seq<Asm>, fns: seq<Context>, pool: seq<string>) {
    forall k :: 0 <= k < |code| && !code[k].Mark? ==> Encodable(Placed(code, fns, code[k]), pool)
  }

  lemma SizeIsLength(code: seq<Asm>, fns: seq<Context>, pool: seq<string>, i: Asm)
    requires i.Mark? || Encodable(Placed(code, fns, i), pool)
    ensures |Bytes(Placed(code, fns, i), pool)| == InstSize(i)
  {
    hide Find, FnIndex, Offset, Be, SimpleCode, IsTypeCode, PoolIndex;
  }

  /** The instruction at position k is written at its offset. */
  lemma {:induction false} WrittenAt(code: seq<Asm>, fns: seq<Context>, pool: seq<string>, j: nat, k: nat)
    requires FitsFormat(code, fns, pool) && j <= k <= |code|
    ensures Offset(code, k) >= Offset(code, j)
    ensures |BytesFrom(code, fns, pool, j)| >= Offset(code, k) - Offset(code, j)
    ensures BytesFrom(code, fns, pool, j)[Offset(code, k) - Offset(code, j)..] == BytesFrom(code, fns, pool, k)
    decreases k - j
  {
    hide Encodable, Bytes, Offset;
    if j < k {
      SizeIsLength(code, fns, pool, code[j]);
      OffsetStep(code, j);
      WrittenAt(code, fns, pool, j + 1, k);
      var part, rest := Bytes(Placed(code, fns, code[j]), pool), BytesFrom(code, fns, pool, j + 1);
      assert (part + rest)[|part| + (Offset(code, k) - Offset(code, j + 1))..]
          == rest[Offset(code, k) - Offset(code, j + 1)..];
    } else {
      assert BytesFrom(code, fns, pool, j)[0..] == BytesFrom(code, fns, pool, j);
    }
  }

  lemma OffsetZero(code: seq<Asm>)
    ensures Offset(code, 0) == 0
  {
  }

  /** Fetching at the offset of instruction k gives exactly that instruction, resolved, and
      leaves the program counter at the offset of instruction k + 1. */
  lemma FetchPlaced(code: seq<Asm>, fns: seq<Context>, pool: seq<string>, k: nat)
    requires FitsFormat(code, fns, pool) && k < |code| && !code[k].Mark?
    ensures Fetch(Assembled(code, fns, pool), pool, Offset(code, k)) ==
            Some((Placed(code, fns, code[k]), Offset(code, k + 1)))
  {
    hide Encodable, Bytes, Offset, Fetch;
    var all, at := Assembled(code, fns, pool), Offset(code, k);
    OffsetZero(code);
    WrittenAt(code, fns, pool, 0, k);
    var part := Bytes(Placed(code, fns, code[k]), pool);
    assert all[at..] == part + BytesFrom(code, fns, pool, k + 1);
    assert all[at..at + |part|] == all[at..][..|part|] == part;
    assert T.At(all, at, part);
    NotMark(code, fns, code[k]);
    FetchBytes(all, pool, at, Placed(code, fns, code[k]));
    SizeIsLength(code, fns, pool, code[k]);
    OffsetStep(code, k);
  }

  lemma NotMark(code: seq<Asm>, fns: seq<Context>, i: Asm)
    requires !i.Mark?
    ensures !Placed(code, fns, i).Mark?
  {
  }

  /** Past the last instruction there is nothing to fetch. */
  lemma FetchEnd(code: seq<Asm>, fns: seq<Context>, pool: seq<string>)
    requires FitsFormat(code, fns, pool)
    ensures Fetch(Assembled(code, fns, pool), pool, Offset(code, |code|)) == None
  {
    hide Encodable, Bytes, Offset;
    OffsetZero(code);
    WrittenAt(code, fns, pool, 0, |code|);
    assert Assembled(code, fns, pool)[Offset(code, |code|)..] == [];
  }
}
