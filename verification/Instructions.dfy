/** Instructions, and the labels that compiled code jumps to. */
module Instructions {
  import opened Values

  datatype Part = Whole | End | Else | False_ | True_ | Begin | Case(i: nat) | Cond(i: nat)

  /** Jump labels carry the number make_jump_id drew; function labels carry a name. */
  datatype Label =
    | Jump(kind: string, id: nat, part: Part)
    | Function(name: string)
    | Except(name: string)

  /** L is the type of jump targets, F the type of function references: labels in
      compiled code, addresses and pool indices once they are resolved. */
  datatype Inst<L, F> =
    | Mark(l: L)
    | Goto(l: L)
    | IfElse(l: L)
    | ForNext(l: L)
    | Try(l: L)
    | Call(f: F)
    | NewFx(f: F)
    | Capture
    | Invoke(arity: nat)
    | Return
    | ReturnNull
    | Throw
    | Yield
    | CoReturn
    | CoDump
    | Exit
    | Scrap
    | Duplicate
    | Swap
    | Unpack(size: nat)
    | LoadX(addr: nat)
    | StoreX(addr: nat)
    | LoadK(k: nat)
    | StoreK(k: nat)
    | GlobalRead(id: nat)
    | GlobalWrite(id: nat)
    | Prim(p: PrimOp)

  type Asm = Inst<Label, Label>
  type Op = Inst<nat, nat>

  /** An entry of the function pool. */
  datatype Context = Context(
    name: Label, arity: nat, address: nat, frameSize: nat, isExtern: bool, isVariadic: bool)
}
