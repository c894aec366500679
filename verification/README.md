# Litan back end: model and proofs

Litan is a scripting language. Its compiler `ltnc` lowers a semantic tree (SST) through an
optimizer, a code generator, a peephole pass, a linker and an assembler to byte code, and the
virtual machine `ltnvm` runs that byte code on one vector of values that holds the locals, the
pending operands and the arguments of all calls. This project models that path as one stack of
refinements and proves that what a program means survives it. Around it stand models of the
run-time parts with invariants of their own: the garbage collector, the type table, the value
order, the iterators, the function worklist and the header of a bytecode file.

`dafny verify dfyconfig.toml` checks everything.

## How the proof is built

* `Sst`, `BigStep`: the tree and its meaning, an evaluator with fuel. Scalars and strings are
  computed (`Values`); operators on heap objects and floats are a record of arbitrary total
  functions that return a value or an exception, so every theorem holds for whatever they do.
* `Machine`, `Compile`, `Labelled`: a small-step machine with one stack of locals and one of
  operands per call, and the labelled code of every node. `Simulation` and `CompilerProof` match
  each evaluation with a machine run; `WellFormed` shows evaluation of an accepted program never
  leaves the described part of the language; `Correctness` turns both into if-and-only-ifs.
* `Operators`: what the nodes with operands stand for, evaluated and compiled, in terms of the
  instructions themselves, and what scalar operators compute.
* `ClosedCode`, `Programs`, `Labels`, `Linking`, `Linker`, `Build`: labels are unique as the
  strings the linker compares, every target exists, so linking and assembling never fail.
* `Relocation`, `Peephole`, `PeepholeProof`: code may be moved, and rewriting it preserves runs.
* `Bytecode`, `ByteMachine`: fetching decodes what was assembled; the byte machine steps with
  the labelled one.
* `FlatMachine`, `FlatProof`, `VMCore`: the shared value vector with saved frame pointers refines
  the split stacks, and classes that update their fields in place implement it, handler by handler.
* `EndToEnd`: the back end in one: the loaded bytes on the shared stack return, fail or run
  forever exactly as evaluation of the tree that was compiled says.
* `Heights`, `CompiledHeights`, `ProgramHeights`, `StackDiscipline`: every place of compiled code
  has one static operand height, and every state of every run, with coroutines, has that height.
* `Optimize`, `Folding`, `Arrays`, `OptimizeProof`: the optimizer, when a fold gives what the
  machine computes, and that fair folds preserve the meaning of a tree and leave nothing to fold.
* `Garbage`, `Tracking`, `Optimized`: the original and the optimized program side by side. Frames
  have other sizes, and where the optimizer drops an array it took for true, the heaps differ in
  garbage; calls still have the same outcome. `Garbage.Oblivious` and `Garbage.MakesSequences` say
  what this asks of operators, and `Garbage.ObliviousMakers` that there are such operators.
* `Nesting`, `OptimizedPrograms`, `OptimizedEndToEnd`: what the analysis guarantees survives the
  optimizer, so the whole tool is one: what is loaded in the end, after optimizing and counting
  frames again, does what evaluation of the program before the optimizer says.
* `Frames`, `OptimizedFrames`, `Scopes`: exactly when the frames that are counted are large enough,
  before and after optimizing, and the slots that scopes give to variables.
* `Syntax`, `NamesToSlots`, `Analysis`, `Definite`: statements before analysis and what they do by
  names; the analysis over scopes makes trees that do the same over slots. What it accepts has
  such a meaning, unless the default of a switch declares something.
* `Codegen`: the code generator as a class that fills buffers and draws jump numbers, proved to
  emit what `Compile` specifies.

## Where the code falls short of its contract

Each of these is kept in the model as the code has it, with a concrete input that shows the
failure and the condition under which the contract is met.

* The documentation says an expression leaves exactly one value (doc/technical/nodes.md:10-13).
  A return to the end of an immediately invoked block from inside `k` for-each loops leaves
  `k` iterators below it: `Pending.OneValueExactly`, `Pending.MachineKeepsIterators`. Programs
  without such returns are the well-formed ones of the main theorems.
* The optimizer reads characters unsigned while the machine reads them signed: half of the
  character 200 is folded to 100 and is -28 at run time (`Folding.HalfOfHighCharacter`).
  `Folding.NegationFoldsExactly` and `Folding.NumbersFoldExactly` say for every operator when
  folding is right, `Folding.FoldsRightly` in terms of the two literals.
* The optimizer takes an array literal as a test without evaluating its elements. That loses an
  exception (`Arrays.ArrayFoldDropsException`). `Arrays.ArrayFoldsExactly` says when it is right
  but for garbage; programs that only drop arrays of literals, variables and such arrays are
  covered by the main theorems.
* The peephole patterns for `inc` and `dec` would be wrong for booleans and for the outermost
  characters (`PeepholeProof.IncIsAddExactly`); the code generator never emits what they look for
  (`EndToEnd.NoOnesIn`).
* Slots in a last arm or a default that is itself a declaration, and slots under a member read,
  are not counted: `Frames.UncountedLastArm`, `Frames.UncountedDefault`,
  `Frames.UncountedMemberRead`. `Frames.StmtBoundExactly` and `Optimized.OptWellFormedExactly` say
  for every body when its frame suffices: when its variables reach no further than the count.
* The default of a switch has no scope of its own, so what it declares is accepted after the switch
  though it may never have got a value: `Definite.UnsetAfterSwitch`. Without such defaults every
  accepted statement has a meaning: `Definite.StmtMeant`.
* A reversed range whose step points away from its end does not give the reverse:
  `Iterators.ReversedRangeGivesExactly`. Zipping nothing never stops: `Iterators.ZippedNothing`.
* Strings with a NUL are not read back from the header: `FileHeader.TextReads`.
* Whether a table accepts a function next to a variadic one depends on the order of
  declaration: `Symbols.VariadicAfterFixed`. `Symbols.OrderMattersExactly` and
  `Symbols.EveryOrderExactly` say for which functions.

## Model

| member | source | states |
|---|---|---|
| `OptimizedEndToEnd.ShippedReturnsExactly` | cli/shared/shared.cxx:3-15 | What the tool ships, a program optimized between analysis and code generation with its frames counted after that, returns on the byte machine just what evaluation of the original program gives, but for garbage where arrays were dropped |
| `OptimizedEndToEnd.ShippedReturnsPlain` | cli/shared/shared.cxx:3-15 | A number, a string, a truth value or null is returned if and only if evaluation of the original gives it; without dropped arrays, any value is |
| `OptimizedEndToEnd.ShippedFailsExactly` | cli/shared/shared.cxx:3-15 | The shipped program ends in an unhandled exception with a message if and only if evaluation of the original raises that string, or something that is no string and the message is the error of the cast |
| `OptimizedEndToEnd.ShippedDivergesExactly` | cli/shared/shared.cxx:3-15 | It runs forever if and only if evaluation of the original has no end, and it never leaves what the machine defines |
| `OptimizedEndToEnd.ShippedMeansSame` | cli/shared/shared.cxx:6-7 | The optimized program can be linked and called, and each call of it means what it meant |
| `OptimizedEndToEnd.BuildScript` | cli/commands/build.cxx:8-11 | For an analysed program optimizing, compiling, rewriting, linking and assembling always succeed and give what is loaded |
| `OptimizedPrograms.OptAnalysed` | ltnc/optimize/optimize.cxx:4-14 | What the analysis guarantees of a program (labels, ends, returns, callees) holds after optimizing it |
| `OptimizedPrograms.FewerNames` | ltnc/optimize/optimize.cxx:4-14 | Optimizing may drop ends, returns and calls and adds none |
| `Nesting.StmtKeepsReturns` | ltnc/scoping/MinorScope.cxx:46-56 | Where returns go to the end their scope names, an end that a statement returns to is an end in it or the one around it |
| `Programs.ReturnsKnown` | ltnc/analyze/analyze_return.cxx:9-17 | Every end that a program returns to exists in it |
| `EndToEnd.LoadedReturnsExactly` | ltnvm/VM.cxx:201-217 | The machine that fetches bytes and keeps one stack returns v for a call if and only if the call means v: compiling, peephole, linking, assembling and fetching together |
| `EndToEnd.LoadedFailsExactly` | ltnvm/VM.cxx:268-286 | It ends in an unhandled exception with a message if and only if the call raises the string that the message is, or raises something that is no string and the message is the error of the cast |
| `EndToEnd.LoadedDivergesExactly` | ltnvm/VM.cxx:201-217 | It runs forever if and only if evaluation has no end, and it never pops an empty stack, misses a slot or frame, or leaves the code |
| `EndToEnd.MainLoop` | ltnvm/VM.cxx:201-217 | n turns of the in-place fetch-execute loop do what n steps of the flat machine do |
| `EndToEnd.LoadedRuns` | ltnc/peephole/peephole.cxx:176-189 | Every run of the loaded bytes is a run of the compiled code, moved, with at least as many steps |
| `EndToEnd.LoadedIs` | ltnc/link/link.cxx:51-73 | What is loaded is the rewritten code of the program with every function address at the offset of its label |
| `EndToEnd.FlatRunAgrees` | ltnvm/VMStack.hxx:50-61 | Whole runs of the shared stack go along with runs on split stacks |
| `EndToEnd.NoOnesIn` | ltnc/compile/compile_primitives.cxx:9-23 | Compiled code has no `newi 1`, so the patterns for inc and dec never match |
| `EndToEnd.ExitIsLastByte` | ltnc/compile/compile.cxx:40 | An exit at the end of the code is the last byte, where the outermost call returns to |
| `Correctness.ReturnsExactly` | ltnc/compile/compile_function.cxx:22-52 | The labelled machine returns v from a call if and only if the call means v |
| `Correctness.FailsExactly` | ltnvm/inst/inst_debug.cxx:31-48 | It ends in an unhandled exception if and only if the call raises it: the message is the string that was raised, or the error that it is none |
| `Correctness.DivergesExactly` | ltnc/compile/compile_function.cxx:22-52 | It runs forever if and only if no fuel is enough for evaluation, and no run goes wrong |
| `CompilerProof.ExprSim` | doc/technical/nodes.md:10-13 | For every expression, running its code stops just past its end with exactly the value of evaluation pushed and everything below unchanged, or throws or runs on exactly as evaluation does |
| `CompilerProof.StmtSim` | doc/technical/nodes.md:5-8 | For every statement, running its code has the outcome of evaluation (falls through, returns, leaves for a label, throws, runs on), with the same locals and a neutral operand stack |
| `CompilerProof.BindSim` | doc/technical/nodes.md:15-18 | For every binding, running its code takes exactly the bound value and does what evaluation of the binding does |
| `CompilerProof.LitMeaning` | ltnc/compile/compile_primitives.cxx:27-80 | The instruction chosen for a literal pushes the value of the literal |
| `CompilerProof.IntMeaning` | ltnc/compile/compile_primitives.cxx:9-23 | Whichever of the five instructions an integer gets pushes that integer and cannot fail |
| `CompilerProof.StrictSim` | ltnc/compile/compile_binary.cxx:8-17 | Operands in order, then one instruction, give the operator applied to their values |
| `Operators.IndexReads` | ltnc/compile/compile_index.cxx:7-16 | An index expression evaluates the container, then the index, then reads the element |
| `Operators.IndexCode` | ltnc/compile/compile_index.cxx:7-16 | Its code is theirs in this order and ends with at |
| `Operators.MemberReads` | ltnc/compile/compile_read.cxx:14-19 | A member expression evaluates the object, then reads that member |
| `Operators.MemberCode` | ltnc/compile/compile_read.cxx:14-19 | Its code ends with the read of that member |
| `Operators.SequencesMade` | ltnc/compile/compile_array.cxx:8-26 | Arrays and tuples are made of the values of their elements, in order, as many as there are |
| `Operators.SequencesCode` | ltnc/compile/compile_array.cxx:8-26 | Their code ends with the instruction that makes an array or a tuple of that size |
| `Operators.OperatorsApply` | ltnc/compile/compile_binary.cxx:114-144 | A binary operator on containers or floats gets the left and the right value, in this order |
| `Operators.BinaryCode` | ltnc/compile/compile_binary.cxx:8-17 | Its code ends with its own instruction |
| `Operators.UnaryCode` | ltnc/compile/compile_unary.cxx:17-43 | So does that of a unary operator |
| `Operators.IndexWrites` | ltnc/compile/compile_write.cxx:73-79 | Assigning to an element evaluates container and index, then writes the value there |
| `Operators.IndexPlaceCode` | ltnc/compile/compile_write.cxx:73-79 | The code of the target ends with the write of an element |
| `Operators.MemberWrites` | ltnc/compile/compile_write.cxx:56-61 | Assigning to a member evaluates the object, then writes the member |
| `Operators.MemberPlaceCode` | ltnc/compile/compile_write.cxx:56-61 | The code of the target ends with the write of that member |
| `Operators.IntegersCompute` | ltnvm/inst/inst_arithmetic.cxx:67-80 | Sum, difference, product and negation of integers |
| `Operators.IntegersDivide` | ltnvm/inst/inst_arithmetic.cxx:84-105 | Quotient and remainder: a is q times b plus r, r smaller than b and with the sign of a |
| `Operators.DividesOnce` | ltnvm/inst/inst_arithmetic.cxx:84-105 | There is only one such quotient and remainder |
| `Operators.NothingDivides` | ltnvm/inst/inst_arithmetic.cxx:84-105 | Division and modulo by zero raise |
| `Operators.ScalarsCompute` | ltnvm/inst/inst_arithmetic.cxx:67-80 | Booleans count as 0 and 1, characters as their codes |
| `Operators.StringsAdd` | ltnvm/inst/inst_arithmetic.cxx:28-32 | Adding strings puts the right one behind the left |
| `Operators.NullsCompare` | ltnvm/inst/inst_deref.cxx:4-11 | Null equals null only, and only null cannot be dereferenced |
| `Operators.FalseValues` | ltnvm/utils/convert.cxx:9-28 | Just null, false and zero of every kind are false |
| `Operators.WrongCountRaises` | ltnvm/inst/inst_invoke.cxx:25-37 | A wrong number of arguments raises an exception that names both numbers |
| `Labels.DecimalValue` | ltnvm/Exception.hxx:46-50 | The numbers in that exception, and in labels, are written with the decimal digits they are read from |
| `Operators.NamesFind` | ltnc/assemble/assemble.cxx:11-15 | A call by label is a call of the first function with that label |
| `Operators.FrameStarts` | ltnvm/VMStack.cxx:11-20 | A function starts with its arguments in the first slots and null in the others |
| `Operators.FrameEvaluated` | ltnvm/VMStack.cxx:11-20 | So does its evaluation |
| `CompilerProof.NullTestSim` | ltnc/compile/compile_unary.cxx:7-13 | The null test compares the operand with null and pushes the answer |
| `CompilerProof.LogicSim` | ltnc/compile/compile_binary.cxx:21-108 | And, or, elvis and null coalescing evaluate the right operand only when the left one does not decide, and drop or cast what they should |
| `CompilerProof.TernarySim` | ltnc/compile/compile_conditional.cxx:21-44 | Exactly the selected arm runs |
| `CompilerProof.CascadeSim` | ltnc/compile/compile_conditional.cxx:64-87 | The first case whose condition is true runs, else the last arm |
| `CompilerProof.SwitchSim` | ltnc/compile/compile_switch.cxx:72-78 | A switch expression gives the body of the first case equal to the subject, else the default, and the subject is gone |
| `CompilerProof.SwitchStmtSim` | ltnc/compile/compile_switch.cxx:62-68 | The same for the switch statement |
| `CompilerProof.ArmsSim` | ltnc/compile/compile_switch.cxx:33-53 | From any test on, the remaining cases are tried in order with the subject kept on the stack |
| `CompilerProof.StructSim` | ltnc/compile/compile_init.cxx:6-16 | A struct literal writes its members in order and leaves the struct |
| `CompilerProof.MapSim` | ltnc/compile/compile_init.cxx:20-31 | A map literal evaluates each value before its key and leaves the map |
| `CompilerProof.CallExprSim` | ltnc/compile/compile_call.cxx:35-44 | A call by label gives the callee the arguments as its first slots and leaves its one result |
| `CompilerProof.InvokeExprSim` | ltnc/compile/compile_call.cxx:20-31 | Invoking a function value packs variadic arguments, adds captures and leaves one result, or raises |
| `CompilerProof.InvokeMemberSim` | ltnc/compile/compile_call.cxx:48-63 | The object is evaluated once, is the first argument, and the swaps keep the member on top |
| `CompilerProof.FxPointerSim` | ltnc/compile/compile_fx_ptr.cxx:9-17 | A function pointer carries the values of its captures in order |
| `CompilerProof.IifeSim` | ltnc/compile/compile_iife.cxx:6-12 | An immediately invoked block leaves the value returned to its end, above the iterators of the loops it left, or null |
| `CompilerProof.GroupSim` | ltnc/compile/compile_write.cxx:28-36 | A group binds the first element first, all elements consumed |
| `CompilerProof.IfSim` | ltnc/compile/compile_if_else.cxx:12-27 | An if runs the arm its condition selects |
| `CompilerProof.WhileSim` | ltnc/compile/compile_loops.cxx:17-34 | A while loop runs its body as often as evaluation does, or forever when evaluation does |
| `CompilerProof.InfiniteSim` | ltnc/compile/compile_loops.cxx:38-48 | An infinite loop ends only by leaving, returning or throwing |
| `CompilerProof.ForEachSim` | ltnc/compile/compile_loops.cxx:52-76 | A for-each binds each value the iterator gives and drops stop value and iterator at the end |
| `CompilerProof.AssignSim` | ltnc/compile/compile_write.cxx:91-96 | The expression is evaluated, then bound |
| `CompilerProof.ReturnSim` | ltnc/compile/compile_return.cxx:8-25 | A return pops the frame, or jumps to the end of its immediately invoked block |
| `CompilerProof.ThrowSim` | ltnc/compile/compile_throw.cxx:5-10 | A throw unwinds with the value of its expression |
| `CompilerProof.StmtsSim` | ltnc/compile/compile_block.cxx:6-12 | Statements of a block run in order until one does not fall through |
| `CompilerProof.GuardedCall` | ltnc/compile/compile_function.cxx:27-49 | A function with an except block: an exception from its body runs the except block with the exception in slot 0 |
| `CompilerProof.CallEnds` | ltnvm/VMStack.cxx:24-32 | The end of a body gives its caller back its own frame with one result on top |
| `WellFormed.GoodExpr` | doc/technical/nodes.md:10-13 | An accepted expression always has a described outcome and leaves one value if it finishes |
| `WellFormed.GoodStmt` | doc/technical/nodes.md:5-8 | An accepted statement always has a described outcome and leaves nothing if it falls through |
| `WellFormed.GoodCall` | ltnvm/inst/inst_invoke.cxx:40-49 | A call with the right number of slots always has a described outcome |
| `Pending.OneValueExactly` | ltnc/compile/compile_return.cxx:17-20 | A return from inside k for-each loops makes its immediately invoked block leave k + 1 values: it is an expression if and only if k is 0 |
| `Pending.IteratorsPileUp` | ltnc/compile/compile_loops.cxx:57-63 | The iterators of all the loops a return jumps out of are left behind |
| `Pending.MachineKeepsIterators` | ltnc/compile/compile_iife.cxx:6-12 | The compiled code ends with those k iterators on the machine's stack |
| `Codegen.Generator.MakeJumpId` | ltnc/make_jump_id.cxx:6-10 | Each number is drawn once |
| `Codegen.Generator.CompileConditional` | ltnc/compile/compile_conditional.cxx:21-59 | The buffer filled in sequence is the specified code, with and without else arm |
| `Codegen.Generator.AnySwitch` | ltnc/compile/compile_switch.cxx:19-58 | The two loops emit the tests, the default and the bodies the specification numbers recursively |
| `Codegen.Generator.CompileExpression` | ltnc/compile/compile_expression.cxx:12-15 | For every expression the emitted code and the numbers drawn are the specified ones |
| `Codegen.Generator.LogAnd` | ltnc/compile/compile_binary.cxx:21-39 | Emits the specified code of and |
| `Codegen.Generator.LogOr` | ltnc/compile/compile_binary.cxx:43-62 | Emits the specified code of or |
| `Codegen.Generator.ElvisCode` | ltnc/compile/compile_binary.cxx:66-84 | Emits the specified code of elvis |
| `Codegen.Generator.NullCoCode` | ltnc/compile/compile_binary.cxx:88-108 | Emits the specified code of null coalescing |
| `Codegen.Generator.CompileInvokeMember` | ltnc/compile/compile_call.cxx:48-63 | Emits the specified code of a member call |
| `Codegen.Generator.CompileMembers` | ltnc/compile/compile_init.cxx:9-14 | The loop over members emits the specified writes |
| `Codegen.Generator.CompilePairs` | ltnc/compile/compile_init.cxx:23-29 | The loop over pairs emits the specified writes |
| `Codegen.Generator.CompileCases` | ltnc/compile/compile_switch.cxx:7-15 | The case codes are made in order, the default after them |
| `Codegen.Generator.CompileCascade` | ltnc/compile/compile_conditional.cxx:64-87 | The loop with its counter emits the code specified recursively |
| `Codegen.Generator.CompileBinding` | ltnc/compile/compile_write.cxx:84-87 | For every binding the emitted code is the specified one |
| `Codegen.Generator.CompileStatement` | ltnc/compile/compile_statement.cxx:9-12 | For every statement the emitted code and the numbers drawn are the specified ones |
| `Codegen.Generator.CompileForEach` | ltnc/compile/compile_loops.cxx:52-76 | Both labels are drawn before the expression and the body are compiled |
| `Codegen.Generator.CompileFunction` | ltnc/compile/compile_function.cxx:22-52 | Prologue, body and epilogue of plain functions, coroutines and functions with except block |
| `ClosedCode.ClosedExpr` | ltnc/compile/compile_binary.cxx:114-144 | Code of an expression defines each label of its own once, jumps only to labels it defines or the tree names, and draws its numbers from the range it is given |
| `ClosedCode.ClosedStmt` | ltnc/compile/compile_loops.cxx:17-76 | The same for the code of a statement |
| `ClosedCode.SwitchParts` | ltnc/compile/compile_switch.cxx:33-53 | A switch defines one label for each case, which is what its tests jump to |
| `Programs.ClosedProgram` | ltnc/compile/compile.cxx:25-42 | In the code of an analysed program no label is defined twice, every jump target and every called function is defined, and no `newi 1` occurs |
| `Programs.ProgramLinks` | ltnc/link/link.cxx:51-73 | Linking gives every function the address of its code |
| `Labels.RenderInjective` | ltnc/make_jump_id.cxx:6-10 | Labels the compiler makes are equal when they are written the same, with numbers, suffixes and case counters written out |
| `Labels.FunctionNameInjective` | ltnc/labels.cxx:35-43 | Functions of different paths, names or arities are written differently |
| `Linker.GenerateJumpTable` | ltnc/link/link.cxx:25-38 | Succeeds if and only if no label is defined twice, and then maps each label to the offset of the first instruction after it |
| `Linker.TableFinds` | ltnc/assemble/assemble.cxx:11-15 | A label is in the table if and only if it is defined, with the offset of its definition |
| `Linker.GenerateStringPool` | ltnc/link/link.cxx:40-48 | The pool holds every literal once, in order of first use |
| `Linker.Push` | ltn/file/StringPool.cxx:30-38 | A string is in the pool afterwards, no other is added and none moves |
| `Linker.Assemble` | ltnc/assemble/assemble.cxx:162-183 | Succeeds if and only if every label, function and string can be resolved, and then gives the bytes of all instructions in order |
| `Linking.WrittenAt` | ltnc/link/link.cxx:7-23 | Instruction k starts at the sum of the sizes before it |
| `Linking.SizeIsLength` | ltnc/link/link.cxx:7-23 | The size the linker counts with is the number of bytes the assembler writes |
| `Linking.FetchPlaced` | ltnvm/VMCore.hxx:25-42 | Fetching at the offset of instruction k decodes exactly that instruction with resolved operands and leaves pc at the offset of k + 1 |
| `Linking.FetchEnd` | ltnvm/VMCore.hxx:25-28 | Past the last instruction there is nothing to fetch |
| `Bytecode.FetchBytes` | ltnc/assemble/assemble.cxx:41-144 | Every instruction that fits its operand widths is fetched back as it was written, whatever surrounds it |
| `Binary.BeRoundTrip` | ltnc/assemble/assemble.cxx:19-28 | Reading back a fixed-width big-endian number gives the number |
| `Binary.UnBeRoundTrip` | ltn/file/binary.hxx:10-18 | Writing back what was read gives the bytes |
| `Binary.SignedRoundTrip` | ltnc/assemble/assemble.cxx:30-33 | A signed 64-bit number survives being written as unsigned |
| `Binary.ToBytes` | ltnc/assemble/assemble.cxx:19-28 | The loop that shifts bytes out from the low end and turns them round writes the big-endian bytes |
| `Binary.FetchUint` | ltnvm/VMCore.hxx:30-37 | The accumulating loop reads the eight bytes at pc as a number and moves pc by eight |
| `Binary.ReadUint64` | ltnvm/TypeTable.cxx:15-21 | The shifting loop reads eight bytes as a little-endian number |
| `Binary.Uint64ToBytes` | ltnc/analyze/analyze_type.cxx:39-45 | The loop writes the eight little-endian bytes |
| `ByteMachine.StepMatches` | ltnvm/VM.cxx:204-207 | One step of the byte machine is one step of the labelled code, every address as its offset |
| `ByteMachine.ByteRuns` | ltnvm/VM.cxx:201-217 | Every run of the byte machine is a run of the labelled code with at least as many steps |
| `Build.AllResolvable` | ltnc/assemble/assemble.cxx:41-132 | Whatever the code of an analysed program refers to is found |
| `Build.GeneratePool` | ltnc/link/link.cxx:55-64 | Each function gets the offset of its label and the size of its frame, in order |
| `Build.BuildProgram` | ltnc/assemble/assemble.cxx:162-183 | For an analysed program the whole back end succeeds and gives the bytes of the rewritten code |
| `Build.LabelsWellNamed` | ltnc/labels.cxx:35-55 | Every label in compiled code is one the linker can tell apart by its spelling |
| `Peephole.FindStride` | ltnc/peephole/peephole.cxx:42-85 | The searches with their shrinking span compute the number of instructions that match |
| `Peephole.ApplyPattern` | ltnc/peephole/peephole.cxx:162-174 | The first pattern that matches is applied, or one instruction copied |
| `Peephole.Transform` | ltnc/peephole/peephole.cxx:176-182 | The loop gives the rewriting from front to back |
| `Peephole.TableEffect` | ltnc/peephole/peephole.cxx:93-158 | What the pattern table does to any code, in the order the patterns are tried |
| `Peephole.AloneAreStarts` | ltnc/peephole/peephole.cxx:93-158 | No pattern spans a label or an exit |
| `Peephole.FindMoves` | ltnc/peephole/peephole.cxx:176-182 | Every label is kept, once, where its instruction went |
| `Peephole.RewriteAt` | ltnc/peephole/peephole.cxx:162-182 | At the place of a kept or replaced instruction the rewritten code has what the pattern there gives |
| `PeepholeProof.RewrittenMatches` | ltnc/peephole/peephole.cxx:93-158 | One step of the rewritten code is one or two steps of the original, and runs only stop between patterns |
| `PeepholeProof.RewrittenRuns` | ltnc/peephole/peephole.cxx:187-189 | Every run of the rewritten program is a run of the original |
| `PeepholeProof.IncIsAddExactly` | ltnc/peephole/peephole.cxx:134-142 | Where they match, the patterns for inc and dec are right on scalars if and only if the operand is an integer or a character that does not wrap |
| `Relocation.ExecMap` | ltnvm/inst/inst_control_flow.cxx:10-67 | An instruction does to a moved state what it did before, moved |
| `Relocation.ExecWithin` | ltnvm/inst/inst_control_flow.cxx:10-67 | Addresses come only from the state, the instruction, the function pool and the place after it |
| `FlatProof.FlatExecAgrees` | ltnvm/VMStack.hxx:24-61 | Whatever goes well on split stacks goes the same way on the shared vector: no slot, operand or caller's value is confused |
| `FlatProof.FlatThrowAgrees` | ltnvm/inst/inst_debug.cxx:10-48 | Unwinding pops the same calls in both and rebuilds the same frame |
| `FlatProof.InvokeAgrees` | ltnvm/inst/inst_invoke.cxx:105-121 | Invoking functions and coroutines builds the same frame in both |
| `FlatProof.CoroutineAgrees` | ltnvm/inst/inst_yield.cxx:4-51 | Yield, coroutine return and dump save and pop the same values in both |
| `FlatProof.ExecKeepsFramed` | ltnvm/VMStack.cxx:11-32 | Every instruction keeps the frames well formed |
| `VMCore.VMStack.PushFrame` | ltnvm/VMStack.cxx:11-20 | Arguments become the first slots, the rest are nulls, the caller's frame pointer is saved |
| `VMCore.VMStack.PopFrame` | ltnvm/VMStack.cxx:24-32 | Everything from the frame pointer on goes, the caller's frame pointer is back |
| `VMCore.VMStack.Push` | ltnvm/VMStack.hxx:50-52 | One value on top |
| `VMCore.VMStack.Pop` | ltnvm/VMStack.hxx:56-60 | The top value is taken |
| `VMCore.VMStack.Write` | ltnvm/VMStack.hxx:31-34 | The slot at the offset from the frame pointer, and no other value, changes |
| `VMCore.VMStack.ReadFromStack` | ltnvm/inst/inst_invoke.cxx:15-22 | The arguments come off in the order they were pushed |
| `VMCore.VMStack.LoadOntoStack` | ltnvm/inst/inst_invoke.cxx:7-11 | The values go on in order |
| `VMCore.Core.Throw` | ltnvm/inst/inst_debug.cxx:10-48 | The loop that pops frames ends as the specified unwinding does |
| `VMCore.Core.Jump` | ltnvm/inst/inst_control_flow.cxx:10-13 | Leaves the state the flat machine specifies |
| `VMCore.Core.If` | ltnvm/inst/inst_control_flow.cxx:35-41 | Takes the condition and leaves the state the flat machine specifies |
| `VMCore.Core.Call` | ltnvm/inst/inst_control_flow.cxx:17-23 | Enters the function by its index with its arity many arguments |
| `VMCore.Core.Return` | ltnvm/inst/inst_control_flow.cxx:27-31 | One result on top of what the caller had |
| `VMCore.Core.ReturnNull` | ltnvm/inst/inst_control_flow.cxx:64-67 | The same with null |
| `VMCore.Core.ForNext` | ltnvm/inst/inst_control_flow.cxx:56-60 | The next value is pushed, and a stop value ends the loop |
| `VMCore.Core.Try` | ltnvm/inst/inst_debug.cxx:24-27 | Installs the handler in the current frame only |
| `VMCore.Core.Scrap` | ltnvm/inst/inst_memory.cxx:6-8 | The top value goes |
| `VMCore.Core.Duplicate` | ltnvm/inst/inst_memory.cxx:12-14 | The top value is there twice |
| `VMCore.Core.Swap` | ltnvm/inst/inst_memory.cxx:34-39 | The two values on top change places |
| `VMCore.Core.Load` | ltnvm/inst/inst_memory.cxx:18-22 | The slot's value is pushed |
| `VMCore.Core.Store` | ltnvm/inst/inst_memory.cxx:26-30 | The top value goes into the slot |
| `VMCore.Core.Unpack` | ltnvm/inst/inst_unpack.cxx:5-23 | The elements are pushed last to first, or too short a tuple raises |
| `VMCore.Core.Capture` | ltnvm/inst/inst_capture.cxx:5-13 | The value is added to the captures of the function below it |
| `VMCore.Core.StaticRead` | ltnvm/inst/inst_static.cxx:4-8 | The global is read by its absolute address |
| `VMCore.Core.StaticWrite` | ltnvm/inst/inst_static.cxx:11-15 | The global is written by its absolute address |
| `VMCore.Core.Yield` | ltnvm/inst/inst_yield.cxx:4-21 | The slots and operands of the frame are saved, the frame popped, coroutine and value handed out |
| `VMCore.Core.CoReturn` | ltnvm/inst/inst_yield.cxx:25-37 | The last value is handed out with null for the coroutine |
| `VMCore.Core.CoDump` | ltnvm/inst/inst_yield.cxx:41-51 | The frame is saved before the body starts and the coroutine is the result |
| `VMCore.Core.PrepareArguments` | ltnvm/inst/inst_invoke.cxx:25-36 | Wrong counts raise with nothing changed; the surplus of a variadic call becomes one tuple |
| `VMCore.Core.InvokeScriptFunction` | ltnvm/inst/inst_invoke.cxx:40-49 | The frame has arguments, captures and empty slots, in this order |
| `VMCore.Core.InvokeCoroutine` | ltnvm/inst/inst_invoke.cxx:89-100 | The saved slots and operands are where they were, relative to the new frame pointer |
| `VMCore.Core.Invoke` | ltnvm/inst/inst_invoke.cxx:105-121 | Functions and coroutines are invoked, anything else raises |
| `VMCore.Core.Execute` | ltnvm/VM.cxx:201-217 | A turn of the loop, with exceptions of the handler converted and thrown again, is one step of the flat machine |
| `Unwinding.ThrowIsCaught` | ltnvm/inst/inst_debug.cxx:10-48 | A throw at any depth is caught in the innermost frame with a handler: everything below it is untouched, slot 0 is the exception, the other slots are null, that handler is gone |
| `Unwinding.ThrowIsUnhandled` | ltnvm/inst/inst_debug.cxx:31-48 | Without a handler the run ends with the string that was thrown, or with the error that it is no string |
| `Unwinding.ThrowDecides` | ltnvm/inst/inst_debug.cxx:10-22 | A throw is unhandled if and only if no frame has a handler, and its message is the string thrown or the error that it is none |
| `Unwinding.HandlerReturns` | ltnvm/VMStack.cxx:11-32 | A return from the except block resumes the original caller, its arguments replaced by the one result |
| `Unwinding.FlattenOrdered` | ltnvm/VMStack.cxx:11-32 | In every state of the machine the saved frame pointers are in order |
| `StackDiscipline.ProgramKeepsHeights` | doc/technical/nodes.md:5-18 | Every state of every run of a compiled program, through calls, yields, returns and throws, has the one operand height of its place; nothing is popped that is not there |
| `StackDiscipline.RunsKeepHeights` | ltnvm/VMStack.hxx:50-61 | Runs of any code with consistent heights keep to them and stay within the code |
| `StackDiscipline.StepKeepsHeights` | ltnvm/inst/inst_control_flow.cxx:10-67 | One step keeps the heights of the running call, of all callers and of suspended coroutines |
| `StackDiscipline.ProgramVerified` | doc/technical/nodes.md:5-18 | Every compiled program has such heights |
| `ProgramHeights.ProgramInfers` | ltnc/compile/compile.cxx:25-42 | One forward pass finds the heights of a whole program, functions and except blocks entered with none |
| `CompiledHeights.ExprTypes` | doc/technical/nodes.md:10-13 | The code of an expression ends one operand higher, wherever it stands |
| `CompiledHeights.StmtTypes` | doc/technical/nodes.md:5-8 | The code of a statement ends at the height it started at, or nowhere; what it returns to an end label arrives one higher |
| `CompiledHeights.BindTypes` | doc/technical/nodes.md:15-18 | The code of a binding ends one operand lower |
| `Heights.CloseForward` | ltnc/compile/compile_conditional.cxx:31-43 | Code and the label behind it that it jumps to agree on the height |
| `Heights.CloseBackward` | ltnc/compile/compile_loops.cxx:24-31 | Code and the label in front of it that it jumps back to agree on the height |
| `OptimizeProof.OptExprSame` | ltnc/optimize/optimize_expression.cxx:9-34 | An optimized expression has the value, the effects and the exceptions of the original |
| `OptimizeProof.OptStmtSame` | ltnc/optimize/optimize_statement.cxx:78-107 | An optimized statement has the outcome and the effects of the original; a while that became an infinite loop included |
| `OptimizeProof.OptExprReduces` | ltnc/optimize/optimize_expression.cxx:9-34 | Nothing is left to fold in an optimized expression: optimizing it again changes nothing |
| `OptimizeProof.OptStmtReduces` | ltnc/optimize/optimize_statement.cxx:78-107 | No test that is decided is left in an optimized statement |
| `Folding.FoldOperandsSame` | ltnc/optimize/optimize_binary.cxx:27-104 | Folding a binary operator gives what the machine computes; division and modulo by zero are left to run time |
| `Folding.FoldUnarySame` | ltnc/optimize/optimize_unary.cxx:22-62 | Folding negation and not gives what the machine computes |
| `Folding.FoldNullTestSame` | ltnc/optimize/eval/eval_unary.hxx:51-63 | Folding a null test gives what the machine computes |
| `Folding.NegationFoldsExactly` | ltnc/optimize/eval/eval_unary.hxx:7-18 | Negating a number literal folds rightly if and only if it is not a character above 127 |
| `Folding.NumbersFoldExactly` | ltnc/optimize/eval/eval_binary.hxx:10-67 | When sums, differences, products, quotients and remainders of number literals fold rightly: if and only if the operands read as negative at run time cancel out as spelled out for each operator |
| `Folding.HalfOfHighCharacter` | ltnc/optimize/eval/eval_binary.hxx:62-67 | Half of the character 200 is folded to 100 and is -28 at run time |
| `Arrays.ArrayFoldsExactly` | ltnc/optimize/eval/eval_unary.hxx:32-34 | The negation of an array of literals and variables folds rightly but for garbage if and only if all its variables exist and making the array works, gives a true value and changes no other object |
| `Arrays.QuietAdds` | ltnc/optimize/eval/eval_conditional.hxx:28-31 | Evaluating an array or tuple of literals, variables and such arrays leaves nothing behind but new objects |
| `Arrays.SettledRight` | ltnc/optimize/eval/eval_conditional.hxx:52-59 | An expression the optimizer knows the value of, or takes for true, evaluates to that value, or to a true one, whatever was folded inside it |
| `Arrays.ArrayFoldDropsException` | ltnc/optimize/eval/eval_unary.hxx:32-34 | The exception of a division by zero inside an array is lost by folding |
| `Optimized.OptWellFormedExactly` | ltnc/link/link.cxx:60 | The optimized program keeps within the frames link counts for it if and only if each count covers the slots its body and except block use |
| `Optimized.OptimizedMeansSame` | ltnc/optimize/optimize.cxx:4-13 | A call of the optimized program has the outcome, the globals and the contents of all objects it had, but for garbage if arrays were dropped, though every frame may have another size |
| `Optimized.OptimizedRunsSame` | ltnc/optimize/optimize.cxx:4-13 | On the machine the optimized program returns the same but for garbage, and fails and runs forever exactly when the original does |
| `Tracking.CallTracks` | ltnvm/VMStack.cxx:11-20 | A call in the original and in the optimized program: bodies optimized, frames of other sizes, heaps that differ in garbage, the same result |
| `Tracking.ExprTracks` | ltnvm/VMStack.cxx:11-20 | An expression both programs have does the same in frames of different sizes and heaps that differ in garbage |
| `Tracking.StmtTracks` | ltnvm/VMStack.cxx:11-20 | So does a statement |
| `Tracking.OptExprTracks` | ltnc/optimize/optimize_expression.cxx:9-34 | An expression and what the optimizer makes of it, array literals that are dropped included |
| `Tracking.OptStmtTracks` | ltnc/optimize/optimize_statement.cxx:78-107 | A statement and what the optimizer makes of it |
| `Tracking.OptWhileTracks` | ltnc/optimize/optimize_statement.cxx:54-73 | A while loop over an always true condition, an array literal included, and the infinite loop it becomes do the same |
| `Frames.StmtExactly` | ltnc/link/link.cxx:60 | A statement that makes sense in some frame makes sense in another if and only if that one has the slots the statement mentions |
| `Frames.StmtBoundExactly` | ltnc/sst/stmt/Block.cxx:11-27 | A statement keeps within the slots it counts, temporary and persistent, if and only if the variables it declares reach no further |
| `Frames.ExprBoundExactly` | ltnc/sst/expr/Iife.cxx:11-13 | The same for an expression |
| `Frames.StmtReaches` | ltnc/scoping/LocalScope.cxx:5-17 | How far the slots of a statement reach follows from the variables it declares |
| `Frames.StmtBound` | ltnc/sst/stmt/Block.cxx:11-27 | Statements without variables where the count does not look, and without a declaration as a last arm, reach no further than they count |
| `Frames.ExprBound` | ltnc/sst/expr/Iife.cxx:11-13 | The same for expressions |
| `Frames.SwitchBound` | ltnc/sst/stmt/Switch.cxx:10-22 | The same for a switch whose subject and default declare nothing |
| `OptimizedFrames.OptStmtBoundExactly` | ltnc/optimize/optimize_statement.cxx:35-52 | What the optimizer makes of a body keeps within its frame, counted again, if and only if it mentions no slot beyond |
| `OptimizedFrames.PlainBodiesFit` | ltnc/optimize/optimize_statement.cxx:35-52 | Plain bodies keep within their frames before and after optimizing, though an if was replaced by one of its arms |
| `Frames.CountBlock` | ltnc/sst/stmt/Block.cxx:11-19 | The loop with its two accumulators computes the specified count |
| `Frames.CountSwitch` | ltnc/sst/stmt/Switch.cxx:10-22 | The loop leaves out the subject and the default, as the code does |
| `Frames.UncountedLastArm` | ltnc/sst/stmt/Conditional.cxx:9-20 | A last arm that is itself a declaration reaches one slot beyond the count |
| `Frames.UncountedDefault` | ltnc/sst/stmt/Switch.cxx:10-22 | So does a default that is itself a declaration |
| `Frames.UncountedMemberRead` | ltnc/sst/expr/Member.cxx:11-13 | So does a block under a member read |
| `Analysis.AnalyzeStatement` | ltnc/analyze/analyze_statement.cxx:24-29 | Analysis of a statement succeeds if and only if every name is known and none is declared twice in a scope; the tree does in every frame that holds the variables in their slots what the statement does by names, gives each new variable the next slot and grows its scope as counted |
| `Analysis.AnalyzeBlock` | ltnc/analyze/analyze_block.cxx:9-18 | The loop over a block numbers its variables one after the other in a scope of its own, and the tree runs the statements in their order |
| `Analysis.AnalyzeIf` | ltnc/analyze/analyze_if_else.cxx:9-37 | Branches have scopes of their own, each runs on the outcome it is written for; an else that does nothing counts as none |
| `Analysis.AnalyzeLoop` | ltnc/analyze/analyze_loops.cxx:14-36 | The body of a loop has a scope of its own, and runs as often as the loop says by names |
| `Analysis.AnalyzeSwitch` | ltnc/analyze/analyze_switch.cxx:28-39 | Cases in their order, then the default, which has no scope of its own: what it declares moves the following variables up |
| `Analysis.AnalyzeCases` | ltnc/analyze/analyze_switch.cxx:14-24 | Labels see no local variable, bodies have scopes of their own, both mean what is written |
| `Analysis.AnalyzeVar` | ltnc/analyze/analyze_newvar.cxx:9-16 | The initial value is analysed before the variables are declared, and each part of a binding gets its value |
| `Analysis.AnalyzeAssign` | ltnc/analyze/analyze_write.cxx:21-30 | The value goes to the variable or global that the name means, evaluated before |
| `Analysis.AnalyzeInner` | ltnc/analyze/analyze_loops.cxx:14-36 | A statement in a scope of its own means the same, and its variables are gone afterwards |
| `Analysis.AnalyzeExpression` | ltnc/analyze/analyze_expression.cxx:32-36 | Succeeds if and only if all names are known, reads only slots in use, and in every frame that holds the variables in their slots the tree has the value the expression has by names |
| `Analysis.Named` | ltnc/analyze/analyze_read.cxx:13-32 | A name is a variable of the innermost scope that has it, in the slot of that variable, else a definition or global, else an error |
| `Analysis.AnalysedBodyFits` | ltnc/link/link.cxx:60 | Of a plain body the analysis makes, the frame link counts holds all slots |
| `NamesToSlots.NameMeans` | ltnc/analyze/analyze_read.cxx:13-32 | Reading the slot or global a name stands for gives the value of the innermost variable of that name |
| `NamesToSlots.BinaryMeans` | ltnc/analyze/analyze_binary.cxx:9-16 | Left operand, right operand and operator stay as they are written |
| `NamesToSlots.UnaryMeans` | ltnc/analyze/analyze_unary.cxx:7-13 | Operand and operator stay as they are written |
| `NamesToSlots.AssignMeans` | ltnc/analyze/analyze_write.cxx:21-30 | Writing the slot changes the innermost variable of the name and no other, since no two variables share a slot |
| `NamesToSlots.VarMeans` | ltnc/analyze/analyze_newvar.cxx:9-16 | Variables of a binding, groups within groups included, get their values in new slots and leave all others |
| `NamesToSlots.ScopeMeans` | ltnc/scoping/MinorScope.cxx:40-42 | A statement in a scope of its own: its slots are free again afterwards and all others are as it left them |
| `NamesToSlots.NextMeans` | ltnc/analyze/analyze_block.cxx:9-18 | One statement more after the ones before it |
| `NamesToSlots.BlockMeans` | ltnc/analyze/analyze_block.cxx:9-18 | A block of statements that mean the same means the same |
| `NamesToSlots.IfMeans` | ltnc/analyze/analyze_if_else.cxx:9-37 | The arm the condition selects by names is the one the tree runs |
| `NamesToSlots.WhileMeans` | ltnc/analyze/analyze_loops.cxx:14-36 | A loop by names and the loop over slots run the same rounds, for any fuel |
| `NamesToSlots.LoopMeans` | ltnc/analyze/analyze_loops.cxx:14-36 | So do infinite loops |
| `NamesToSlots.SwitchMeans` | ltnc/analyze/analyze_switch.cxx:28-39 | The same case runs; after it the variables of the default are in slots, though they may have no value |
| `NamesToSlots.StackApart` | ltnc/scoping/LocalScope.cxx:5-17 | In a stack of scopes no two variables share a slot |
| `Definite.StmtMeant` | ltnc/analyze/analyze_statement.cxx:24-29 | A statement the analysis accepts has a described outcome by names in every store with the names it sees, and leaves the names it declares with values, unless the default of a switch declares something |
| `Definite.ExprMeant` | ltnc/analyze/analyze_expression.cxx:32-36 | So has an expression |
| `Definite.TreeFollows` | ltnc/analyze/analyze_statement.cxx:24-29 | Its tree does exactly what it does by names, from any frame that holds the variables |
| `Definite.UnsetAfterSwitch` | ltnc/analyze/analyze_switch.cxx:28-39 | A variable that the default of a switch declares is accepted after it, though it has no value when another case ran |
| `Scopes.Scope.DeclareVariable` | ltnc/scoping/LocalScope.cxx:5-17 | A new variable gets the next free slot of all scopes below, a name the scope has is refused with nothing changed |
| `Scopes.Scope.Minor` | ltnc/scoping/MinorScope.cxx:40-42 | A nested scope starts with no variables above all slots in use |
| `Scopes.Scope.ResolveBelowSize` | ltnc/scoping/MinorScope.cxx:10-18 | A resolved variable has a slot in use |
| `Scopes.Scope.LiveVariablesDistinct` | ltnc/scoping/LocalScope.cxx:5-17 | Variables that are alive together have different slots |
| `Scopes.AnalyzeBinding` | ltnc/analyze/analyze_bindings.cxx:10-38 | Succeeds if and only if no name is declared twice; the variables get consecutive slots in order and all others stay |
| `Scopes.BoundFits` | ltnc/analyze/analyze_bindings.cxx:10-29 | A binding has as many slots as it counts for, and they are the next free ones |
| `Scopes.Scope.KnownResolves` | ltnc/scoping/MinorScope.cxx:10-18 | A name resolves if and only if the scope or one around it has it |
| `Scopes.Scope.ResolveIsLevel` | ltnc/scoping/MinorScope.cxx:10-18 | Resolving gives the slot in the innermost of the scopes that have the name |
| `Gc.Heap.CollectGarbage` | ltnvm/Heap.hxx:60-70 | When the heap has reached the threshold and nothing is locked, exactly the objects reachable from the roots stay, in their order, with clear marks, the size is the length of the list, and the next threshold is twice that and at least 65 above it; otherwise nothing changes |
| `Gc.MarkValue` | ltnvm/gc.cxx:136-162 | Marking terminates on cyclic heaps and marks what the value reaches, keeping what is marked closed |
| `Gc.MarkValues` | ltnvm/gc.cxx:117-132 | The same for several values |
| `Gc.MarkingIsExact` | ltnvm/gc.cxx:4-162 | From clear marks exactly what the roots reach is marked, and nothing marked refers to anything unmarked |
| `Gc.Heap.Sweep` | ltnvm/gc.cxx:166-181 | The relinking loop leaves exactly the marked objects of the owning list in order, clears them and counts the others |
| `Gc.Heap.Unlink` | ltnvm/gc.cxx:175-178 | The owner of an object takes over what that object owns |
| `Gc.Heap.Track` | ltnvm/Heap.hxx:41-47 | A new object is the head of the list and is counted |
| `Gc.Heap.MakeBehindLock` | ltnvm/inst/inst_invoke.cxx:66-86 | An object made behind a lock survives a collection though nothing refers to it yet, and the locks are as before |
| `TypeCodes.TypeRoundTrip` | ltnc/analyze/analyze_type.cxx:12-173 | Decoding the code of a type expression, followed by any bytes, consumes exactly the code and gives the type, with missing sub-types read as any |
| `TypeCodes.DecodeCode` | ltnvm/TypeTable.cxx:550-583 | Every code is decoded to its type and the position after it |
| `TypeCodes.DecodeIsCode` | ltnvm/TypeTable.cxx:550-583 | Whatever the decoder accepts is the code of the type it gives |
| `TypeCodes.CodesDistinguish` | ltnc/analyze/analyze_type.cxx:12-173 | No code is a proper prefix of another, and equal codes mean equal types |
| `TypeCodes.EncodeIsCode` | ltnc/analyze/analyze_type.cxx:50-173 | The encoder writes the code of what a type expression means |
| `TypeTables.TypeTable.Make` | ltnvm/TypeTable.cxx:550-585 | Decodes and interns a type, its parts first; earlier entries stay, the table stays consistent, malformed code is refused |
| `TypeTables.TypeTable.GetType` | ltnvm/TypeTable.cxx:25-34 | The entry of a code is found, or added once |
| `TypeTables.EntriesDistinct` | ltnvm/TypeTable.cxx:595-612 | Two entries are the same if and only if they mean the same type |
| `TypeTables.TypeLiterals` | ltnvm/inst/inst_newtype.cxx:4-9 | Two type literals get the same id if and only if they mean the same type |
| `Comparison.Compare` | ltnvm/utils/compare.cxx:137-143 | The comparison of two values is below, equal or above as the reference order of values says |
| `Comparison.ObjectCompare` | ltnvm/utils/compare.cxx:50-102 | The index loops compare by size and then at the first element that differs |
| `Comparison.StrictCompare` | ltnvm/utils/compare.cxx:147-159 | The order of map keys: by type code, then by value |
| `Comparison.CompareIsLess` | ltnvm/utils/compare.cxx:10-102 | A value compares below another if and only if it is less: numbers by value, strings by the first byte that differs or as a proper prefix, containers by size and then by the first element that differs, type values by their ids, all others by type code |
| `Comparison.StrictIsLess` | ltnvm/utils/compare.cxx:147-159 | Values of one kind by value, others by type code, for keys of a map |
| `Comparison.NumbersAlike` | ltnvm/utils/compare.cxx:16-27 | Booleans, characters and integers compare by their numeric values, whatever their kinds |
| `Comparison.TypesInOrder` | ltnvm/Value.hxx:13-47 | The order of type codes |
| `Comparison.CompareFlips` | ltnvm/utils/compare.cxx:23-35 | Swapping the operands flips the answer, and values compare equal if and only if they are the same up to the kind of number |
| `Comparison.CompareTransitive` | ltnvm/utils/compare.cxx:50-102 | The order is transitive, and strict if a part is |
| `Comparison.StrictIsOrder` | ltnvm/utils/compare.cxx:147-159 | The order of keys is reflexive, flips and is transitive, and equal keys are equal values of the same kind |
| `Iterators.RangeGivesSize` | ltnvm/objects/iter/RangeIterator.cxx:14-50 | In all sign cases the size of a range is the number of values it gives before it stops |
| `Iterators.ReversedGives` | ltnvm/objects/iter/ReversedIterator.cxx:6-30 | A reversed fresh iterator gives the exact reverse if and only if nothing stands before the first value |
| `Iterators.ReversedRangeGivesExactly` | ltnvm/objects/iter/ReversedIterator.cxx:6-30 | For ranges: if and only if the step points towards the end, or passes it at once |
| `Iterators.ZippedGives` | ltnvm/objects/iter/CombinedIterator.cxx:13-60 | Zipping gives as many tuples as the shortest part has values, the i-th with every i-th value |
| `Iterators.ZippedNothing` | ltnvm/objects/iter/CombinedIterator.cxx:23-33 | Zipping nothing gives empty tuples without end, though its size is zero |
| `Iterators.Iterator.NewRange` | ltnvm/objects/iter/RangeIterator.cxx:6-10 | A fresh range stands at its first value |
| `Iterators.Iterator.NewContiguous` | ltnvm/objects/iter/ContiguousIterator.cxx:7-10 | A fresh iterator of a container stands at its first element |
| `Iterators.Iterator.NewReversed` | ltnvm/objects/iter/ReversedIterator.cxx:6-10 | The wrapped iterator is moved to the last of its values |
| `Iterators.Iterator.NewCombined` | ltnvm/objects/iter/CombinedIterator.cxx:7-9 | The parts stay where they are |
| `Iterators.Iterator.GetSize` | ltnvm/objects/iter/CombinedIterator.cxx:53-60 | The size, the least one of its parts for a zip |
| `Iterators.Iterator.Get` | ltnvm/objects/iter/CombinedIterator.cxx:23-33 | The value at the current place: the element of that index, the number at that many steps, or stop outside |
| `Iterators.ElementsGive` | ltnvm/objects/iter/ContiguousIterator.cxx:22-32 | A container gives its elements from first to last |
| `Iterators.RangeGives` | ltnvm/objects/iter/RangeIterator.cxx:22-34 | A range gives begin, begin plus step and so on while it is within its bounds |
| `Iterators.CountingGives` | ltnvm/objects/iter/RangeIterator.cxx:22-34 | A range with step one or minus one gives exactly the integers from begin up or down to its end |
| `Iterators.Iterator.Move` | ltnvm/objects/iter/CombinedIterator.cxx:45-49 | Every part moves by the amount, a reversed one the other way |
| `Iterators.Iterator.Next` | ltnvm/objects/iter/CombinedIterator.cxx:13-19 | The current value, then one step on |
| `Iterators.Iterator.Drain` | ltnvm/objects/iter/Iterator.cxx:41-46 | Taking values until the stop gives exactly the values the shape has from here on |
| `Symbols.Analyze` | ltnc/analyze/analyze.cxx:91-104 | The worklist terminates and analyses each function reachable from the externs exactly once, and no other |
| `Symbols.FunctionQueue.StageFunction` | ltnc/analyze/utils/FunctionQueue.cxx:15-20 | What is known already is not queued again |
| `Symbols.FunctionQueue.FetchFunction` | ltnc/analyze/utils/FunctionQueue.cxx:23-28 | First staged, first fetched |
| `Symbols.SymbolTable.Insert` | ltnc/analyze/utils/SymbolTable.hxx:61-69 | A function is accepted if and only if its own name does not resolve already |
| `Symbols.AcceptedLabelsDistinct` | ltnc/analyze/utils/SymbolTable.hxx:61-69 | Accepted functions have different labels |
| `Symbols.OrderMattersExactly` | ltnc/analyze/utils/namespace_resolution.cxx:7-45 | Two functions are accepted in both orders or in neither if and only if neither is variadic, of the same name, and takes fewer parameters than the other has |
| `Symbols.EveryOrderExactly` | ltnc/analyze/utils/SymbolTable.hxx:61-69 | Accepted declarations are accepted in every order if and only if that holds for each two of them |
| `Symbols.InsertAll` | ltnc/analyze/utils/SymbolTable.hxx:61-69 | Declarations are accepted one after the other if and only if none is hidden by an earlier one |
| `Symbols.VariadicAfterFixed` | ltnc/analyze/utils/namespace_resolution.cxx:7-45 | A variadic function of one parameter is accepted after a function of two with its name, and not before it |
| `Symbols.ResolveInnermost` | ltnc/analyze/utils/namespace_resolution.cxx:75-125 | A relative name is found in the innermost enclosing namespace that has a match, the first declared one there, and only if one has |
| `Symbols.ResolveFinds` | ltnc/analyze/utils/namespace_resolution.cxx:107-125 | An absolute name is the first declared function that matches at exactly that path, wherever it is used; any other the innermost one; nothing if and only if there is none |
| `Symbols.ModesAgree` | ltnc/analyze/utils/namespace_resolution.cxx:7-45 | Which of the four modes accept a function: fixed ones by their exact count, variadic ones by at least their count |
| `Calls.StaticCallIsInvoke` | ltnc/analyze/analyze_call.cxx:18-40 | For every function, variadic or not, and every accepted argument list, calling by label and invoking a capture-free pointer evaluate alike |
| `Calls.ResolvedTakesArguments` | ltnc/analyze/utils/namespace_resolution.cxx:31-34 | A call by name matches a function if and only if invoking it with as many arguments is accepted |
| `Calls.SlotsAgree` | ltnvm/inst/inst_invoke.cxx:25-49 | The slots both give the function are the same |
| `Calls.DeclareParameters` | ltnc/analyze/analyze_function.cxx:15-56 | Parameters, the variadic one and captures get the slots 0, 1, 2 and so on; refused if and only if a name occurs twice |
| `Calls.CapturesFollowParameters` | ltnvm/inst/inst_invoke.cxx:40-49 | An invoked function finds its captures in the slots right after its parameters |
| `FileHeader.HeaderRoundTrip` | ltnvm/VM.cxx:221-251 | Reading what was written gives the same functions and strings and the inverse of the member table next to the reserved names; the position is that of the first instruction |
| `FileHeader.ReadHeader` | ltnvm/VM.cxx:221-251 | Too short files and other versions are refused, anything else is read in order |
| `FileHeader.WriteHeader` | ltnc/assemble/assemble.cxx:162-175 | Version, function pool, string pool and member table in this order |
| `FileHeader.ReadAll` | ltn/file/FunctionPool.cxx:46-71 | The loop that fills a table reads the count and then that many entries |
| `FileHeader.WriteAll` | ltn/file/FunctionPool.cxx:75-91 | The loop that writes a table writes the count and then the entries |
| `FileHeader.TextReads` | ltn/file/StringPool.cxx:6-26 | A string is read back as it was written if and only if it has no NUL |
| `FileHeader.SequenceTable` | ltnc/assemble/assemble.cxx:148-157 | The entries of the member table, each once, in whatever order |
| `FileHeader.MemberTable.GetId` | ltnc/analyze/utils/MemberTable.cxx:5-12 | A known name keeps its id, a new one gets an id no other has |
| `Coroutines.CoroutineTransparent` | ltnvm/inst/inst_yield.cxx:4-21 | Resuming a coroutine in turn, from whatever depths, gives the value sequence of the body running through with its yields as outputs, and ends in the same place |
| `Coroutines.YieldThenResume` | ltnvm/inst/inst_invoke.cxx:89-100 | A yield hands out its value; resumed from anywhere the frame slice (arguments, captures, locals, pending operands) is as if the body had run on |
| `Coroutines.DumpThenResume` | ltnvm/inst/inst_yield.cxx:41-51 | The call that makes a coroutine stops before its body; resumed, it begins as a call would |
| `Coroutines.ExecRebase` | ltnvm/VMStack.hxx:84-89 | An instruction does not notice who called a given number of calls below |
| `CompilerProof.OperandSim` | doc/technical/nodes.md:10-13 | An operand ends as one value on top of what was there, or stops the whole early |
| `CompilerProof.ArgsSim` | ltnc/compile/compile_call.cxx:38-40 | Operands run in order, each on top of the ones before |
| `CompilerProof.MemberArgsSim` | ltnc/compile/compile_call.cxx:55-58 | After each argument and its swap the member is on top and the arguments lie below it in order |
| `CompilerProof.CapturesSim` | ltnc/compile/compile_fx_ptr.cxx:12-15 | Each capture is evaluated and added to the pointer on the stack |
| `CompilerProof.MembersSim` | ltnc/compile/compile_init.cxx:9-14 | The struct stays on the stack while its members are written one by one |
| `CompilerProof.PairsSim` | ltnc/compile/compile_init.cxx:23-29 | The map stays on the stack while its pairs are written one by one |
| `CompilerProof.RoundsSim` | ltnc/compile/compile_loops.cxx:62-68 | Every round of a for-each binds the next value and runs the body with only the iterator on the stack |
| `CompilerProof.InvokeSim` | ltnvm/inst/inst_invoke.cxx:105-121 | An invocation runs what the value resolves to with the arguments on the stack |
| `CompilerProof.CallSim` | ltnvm/inst/inst_control_flow.cxx:17-31 | From the first instruction of a function to the return into its caller, with one result |
| `CompilerProof.Caught` | ltnvm/inst/inst_debug.cxx:31-48 | An exception raised in a frame with a handler continues at the handler |
| `WellFormed.GoodResolve` | ltnvm/inst/inst_invoke.cxx:25-49 | Values and arguments of accepted programs resolve to a call with as many slots as the function names |
| `Codegen.Generator.CompileLogic` | ltnc/compile/compile_binary.cxx:138-141 | Emits the specified code for each short-circuit operator, the number drawn after both operands |
| `Codegen.Generator.CompileMemberArguments` | ltnc/compile/compile_call.cxx:55-58 | The loop emits each argument followed by a swap |
| `Codegen.Generator.CompileArguments` | ltnc/compile/compile_call.cxx:38-40 | The loop emits the arguments in order |
| `Codegen.Generator.CompileCaptures` | ltnc/compile/compile_fx_ptr.cxx:12-15 | The loop emits each capture followed by its instruction |
| `Codegen.Generator.CompileBlock` | ltnc/compile/compile_block.cxx:6-12 | The loop emits the statements in order |
| `Codegen.Generator.CompileIfElse` | ltnc/compile/compile_if_else.cxx:12-27 | The number is drawn before the else arm is compiled; an empty else arm counts as none |
| `Codegen.Generator.CompileExcept` | ltnc/compile/compile_function.cxx:7-17 | Emits the except block after its label |
| `Bytecode.AsBytes` | ltnc/assemble/assemble.cxx:41-144 | The bytes of an instruction, as many as its format has |
| `Bytecode.OpcodesDisjoint` | ltnc/assemble/assemble.cxx:135-144 | The formats of instructions are told apart by the opcode |
| `TypeTables.TypeTable.MakeLeaf` | ltnvm/TypeTable.cxx:53-57 | Interns a type without parts |
| `TypeTables.TypeTable.MakeOf` | ltnvm/TypeTable.cxx:79-83 | Interns a container type after its part |
| `TypeTables.TypeTable.MakeMap` | ltnvm/TypeTable.cxx:112-117 | Interns a map type after key and value |
| `TypeTables.TypeTable.MakeTuple` | ltnvm/TypeTable.cxx:153-165 | Interns a tuple type after its parts |
| `TypeTables.TypeTable.MakeFx` | ltnvm/TypeTable.cxx:192-197 | Interns a function type by its arity |
| `TypeTables.TypeTable.MakeStruct` | ltnvm/TypeTable.cxx:252-273 | Interns a struct type after the types of its members |
| `TypeTables.TypeTable.MakeTypes` | ltnvm/TypeTable.cxx:157-161 | The loop makes the counted types one after the other |
| `TypeTables.TypeTable.MakeMembers` | ltnvm/TypeTable.cxx:259-268 | The loop reads each member's id and makes its type |
| `TypeTables.DenotedPrefix` | ltnvm/TypeTable.cxx:595-600 | New entries do not change what earlier ones mean |
| `Iterators.MoveAll` | ltnvm/objects/iter/CombinedIterator.cxx:45-49 | The loop moves every part by the amount, each on its own |
| `Scopes.DeclareAll` | ltnc/analyze/analyze_function.cxx:15-27 | Names declared in a loop get consecutive slots; refused if and only if one is there twice |
| `Scopes.AnalyzeGroup` | ltnc/analyze/analyze_bindings.cxx:10-20 | The loop over a group numbers its parts one after the other |
| `Symbols.StageAll` | ltnc/analyze/analyze.cxx:97-99 | Staging keeps every known function once, in the queue or analysed |
| `Symbols.AnalyzeNext` | ltnc/analyze/analyze.cxx:101-104 | One round analyses the first function of the queue and stages what it refers to, and comes nearer to the end |
| `VMCore.Core.NewFunction` | ltnvm/inst/inst_alloc.cxx:77-84 | A pointer without captures to the function of the index is pushed |
| `VMCore.Core.Primitive` | ltnvm/inst/inst_arithmetic.cxx:69-205 | The operands come off the stack before the operator can throw, the result goes on |
| `VMCore.Core.Leave` | ltnvm/inst/inst_control_flow.cxx:51-53 | The run stops with the value on top |
| `VMCore.Core.Dispatch` | ltnvm/VM.cxx:28-140 | Each instruction is served by its handler |
| `VMCore.ShortForms` | ltnvm/inst/inst_memory.cxx:43-51 | The short forms of load and store are the long ones with their slot |
| `Gc.Heap.Keep` | ltnvm/gc.cxx:171-174 | A marked object is cleared and stays, the sweep goes on behind it |
| `Gc.Heap.Drop` | ltnvm/gc.cxx:175-178 | An object without mark is taken out, the sweep goes on at the same place |
| `Gc.ReachedThrough` | ltnvm/gc.cxx:4-113 | What the parts of an object reach, the object reaches |
| `CompiledHeights.SwitchTypes` | ltnc/compile/compile_switch.cxx:19-58 | Tests and bodies of a switch agree on the height at every case label and at its end |
| `CompiledHeights.CascadeTypes` | ltnc/compile/compile_conditional.cxx:64-87 | All cases of a cascade arrive at its end with the same height |
| `CompiledHeights.LogicExprTypes` | ltnc/compile/compile_binary.cxx:21-108 | Both ways through a short-circuit operator arrive one operand higher |
| `Heights.ForEachTypes` | ltnc/compile/compile_loops.cxx:52-76 | The iterator is under the body in every round and gone at the end |
| `Heights.IifeTypes` | ltnc/compile/compile_iife.cxx:6-12 | Every way to the end of an immediately invoked block brings one operand |
| `StackDiscipline.InferredSound` | doc/technical/nodes.md:5-18 | Heights found by the pass are consistent at every instruction |
| `Symbols.ClosedHasReachable` | ltnc/analyze/analyze.cxx:95-104 | A set with the externs that is closed under references has every reachable function |
| `Coroutines.StepRebase` | ltnvm/VMStack.hxx:84-89 | A step stays within the coroutine, or leaves it, on any callers alike |
| `Coroutines.UnwindRebase` | ltnvm/inst/inst_debug.cxx:10-22 | Unwinding within the coroutine does not notice its callers |
| `EndToEnd.EntryMatches` | ltnvm/VM.cxx:155-175 | A call from outside starts with its arguments in the first slots and returns to the last byte of the code |

## Left out

- The tokenizer, the parser, the command line, file and module loading, streams, json, chrono, random, plugins and the C interface: I/O, foreign calls and parts without a partner to pair them with.
- BuildIn and Reflect nodes and native functions: calls into code outside the machine. `invoke_variadic` is left out with them.
- Floats: an arbitrary record of operators. Folding of floats is an arbitrary function of which nothing is assumed; programs in which the optimizer folds or decides on a float literal are not fair and no theorem about the optimizer covers them.
- Operators on containers, streams, iterators and structs inside the machine model: arbitrary total functions of the operands and the heap. Special members (`{add}`, `{bool}`, `{cmp}`, `{str}`) and the re-entrant runs they need are not part of the model.
- 64-bit overflow: integers are unbounded in operators; literals, offsets and counts are bounded where bytes are written.
- Function values are values, not shared heap objects: a later capture into a shared pointer would be seen through all its copies in the original.
- Operands wider than their byte (groups of 256 and more parts, arities above 255): `Linking.FitsFormat` asks for operands that fit; the original truncates group sizes and reports arities.
- Static initialisers: their code is compiled, linked and checked for heights, but the run of the initialisation itself is not described by evaluation.
- Analysis from the syntax tree: scopes, bindings, calls by name, name tables, the worklist, and of statements declarations, assignments to variables, blocks, ifs, while and infinite loops, switches and throws over expressions of literals, variables and operators of one instruction. For-each loops, other targets of assignments and the other expressions are not analysed from syntax, nor the check that a const function assigns nothing; what their trees look like is stated by `Frames.FitsStmt`, on which only the criterion `Frames.StmtBound` and the exact bound `Frames.StmtBoundExactly` rest, not the theorems about whole programs.
- Analysis.AnalyzeStatement: a variable that was never given a value has no meaning by names, while its slot holds whatever was left there; `Definite.StmtMeant` says when there are none.
- Definite.StmtMeant: for operators with the operands they take, and groups of fewer than 256 parts.
- Definite.TreeFollows: likewise.
- User functions named like a generated lambda: `Labels.WellNamed` asks for labels with distinct forms.
- Coroutine objects, whose mark is never set, and native function values in the collector.
- Iterators over coroutines, maps and strings, and the check that a container has not changed since its iterator was made.
- Map comparison: the loop over the elements never runs in the original.
- The type table's run-time casts and checks.
- EndToEnd.LoadedReturnsExactly: without coroutines, whose big-step meaning is not defined; Coroutines and StackDiscipline cover them on the machine.
- EndToEnd.LoadedFailsExactly: without coroutines, likewise.
- EndToEnd.LoadedDivergesExactly: without coroutines, likewise.
- Correctness.ReturnsExactly: without coroutines, likewise.
- Correctness.FailsExactly: without coroutines, likewise.
- Correctness.DivergesExactly: without coroutines, likewise.
- WellFormed.GoodExpr: for programs without coroutines; a yield has no big-step meaning here.
- WellFormed.GoodStmt: for programs without coroutines, likewise.
- WellFormed.GoodCall: for programs without coroutines, likewise.
- Tracking.CallTracks: for programs without coroutines, likewise; so are the other lemmas of Tracking.
- Tracking.ExprTracks: for programs without coroutines, likewise.
- Tracking.StmtTracks: for programs without coroutines, likewise.
- Tracking.OptExprTracks: for programs without coroutines, likewise.
- Tracking.OptStmtTracks: for programs without coroutines, likewise.
- Optimized.OptimizedMeansSame: for programs without coroutines, likewise; where arrays are dropped, operators must not see garbage, and the arrays hold literals, variables and arrays and tuples of these, since other elements may raise or change something.
- OptimizedEndToEnd.ShippedReturnsExactly: for programs without coroutines, and under the conditions of Optimized.OptimizedMeansSame; folds that the lemmas of Folding show to be wrong are excluded.
- OptimizedEndToEnd.ShippedReturnsPlain: likewise.
- OptimizedEndToEnd.ShippedFailsExactly: likewise.
- OptimizedEndToEnd.ShippedDivergesExactly: likewise.
- CompilerProof.ExprSim: says nothing of evaluations outside the described semantics (a missing slot, an operand that is not one value); WellFormed shows accepted programs have none.
- OptimizeProof.OptExprSame: equality of heaps, so for trees that drop no array; Tracking.OptExprTracks covers those that do. Folds that are wrong by the exact lemmas of Folding are excluded.
- OptimizeProof.OptStmtSame: likewise, with Tracking.OptStmtTracks.
- Folding.FoldUnarySame: equality of heaps, so without an array under not; Arrays.SettledRight covers it.
- Folding.FoldNullTestSame: without an array under a null test, likewise.
- Arrays.ArrayFoldsExactly: for arrays of literals and variables; for nested ones one direction is proved, in Arrays.QuietAdds.
- Optimized.OptimizedRunsSame: the optimizer builds new trees here, while the original rewrites its tree in place.
- Frames.StmtBound: a sufficient criterion; the exact condition is that of Frames.StmtBoundExactly.
- Frames.ExprBound: likewise, with Frames.ExprBoundExactly.
- Frames.SwitchBound: likewise.
- OptimizedFrames.PlainBodiesFit: likewise, with OptimizedFrames.OptStmtBoundExactly.
- Gc.Heap.CollectGarbage: roots are given as one sequence of values.
- Symbols.Analyze: the functions a body refers to are given as a map instead of being found by analysing the body.
- FileHeader.ReadHeader: a file that ends inside a table is refused, where the original reads past its end.
- FileHeader.SequenceTable: the order of a hash map is arbitrary here.
- VMCore.Core.Yield: a machine whose pair of coroutine and value cannot be made is left out; in the original, making a tuple does not fail.
- Pending.OneValueExactly: loops over one-element arrays, for operators that can make and iterate them.
